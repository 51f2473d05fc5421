/**
 Windows command-line quoting, and the argument rules it has to satisfy: an even run of
 backslashes before a quotation mark stands for half as many backslashes, an odd run for half as
 many and a literal mark, and backslashes elsewhere stand for themselves.
 */
module Quoting {
  import opened Std

  const QUOTE: u16 := 34
  const SLASH: u16 := 92
  const SPACE: u16 := 32
  const TAB: u16 := 9

  function Slashes(n: nat): seq<u16> {
    seq(n, _ => SLASH)
  }

  predicate IsBlank(c: u16) {
    c == SPACE || c == TAB
  }

  predicate NeedsQuotes(value: seq<u16>) {
    value == [] || exists c :: c in value && (IsBlank(c) || c == QUOTE)
  }

  predicate NulFree(value: seq<u16>) {
    0 !in value
  }

  /** The quoted form of `value` after its opening mark, with `pending` backslashes held back. */
  function Escape(value: seq<u16>, pending: nat): seq<u16> {
    if value == [] then Slashes(2 * pending) + [QUOTE]
    else if value[0] == SLASH then Escape(value[1..], pending + 1)
    else if value[0] == QUOTE then Slashes(2 * pending + 1) + [QUOTE] + Escape(value[1..], 0)
    else Slashes(pending) + [value[0]] + Escape(value[1..], 0)
  }

  function Quoted(value: seq<u16>): seq<u16> {
    if NeedsQuotes(value) then [QUOTE] + Escape(value, 0) else value
  }

  function Joined(arguments: seq<seq<u16>>): seq<u16> {
    if arguments == [] then []
    else if |arguments| == 1 then Quoted(arguments[0])
    else Quoted(arguments[0]) + [SPACE] + Joined(arguments[1..])
  }

  /** An argument is written as it is exactly when it is not empty and has neither space, tab nor mark. */
  lemma BareIff(value: seq<u16>)
    ensures Quoted(value) == value <==> value != [] && forall c :: c in value ==> c != 32 && c != 9 && c != 34
  {
    if NeedsQuotes(value) && Quoted(value) == value {
      assert value[0] == QUOTE && value[0] in value;
      EscapeLength(value, 0);
    }
  }

  lemma {:induction false} EscapeLength(value: seq<u16>, pending: nat)
    ensures |Escape(value, pending)| >= |value| + pending + 1
  {
    if value != [] {
      EscapeLength(value[1..], if value[0] == SLASH then pending + 1 else 0);
    }
  }

  /** Without marks and backslashes, quoting adds the two marks and nothing else. */
  lemma {:induction false} EscapePlain(value: seq<u16>)
    requires forall c :: c in value ==> c != QUOTE && c != SLASH
    ensures Escape(value, 0) == value + [QUOTE]
  {
    if value == [] {
      assert Slashes(0) + [QUOTE] == [QUOTE];
    } else {
      assert value[0] in value && forall c :: c in value[1..] ==> c in value;
      EscapePlain(value[1..]);
      assert Slashes(0) + [value[0]] + (value[1..] + [QUOTE]) == value + [QUOTE];
    }
  }

  // The encoder.

  method AppendQuotedArgument(before: seq<u16>, argument: seq<u16>) returns (output: Option<seq<u16>>)
    ensures output == if NulFree(argument) then Some(before + Quoted(argument)) else None
  {
    if 0 in argument {
      return None;
    }
    if argument != [] && !(exists c :: c in argument && (IsBlank(c) || c == QUOTE)) {
      return Some(before + argument);
    }
    var text := [QUOTE];
    var slashes := 0;
    for k := 0 to |argument|
      invariant text + Escape(argument[k..], slashes) == [QUOTE] + Escape(argument, 0)
    {
      var character := argument[k];
      ghost var rest := argument[k..];
      assert rest[0] == character && rest[1..] == argument[k + 1..];
      if character == SLASH {
        slashes := slashes + 1;
      } else {
        ghost var later := Escape(rest[1..], 0);
        if character == QUOTE {
          assert text + (Slashes(2 * slashes + 1) + [QUOTE] + later) == text + Slashes(2 * slashes + 1) + [QUOTE] + later;
          text := text + Slashes(2 * slashes + 1) + [QUOTE];
        } else {
          assert text + (Slashes(slashes) + [character] + later) == text + Slashes(slashes) + [character] + later;
          text := text + Slashes(slashes) + [character];
        }
        slashes := 0;
      }
    }
    assert text + (Slashes(2 * slashes) + [QUOTE]) == text + Slashes(2 * slashes) + [QUOTE];
    return Some(before + (text + Slashes(2 * slashes) + [QUOTE]));
  }

  /** What follows once the first `index` arguments are written. */
  ghost function Tail(arguments: seq<seq<u16>>, index: nat): seq<u16>
    requires index <= |arguments|
  {
    if index == |arguments| then []
    else (if index == 0 then [] else [SPACE]) + Joined(arguments[index..])
  }

  lemma TailStep(arguments: seq<seq<u16>>, index: nat, text: seq<u16>)
    requires index < |arguments|
    ensures text + Tail(arguments, index) == text + (if index == 0 then [] else [SPACE]) + Quoted(arguments[index]) + Tail(arguments, index + 1)
  {
    var rest := arguments[index..];
    assert rest[0] == arguments[index] && rest[1..] == arguments[index + 1..];
    var separator, quoted, later := if index == 0 then [] else [SPACE], Quoted(arguments[index]), Tail(arguments, index + 1);
    assert |rest| == 1 ==> later == [] && quoted + later == quoted;
    assert Joined(rest) == quoted + later;
    assert text + (separator + (quoted + later)) == text + separator + quoted + later;
  }

  predicate NulFreeAll(arguments: seq<seq<u16>>) {
    forall i :: 0 <= i < |arguments| ==> NulFree(arguments[i])
  }

  /** The arguments separated by single spaces, with the terminating NUL. */
  method CommandLine(arguments: seq<seq<u16>>) returns (line: Option<seq<u16>>)
    ensures line == if NulFreeAll(arguments) then Some(Joined(arguments) + [0]) else None
  {
    var text: seq<u16> := [];
    WrittenNothing(arguments);
    for index := 0 to |arguments|
      invariant forall i :: 0 <= i < index ==> NulFree(arguments[i])
      invariant Written(arguments, index, text)
    {
      WrittenNext(arguments, index, text);
      if index != 0 {
        text := text + [SPACE];
      }
      var appended := AppendQuotedArgument(text, arguments[index]);
      if appended.None? {
        return None;
      }
      text := appended.value;
    }
    assert text + [] == text;
    return Some(text + [0]);
  }

  /** The text so far, with what follows, is the whole line. */
  ghost predicate Written(arguments: seq<seq<u16>>, index: nat, text: seq<u16>) {
    index <= |arguments| && text + Tail(arguments, index) == Joined(arguments)
  }

  lemma WrittenNothing(arguments: seq<seq<u16>>)
    ensures Written(arguments, 0, [])
  {
    assert arguments[0..] == arguments;
    assert [] + Tail(arguments, 0) == Joined(arguments);
  }

  lemma WrittenNext(arguments: seq<seq<u16>>, index: nat, text: seq<u16>)
    requires index < |arguments| && Written(arguments, index, text)
    ensures Written(arguments, index + 1, (if index == 0 then text else text + [SPACE]) + Quoted(arguments[index]))
  {
    TailStep(arguments, index, text);
    assert text + [] == text;
  }

  // The argument rules.

  /**
   Reads one argument: its text and what follows it, `pending` backslashes having been seen and not
   yet resolved. Implementations differ on whether a doubled mark inside quotes ends them;
   `doubledStays` selects, and everything proved holds for both.
   */
  function Scan(s: seq<u16>, quoted: bool, pending: nat, text: seq<u16>, doubledStays: bool): (r: (seq<u16>, seq<u16>))
    ensures |r.1| <= |s| && (s != [] ==> |r.1| < |s|)
    decreases |s|
  {
    if s == [] then (text + Slashes(pending), [])
    else if s[0] == SLASH then Scan(s[1..], quoted, pending + 1, text, doubledStays)
    else if s[0] == QUOTE then
      var read := text + Slashes(pending / 2);
      if pending % 2 == 1 then Scan(s[1..], quoted, 0, read + [QUOTE], doubledStays)
      else if quoted && |s| > 1 && s[1] == QUOTE then Scan(s[2..], doubledStays, 0, read + [QUOTE], doubledStays)
      else Scan(s[1..], !quoted, 0, read, doubledStays)
    else if !quoted && IsBlank(s[0]) then (text + Slashes(pending), s[1..])
    else Scan(s[1..], quoted, 0, text + Slashes(pending) + [s[0]], doubledStays)
  }

  function Parse(s: seq<u16>, doubledStays: bool): seq<seq<u16>>
    decreases |s|
  {
    if s == [] then []
    else if IsBlank(s[0]) then Parse(s[1..], doubledStays)
    else
      var (argument, rest) := Scan(s, false, 0, [], doubledStays);
      [argument] + Parse(rest, doubledStays)
  }

  // The round trip.

  /** An argument ends at the end of the line or at a blank. */
  predicate Ends(rest: seq<u16>) {
    rest == [] || IsBlank(rest[0])
  }

  function AfterEnd(rest: seq<u16>): seq<u16> {
    if rest == [] then [] else rest[1..]
  }

  lemma {:induction false} ScanRun(n: nat, t: seq<u16>, quoted: bool, pending: nat, text: seq<u16>, doubledStays: bool)
    ensures Scan(Slashes(n) + t, quoted, pending, text, doubledStays) == Scan(t, quoted, pending + n, text, doubledStays)
  {
    if n == 0 {
      assert Slashes(n) + t == t;
    } else {
      assert (Slashes(n) + t)[1..] == Slashes(n - 1) + t;
      ScanRun(n - 1, t, quoted, pending + 1, text, doubledStays);
    }
  }

  /** The closing mark, doubled backslashes before it, gives the pending backslashes back. */
  lemma ScanClose(pending: nat, text: seq<u16>, rest: seq<u16>, doubledStays: bool)
    requires Ends(rest)
    ensures Scan(Slashes(2 * pending) + ([QUOTE] + rest), true, 0, text, doubledStays) == (text + Slashes(pending), AfterEnd(rest))
  {
    var t := [QUOTE] + rest;
    ScanRun(2 * pending, t, true, 0, text, doubledStays);
    assert t[1..] == rest;
    assert Scan(t, true, 2 * pending, text, doubledStays) == Scan(rest, false, 0, text + Slashes(pending), doubledStays);
    assert text + Slashes(pending) + Slashes(0) == text + Slashes(pending);
  }

  lemma ScanMark(pending: nat, t: seq<u16>, text: seq<u16>, doubledStays: bool)
    ensures Scan(Slashes(2 * pending + 1) + ([QUOTE] + t), true, 0, text, doubledStays)
         == Scan(t, true, 0, text + Slashes(pending) + [QUOTE], doubledStays)
  {
    ScanRun(2 * pending + 1, [QUOTE] + t, true, 0, text, doubledStays);
    assert ([QUOTE] + t)[1..] == t && (2 * pending + 1) / 2 == pending;
  }

  lemma ScanPlain(pending: nat, c: u16, t: seq<u16>, text: seq<u16>, doubledStays: bool)
    requires c != SLASH && c != QUOTE
    ensures Scan(Slashes(pending) + ([c] + t), true, 0, text, doubledStays)
         == Scan(t, true, 0, text + Slashes(pending) + [c], doubledStays)
  {
    ScanRun(pending, [c] + t, true, 0, text, doubledStays);
    assert ([c] + t)[1..] == t;
  }

  /** A character that is no backslash, and the backslashes held back before it. */
  lemma ScanOne(pending: nat, c: u16, t: seq<u16>, text: seq<u16>, doubledStays: bool)
    requires c != SLASH
    ensures Scan((if c == QUOTE then Slashes(2 * pending + 1) + [QUOTE] else Slashes(pending) + [c]) + t, true, 0, text, doubledStays)
         == Scan(t, true, 0, text + Slashes(pending) + [c], doubledStays)
  {
    if c == QUOTE {
      assert Slashes(2 * pending + 1) + [QUOTE] + t == Slashes(2 * pending + 1) + ([c] + t);
      ScanMark(pending, t, text, doubledStays);
    } else {
      assert Slashes(pending) + [c] + t == Slashes(pending) + ([c] + t);
      ScanPlain(pending, c, t, text, doubledStays);
    }
  }

  lemma EscapeOne(value: seq<u16>, pending: nat, rest: seq<u16>)
    requires value != [] && value[0] != SLASH
    ensures Escape(value, pending) + rest
         == (if value[0] == QUOTE then Slashes(2 * pending + 1) + [QUOTE] else Slashes(pending) + [value[0]]) + (Escape(value[1..], 0) + rest)
  {
  }

  lemma TextOne(text: seq<u16>, pending: nat, value: seq<u16>)
    requires value != []
    ensures text + Slashes(pending) + [value[0]] + Slashes(0) + value[1..] == text + Slashes(pending) + value
    ensures value[0] == SLASH ==> text + Slashes(pending + 1) + value[1..] == text + Slashes(pending) + value
  {
    assert value == [value[0]] + value[1..];
    assert value[0] == SLASH ==> Slashes(pending + 1) == Slashes(pending) + [value[0]];
  }

  lemma {:induction false} ScanEscaped(value: seq<u16>, pending: nat, text: seq<u16>, rest: seq<u16>, doubledStays: bool)
    requires Ends(rest)
    ensures Scan(Escape(value, pending) + rest, true, 0, text, doubledStays) == (text + Slashes(pending) + value, AfterEnd(rest))
    decreases |value|
  {
    if value == [] {
      assert Escape(value, pending) + rest == Slashes(2 * pending) + ([QUOTE] + rest);
      ScanClose(pending, text, rest, doubledStays);
      assert text + Slashes(pending) + value == text + Slashes(pending);
    } else {
      TextOne(text, pending, value);
      if value[0] == SLASH {
        ScanEscaped(value[1..], pending + 1, text, rest, doubledStays);
      } else {
        EscapeOne(value, pending, rest);
        ScanOne(pending, value[0], Escape(value[1..], 0) + rest, text, doubledStays);
        ScanEscaped(value[1..], 0, text + Slashes(pending) + [value[0]], rest, doubledStays);
      }
    }
  }

  /** Bare text stands for itself, backslashes included. */
  lemma {:induction false} ScanBare(value: seq<u16>, pending: nat, text: seq<u16>, rest: seq<u16>, doubledStays: bool)
    requires Ends(rest) && forall c :: c in value ==> !IsBlank(c) && c != QUOTE
    ensures Scan(value + rest, false, pending, text, doubledStays) == (text + Slashes(pending) + value, AfterEnd(rest))
    decreases |value|
  {
    if value == [] {
      assert value + rest == rest && text + Slashes(pending) + value == text + Slashes(pending);
    } else {
      assert value[0] in value && (value + rest)[1..] == value[1..] + rest;
      if value[0] == SLASH {
        ScanBare(value[1..], pending + 1, text, rest, doubledStays);
        assert text + Slashes(pending + 1) + value[1..] == text + Slashes(pending) + value;
      } else {
        ScanBare(value[1..], 0, text + Slashes(pending) + [value[0]], rest, doubledStays);
        assert text + Slashes(pending) + [value[0]] + Slashes(0) + value[1..] == text + Slashes(pending) + value;
      }
    }
  }

  lemma ScanOpened(value: seq<u16>, rest: seq<u16>, doubledStays: bool)
    requires Ends(rest)
    ensures Scan([QUOTE] + Escape(value, 0) + rest, false, 0, [], doubledStays) == (value, AfterEnd(rest))
  {
    var s, t := [QUOTE] + Escape(value, 0) + rest, Escape(value, 0) + rest;
    assert s[1..] == t && s[0] == QUOTE;
    assert [] + Slashes(0) == [];
    assert Scan(s, false, 0, [], doubledStays) == Scan(t, true, 0, [], doubledStays);
    ScanEscaped(value, 0, [], rest, doubledStays);
    assert [] + Slashes(0) + value == value;
  }

  /** The quoted form of one argument is read back as that argument. */
  lemma ScanQuoted(value: seq<u16>, rest: seq<u16>, doubledStays: bool)
    requires Ends(rest)
    ensures Scan(Quoted(value) + rest, false, 0, [], doubledStays) == (value, AfterEnd(rest))
    ensures Quoted(value) != [] && !IsBlank(Quoted(value)[0])
  {
    if NeedsQuotes(value) {
      ScanOpened(value, rest, doubledStays);
    } else {
      ScanBare(value, 0, [], rest, doubledStays);
      assert value[0] in value;
      assert [] + Slashes(0) + value == value;
    }
  }

  /** Parsing the command line of a list of arguments gives back the list. */
  lemma {:induction false} ParseJoined(arguments: seq<seq<u16>>, doubledStays: bool)
    ensures Parse(Joined(arguments), doubledStays) == arguments
    decreases |arguments|
  {
    if |arguments| == 1 {
      ScanQuoted(arguments[0], [], doubledStays);
      assert Quoted(arguments[0]) + [] == Quoted(arguments[0]);
    } else if |arguments| > 1 {
      var rest := [SPACE] + Joined(arguments[1..]);
      assert Joined(arguments) == Quoted(arguments[0]) + rest;
      ScanQuoted(arguments[0], rest, doubledStays);
      assert rest[1..] == Joined(arguments[1..]);
      ParseJoined(arguments[1..], doubledStays);
      assert [arguments[0]] + arguments[1..] == arguments;
    }
  }
}
