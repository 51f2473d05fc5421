/**
 The interactive shell's command-line splitter: a three-state quote automaton with one character of
 look-ahead after a backslash.
 */
module Tokenizer {
  import opened Std
  import opened Text

  datatype Quote = Unquoted | Single | Double

  const BYTE_ORDER_MARK: char := '\U{FEFF}'

  /** Whether a backslash followed by `next` stands for `next` alone. */
  predicate Escapes(quote: Quote, next: char) {
    next == '\\'
    || (quote == Double && next == '"')
    || (quote == Unquoted && (next == '\'' || next == '"' || IsWhitespace(next)))
  }

  function StripMark(line: string): string {
    if line != "" && line[0] == BYTE_ORDER_MARK then line[1..] else line
  }

  /** Whether `s` starts with an escape pair. */
  predicate StartsEscape(s: string, quote: Quote) {
    |s| > 1 && s[0] == '\\' && quote != Single && Escapes(quote, s[1])
  }

  /** The quote state after a character that starts no escape pair. */
  function Step(quote: Quote, c: char): Quote {
    match (quote, c)
    case (Unquoted, '\'') => Single
    case (Unquoted, '"') => Double
    case (Single, '\'') => Unquoted
    case (Double, '"') => Unquoted
    case _ => quote
  }

  /** The quote state the automaton ends in, whatever words it collects. */
  function EndState(s: string, quote: Quote): Quote
    decreases |s|
  {
    if s == "" then quote
    else if StartsEscape(s, quote) then EndState(s[2..], quote)
    else EndState(s[1..], Step(quote, s[0]))
  }

  /** The words of `s` read from state `quote` with `word` already collected; none when a quote stays open. */
  function Words(s: string, quote: Quote, word: string): (r: Option<seq<string>>)
    ensures r.None? <==> EndState(s, quote) != Unquoted
    ensures r.Some? ==> "" !in r.value
    decreases |s|
  {
    if s == "" then
      if quote == Unquoted then Some(Flush(word)) else None
    else if StartsEscape(s, quote) then
      Words(s[2..], quote, word + [s[1]])
    else if Step(quote, s[0]) != quote then
      Words(s[1..], Step(quote, s[0]), word)
    else if quote == Unquoted && IsWhitespace(s[0]) then
      Prepend(Flush(word), Words(s[1..], Unquoted, ""))
    else
      Words(s[1..], quote, word + [s[0]])
  }

  function Prepend(words: seq<string>, r: Option<seq<string>>): Option<seq<string>> {
    if r.None? then None else Some(words + r.value)
  }

  lemma PrependTwice(a: seq<string>, b: seq<string>, r: Option<seq<string>>)
    ensures Prepend(a, Prepend(b, r)) == Prepend(a + b, r)
    ensures a + [] == a && Prepend([], r) == r
  {
    assert r.Some? ==> [] + r.value == r.value;
    if r.Some? {
      assert a + (b + r.value) == a + b + r.value;
    }
  }

  /** `None` stands for the error "unterminated quoted argument". */
  method SplitCommandLine(input: string) returns (result: Option<seq<string>>)
    ensures result == Words(StripMark(input), Unquoted, "")
    ensures result.None? <==> EndState(StripMark(input), Unquoted) != Unquoted
    ensures result.Some? ==> "" !in result.value
  {
    var line := StripMark(input);
    var words: seq<string> := [];
    var word := "";
    var quote := Unquoted;
    var k := 0;
    assert line[0..] == line;
    PrependTwice([], [], Words(line, Unquoted, ""));
    while k < |line|
      invariant 0 <= k <= |line|
      invariant Words(line, Unquoted, "") == Prepend(words, Words(line[k..], quote, word))
    {
      var character := line[k];
      ghost var rest := line[k..];
      assert rest[0] == character && rest[1..] == line[k + 1..];
      k := k + 1;
      if quote == Unquoted && character == '\'' {
        quote := Single;
      } else if quote == Unquoted && character == '"' {
        quote := Double;
      } else if (quote == Single && character == '\'') || (quote == Double && character == '"') {
        quote := Unquoted;
      } else if quote == Unquoted && IsWhitespace(character) {
        PrependTwice(words, Flush(word), Words(line[k..], Unquoted, ""));
        if word != "" {
          words := words + [word];
          word := "";
        }
      } else if quote == Single {
        word := word + [character];
      } else if character == '\\' {
        if k < |line| && Escapes(quote, line[k]) {
          assert rest[1] == line[k] && rest[2..] == line[k + 1..];
          word := word + [line[k]];
          k := k + 1;
        } else {
          word := word + ['\\'];
        }
      } else {
        word := word + [character];
      }
    }
    assert words + Flush(word) == if word == "" then words else words + [word];
    if quote != Unquoted {
      return None;
    }
    if word != "" {
      words := words + [word];
    }
    return Some(words);
  }

  // The round trip.

  /** `word` with backslashes and double quotes escaped. */
  function Escaped(word: string): string {
    if word == "" then ""
    else if word[0] == '\\' || word[0] == '"' then ['\\', word[0]] + Escaped(word[1..])
    else [word[0]] + Escaped(word[1..])
  }

  function InQuotes(word: string): string {
    "\"" + Escaped(word) + "\""
  }

  function Rendered(words: seq<string>): seq<string> {
    seq(|words|, i requires 0 <= i < |words| => InQuotes(words[i]))
  }

  function NonEmpty(words: seq<string>): seq<string> {
    if words == [] then [] else Flush(words[0]) + NonEmpty(words[1..])
  }

  lemma {:induction false} ReadEscaped(text: string, rest: string, word: string)
    ensures Words(Escaped(text) + "\"" + rest, Double, word) == Words(rest, Unquoted, word + text)
    decreases |text|
  {
    var s := Escaped(text) + "\"" + rest;
    if text == "" {
      assert s[0] == '"' && s[1..] == rest && word + text == word;
    } else {
      var tail := Escaped(text[1..]) + "\"" + rest;
      if text[0] == '\\' || text[0] == '"' {
        assert s[0] == '\\' && s[1] == text[0] && s[2..] == tail;
      } else {
        assert s[0] == text[0] && s[1..] == tail;
      }
      ReadEscaped(text[1..], rest, word + [text[0]]);
      assert word + [text[0]] + text[1..] == word + text;
    }
  }

  lemma ReadQuoted(text: string, rest: string)
    ensures Words(InQuotes(text) + rest, Unquoted, "") == Words(rest, Unquoted, text)
  {
    var s := InQuotes(text) + rest;
    assert s[1..] == Escaped(text) + "\"" + rest;
    ReadEscaped(text, rest, "");
    assert "" + text == text;
  }

  lemma {:induction false} ReadRendered(words: seq<string>)
    ensures Words(Join(Rendered(words), " "), Unquoted, "") == Some(NonEmpty(words))
    decreases |words|
  {
    if words != [] {
      var line := Join(Rendered(words), " ");
      assert Rendered(words)[1..] == Rendered(words[1..]);
      if |words| == 1 {
        ReadQuoted(words[0], "");
        assert line == InQuotes(words[0]) + "" && words[1..] == [];
        assert NonEmpty(words) == Flush(words[0]);
      } else {
        var rest := " " + Join(Rendered(words[1..]), " ");
        assert line == InQuotes(words[0]) + rest;
        ReadQuoted(words[0], rest);
        assert rest[1..] == Join(Rendered(words[1..]), " ");
        ReadRendered(words[1..]);
      }
    }
  }

  /** Quoting every word, joining with spaces and splitting gives back the words that have text. */
  lemma SplitRendered(words: seq<string>)
    ensures Words(StripMark(Join(Rendered(words), " ")), Unquoted, "") == Some(NonEmpty(words))
    ensures "" !in words ==> NonEmpty(words) == words
  {
    ReadRendered(words);
    if "" !in words {
      NonEmptyIdentity(words);
    }
    var line := Join(Rendered(words), " ");
    assert words != [] ==> line[0] == '"';
  }

  lemma {:induction false} NonEmptyIdentity(words: seq<string>)
    requires "" !in words
    ensures NonEmpty(words) == words
  {
    if words != [] {
      assert words[0] in words;
      NonEmptyIdentity(words[1..]);
    }
  }

  // Lines put side by side.

  /** Whether `s` ends in a backslash that is still looking at what follows it. */
  predicate Dangling(s: string, quote: Quote)
    decreases |s|
  {
    if s == "" then false
    else if StartsEscape(s, quote) then Dangling(s[2..], quote)
    else (s == "\\" && quote != Single) || Dangling(s[1..], Step(quote, s[0]))
  }

  /** Text after a blank is split on its own, unless a quote is open or a backslash takes the blank. */
  lemma {:induction false} SplitSum(s: string, quote: Quote, word: string, blank: char, t: string)
    requires IsWhitespace(blank)
    requires !Dangling(s, quote) && EndState(s, quote) == Unquoted
    ensures Words(s + [blank] + t, quote, word) == Prepend(Words(s, quote, word).value, Words(t, Unquoted, ""))
    decreases |s|
  {
    var whole := s + [blank] + t;
    if s == "" {
      assert whole[1..] == t;
    } else {
      var c := s[0];
      assert whole[0] == c && whole[1..] == s[1..] + [blank] + t;
      assert |s| > 1 ==> whole[1] == s[1];
      if StartsEscape(s, quote) {
        assert whole[2..] == s[2..] + [blank] + t;
        SplitSum(s[2..], quote, word + [s[1]], blank, t);
      } else if Step(quote, c) != quote {
        SplitSum(s[1..], Step(quote, c), word, blank, t);
      } else if quote == Unquoted && IsWhitespace(c) {
        SplitSum(s[1..], Unquoted, "", blank, t);
        PrependTwice(Flush(word), Words(s[1..], Unquoted, "").value, Words(t, Unquoted, ""));
      } else {
        SplitSum(s[1..], quote, word + [c], blank, t);
      }
    }
  }

  // Plain, quoted and escaped text.

  /** A character with no meaning of its own outside quotes. */
  predicate Bare(c: char) {
    c != '\'' && c != '"' && !IsWhitespace(c)
  }

  /** No blank, no quotation mark, and no backslash before a backslash. */
  predicate PlainText(text: string) {
    && (forall i :: 0 <= i < |text| ==> Bare(text[i]))
    && forall i :: 0 <= i < |text| - 1 ==> !(text[i] == '\\' && text[i + 1] == '\\')
  }

  predicate EndsInBackslash(text: string) {
    text != "" && text[|text| - 1] == '\\'
  }

  /** Plain text stands for itself, backslashes included, unless its last one takes what follows. */
  lemma {:induction false} ReadPlain(text: string, rest: string, word: string)
    requires PlainText(text) && (EndsInBackslash(text) && rest != "" ==> Bare(rest[0]) && rest[0] != '\\')
    ensures Words(text + rest, Unquoted, word) == Words(rest, Unquoted, word + text)
    decreases |text|
  {
    var s := text + rest;
    if text == "" {
      assert s == rest && word + text == word;
    } else {
      assert s[0] == text[0] && s[1..] == text[1..] + rest;
      assert |text| > 1 ==> s[1] == text[1];
      assert |text| == 1 && rest != "" ==> s[1] == rest[0];
      ReadPlain(text[1..], rest, word + [text[0]]);
      assert word + [text[0]] + text[1..] == word + text;
    }
  }

  /** Between single quotes everything stands for itself. */
  lemma {:induction false} ReadSingle(text: string, rest: string, word: string)
    requires '\'' !in text
    ensures Words(text + "'" + rest, Single, word) == Words(rest, Unquoted, word + text)
    decreases |text|
  {
    var s := text + "'" + rest;
    if text == "" {
      assert s[0] == '\'' && s[1..] == rest && word + text == word;
    } else {
      assert text[0] in text && forall c :: c in text[1..] ==> c in text;
      assert s[0] == text[0] && s[1..] == text[1..] + "'" + rest;
      ReadSingle(text[1..], rest, word + [text[0]]);
      assert word + [text[0]] + text[1..] == word + text;
    }
  }

  lemma ReadSingleQuoted(text: string, rest: string, word: string)
    requires '\'' !in text
    ensures Words("'" + text + "'" + rest, Unquoted, word) == Words(rest, Unquoted, word + text)
  {
    var s := "'" + text + "'" + rest;
    assert s[0] == '\'' && s[1..] == text + "'" + rest;
    ReadSingle(text, rest, word);
  }

  /**
   A backslash outside single quotes: before a backslash, before the mark that would end the quotes, and
   outside quotes before any mark or blank it gives that character alone; before anything else it stays.
   */
  lemma BackslashMeans(next: char, rest: string, word: string)
    ensures Words(['\\', next] + rest, Double, word)
         == if next == '\\' || next == '"' then Words(rest, Double, word + [next]) else Words([next] + rest, Double, word + "\\")
    ensures Words(['\\', next] + rest, Unquoted, word)
         == if next == '\\' || next == '\'' || next == '"' || IsWhitespace(next) then Words(rest, Unquoted, word + [next])
            else Words([next] + rest, Unquoted, word + "\\")
  {
    var s := ['\\', next] + rest;
    assert s[0] == '\\' && s[1] == next && s[2..] == rest && s[1..] == [next] + rest;
  }

  /** At the end of the line it stays, too. */
  lemma LastBackslash(word: string)
    ensures Words("\\", Unquoted, word) == Some([word + "\\"])
  {
    assert "\\"[1..] == "";
  }

  /** A mark at the start of the line is dropped, once. */
  lemma MarkDropped(line: string)
    ensures StripMark([BYTE_ORDER_MARK] + line) == line && BYTE_ORDER_MARK as int == 0xFEFF
    ensures line == "" || line[0] as int != 0xFEFF ==> StripMark(line) == line
  {
    assert ([BYTE_ORDER_MARK] + line)[1..] == line;
  }

  predicate PlainWords(words: seq<string>) {
    forall k :: 0 <= k < |words| ==> words[k] != "" && PlainText(words[k])
  }

  /** No word but the last ends in a backslash: before a space it would take the space. */
  predicate BlanksFree(words: seq<string>) {
    forall k :: 0 <= k < |words| - 1 ==> !EndsInBackslash(words[k])
  }

  /** Text already collected begins the first word. */
  lemma {:induction false} Collected(s: string, quote: Quote, word: string)
    requires word != "" && Words(s, quote, word).Some?
    ensures var words := Words(s, quote, word).value; words != [] && IsPrefix(word, words[0])
    decreases |s|
  {
    if s != "" {
      if StartsEscape(s, quote) {
        Collected(s[2..], quote, word + [s[1]]);
        assert (word + [s[1]])[..|word|] == word;
      } else if Step(quote, s[0]) != quote {
        Collected(s[1..], Step(quote, s[0]), word);
      } else if quote != Unquoted || !IsWhitespace(s[0]) {
        Collected(s[1..], quote, word + [s[0]]);
        assert (word + [s[0]])[..|word|] == word;
      }
    }
  }

  lemma FirstPlain(first: string, more: seq<string>)
    requires first != "" && PlainText(first) && more != [] && !EndsInBackslash(first)
    ensures Words(Join([first] + more, " "), Unquoted, "") == Prepend([first], Words(Join(more, " "), Unquoted, ""))
  {
    var rest := " " + Join(more, " ");
    assert ([first] + more)[1..] == more;
    assert Join([first] + more, " ") == first + rest;
    ReadPlain(first, rest, "");
    assert "" + first == first && rest[0] == ' ' && rest[1..] == Join(more, " ");
  }

  /** A backslash at the end of a word takes the space after it into the word. */
  lemma SpaceTaken(first: string, more: seq<string>)
    requires first != "" && PlainText(first) && more != [] && EndsInBackslash(first)
    ensures var r := Words(Join([first] + more, " "), Unquoted, ""); r.Some? ==> r.value != [] && r.value[0] != first
  {
    var n := |first| - 1;
    var before, rest := first[..n], Join(more, " ");
    assert ([first] + more)[1..] == more && first == before + "\\";
    assert Join([first] + more, " ") == before + (['\\', ' '] + rest);
    ReadPlain(before, ['\\', ' '] + rest, "");
    BackslashMeans(' ', rest, before);
    assert "" + before == before;
    if Words(rest, Unquoted, before + " ").Some? {
      Collected(rest, Unquoted, before + " ");
      var word := Words(rest, Unquoted, before + " ").value[0];
      assert (before + " ")[n] == ' ' && word[..n + 1][n] == word[n];
    }
  }

  lemma OnePlain(word: string)
    requires word != "" && PlainText(word)
    ensures Words(word, Unquoted, "") == Some([word])
  {
    assert word + "" == word && "" + word == word;
    ReadPlain(word, "", "");
  }

  /** Plain words joined by spaces are split back exactly when none but the last ends in a backslash. */
  lemma {:induction false} SplitPlainIff(words: seq<string>)
    requires PlainWords(words)
    ensures Words(Join(words, " "), Unquoted, "") == Some(words) <==> BlanksFree(words)
    decreases |words|
  {
    if words == [] {
      assert Join(words, " ") == "";
    } else if |words| == 1 {
      OnePlain(words[0]);
      assert words == [words[0]];
    } else {
      var more := words[1..];
      assert words == [words[0]] + more;
      if EndsInBackslash(words[0]) {
        SpaceTaken(words[0], more);
      } else {
        FirstPlain(words[0], more);
        SplitPlainIff(more);
        BlanksFreeRest(words);
        var r := Words(Join(more, " "), Unquoted, "");
        if r.Some? && [words[0]] + r.value == words {
          assert r.value == ([words[0]] + r.value)[1..];
        }
      }
    }
  }

  lemma BlanksFreeRest(words: seq<string>)
    requires |words| > 1
    ensures BlanksFree(words) <==> !EndsInBackslash(words[0]) && BlanksFree(words[1..])
  {
    if BlanksFree(words[1..]) && !EndsInBackslash(words[0]) {
      forall k | 0 <= k < |words| - 1
        ensures !EndsInBackslash(words[k])
      {
        if k > 0 {
          assert words[1..][k - 1] == words[k];
        }
      }
    }
    if BlanksFree(words) {
      forall k | 0 <= k < |words[1..]| - 1
        ensures !EndsInBackslash(words[1..][k])
      {
        assert words[k + 1] == words[1..][k];
      }
    }
  }

  /** A Windows path is read as it is written. */
  lemma PathKept()
    ensures Words(StripMark("apply C:\\net.yaml"), Unquoted, "") == Some(["apply", "C:\\net.yaml"])
  {
    var words := ["apply", "C:\\net.yaml"];
    assert words[1..] == ["C:\\net.yaml"];
    assert Join(words, " ") == "apply C:\\net.yaml";
    SplitPlainIff(words);
  }

  /** But a directory written with its last backslash takes the next word along. */
  lemma DirectoryTakesWord(directory: string, word: string)
    requires PlainText(directory) && !EndsInBackslash(directory) && PlainText(word) && word != ""
    ensures Words(directory + "\\ " + word, Unquoted, "") == Some([directory + " " + word])
  {
    var rest := ['\\', ' '] + word;
    assert directory + "\\ " + word == directory + rest;
    ReadPlain(directory, rest, "");
    assert "" + directory == directory;
    BackslashMeans(' ', word, directory);
    ReadPlain(word, "", directory + " ");
    assert word + "" == word;
  }
}
