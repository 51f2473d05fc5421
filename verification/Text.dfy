/**
 Text primitives the configuration and selector code relies on. A `string` is a sequence of
 Unicode scalar values; `Utf8Length` gives the byte length in UTF-8.
 */
module Text {
  import opened Std

  function LowerChar(c: char): char {
    if 'A' <= c <= 'Z' then (c as int + 32) as char else c
  }

  function UpperChar(c: char): char {
    if 'a' <= c <= 'z' then (c as int - 32) as char else c
  }

  /** ASCII case folding: two strings are equal ignoring ASCII case when their folds agree. */
  function Fold(s: string): (r: string)
    ensures |r| == |s|
  {
    seq(|s|, i requires 0 <= i < |s| => LowerChar(s[i]))
  }

  predicate SameIgnoringCase(a: string, b: string) {
    Fold(a) == Fold(b)
  }

  /** The Unicode White_Space property. */
  predicate IsWhitespace(c: char) {
    var n := c as int;
    9 <= n <= 13 || n == 0x20 || n == 0x85 || n == 0xA0 || n == 0x1680 || 0x2000 <= n <= 0x200A
    || n == 0x2028 || n == 0x2029 || n == 0x202F || n == 0x205F || n == 0x3000
  }

  /** A string that is empty after trimming. */
  predicate Blank(s: string) {
    forall c :: c in s ==> IsWhitespace(c)
  }

  function Utf8Width(c: char): nat {
    var n := c as int;
    if n < 0x80 then 1 else if n < 0x800 then 2 else if n < 0x1_0000 then 3 else 4
  }

  function Utf8Length(s: string): nat {
    if s == [] then 0 else Utf8Width(s[0]) + Utf8Length(s[1..])
  }

  predicate IsDigit(c: char) {
    '0' <= c <= '9'
  }

  predicate IsLetter(c: char) {
    'a' <= c <= 'z' || 'A' <= c <= 'Z'
  }

  predicate IsHexDigit(c: char) {
    IsDigit(c) || 'a' <= c <= 'f' || 'A' <= c <= 'F'
  }

  predicate ContainsAny(s: string, chars: set<char>) {
    exists c :: c in s && c in chars
  }

  predicate EndsWith(s: string, suffix: string) {
    |suffix| <= |s| && s[|s| - |suffix|..] == suffix
  }

  /** Removes every leading occurrence of a character of `chars`. */
  function TrimStart(s: string, chars: set<char>): (r: string)
    ensures r != [] ==> r[0] !in chars
    ensures |r| <= |s| && r == s[|s| - |r|..]
    ensures forall i :: 0 <= i < |s| - |r| ==> s[i] in chars
  {
    if s != [] && s[0] in chars then TrimStart(s[1..], chars) else s
  }

  function TrimEnd(s: string, chars: set<char>): string {
    if s != [] && s[|s| - 1] in chars then TrimEnd(s[..|s| - 1], chars) else s
  }

  function TrimMatches(s: string, chars: set<char>): string {
    TrimEnd(TrimStart(s, chars), chars)
  }

  /** The pieces of `s` between separators; always at least one piece. */
  function Split(s: string, separator: char): (pieces: seq<string>)
    ensures |pieces| >= 1
    ensures forall p, c :: p in pieces && c in p ==> c != separator && c in s
  {
    if s == [] then [""]
    else
      var rest := Split(s[1..], separator);
      if s[0] == separator then [""] + rest else [[s[0]] + rest[0]] + rest[1..]
  }

  function Join(pieces: seq<string>, separator: string): string {
    if pieces == [] then ""
    else if |pieces| == 1 then pieces[0]
    else pieces[0] + separator + Join(pieces[1..], separator)
  }

  /** A finished word or line; nothing when there is no text. */
  function Flush(text: string): seq<string> {
    if text == "" then [] else [text]
  }

  function Filter(s: string, dropped: set<char>): (r: string)
    ensures forall c :: c in r <==> c in s && c !in dropped
  {
    if s == [] then ""
    else if s[0] in dropped then Filter(s[1..], dropped)
    else [s[0]] + Filter(s[1..], dropped)
  }

  /** Decimal printing, as used for the indexes in operation identifiers. */
  function Decimal(n: nat): (r: string)
    ensures r != "" && forall c :: c in r ==> IsDigit(c)
  {
    var digit := ('0' as int + n % 10) as char;
    if n < 10 then [digit] else Decimal(n / 10) + [digit]
  }

  lemma {:induction false} DecimalInjective(m: nat, n: nat)
    requires Decimal(m) == Decimal(n)
    ensures m == n
  {
    var dm, dn := Decimal(m), Decimal(n);
    assert dm[|dm| - 1] == dn[|dn| - 1];
    assert m % 10 == n % 10;
    assert dm[..|dm| - 1] == dn[..|dn| - 1];
    if m >= 10 && n >= 10 {
      assert dm[..|dm| - 1] == Decimal(m / 10);
      assert dn[..|dn| - 1] == Decimal(n / 10);
      DecimalInjective(m / 10, n / 10);
    }
  }
}
