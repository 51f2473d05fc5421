/** What the text primitives mean, character by character and without their recursion. */
module TextLaws {
  import opened Std
  import opened Text
  import opened Selectors

  // Case.

  /** The same character, or an ASCII letter in its two cases. */
  predicate SameLetter(c: char, d: char) {
    || c == d
    || ('A' <= c <= 'Z' && d as int == c as int + 32)
    || ('A' <= d <= 'Z' && c as int == d as int + 32)
  }

  lemma SameIgnoringCaseIff(a: string, b: string)
    ensures SameIgnoringCase(a, b) <==> |a| == |b| && forall i :: 0 <= i < |a| ==> SameLetter(a[i], b[i])
  {
    if SameIgnoringCase(a, b) {
      forall i | 0 <= i < |a|
        ensures SameLetter(a[i], b[i])
      {
        assert Fold(a)[i] == Fold(b)[i];
      }
    } else if |a| == |b| {
      var i :| 0 <= i < |a| && Fold(a)[i] != Fold(b)[i];
      assert !SameLetter(a[i], b[i]);
    }
  }

  /** White space is exactly these characters. */
  lemma WhitespaceIff(c: char)
    ensures IsWhitespace(c) <==> c as int in {
      0x9, 0xA, 0xB, 0xC, 0xD, 0x20, 0x85, 0xA0, 0x1680, 0x2000, 0x2001, 0x2002, 0x2003, 0x2004, 0x2005, 0x2006, 0x2007, 0x2008,
      0x2009, 0x200A, 0x2028, 0x2029, 0x202F, 0x205F, 0x3000}
  {
  }

  lemma DigitIff(c: char)
    ensures IsHexDigit(c) <==> c in "0123456789abcdefABCDEF"
    ensures IsDigit(c) <==> c in "0123456789"
    ensures IsLetter(c) <==> 65 <= c as int <= 90 || 97 <= c as int <= 122
  {
  }

  /** A text ends with another when it is something and then that. */
  lemma EndsWithIff(s: string, suffix: string)
    ensures EndsWith(s, suffix) <==> exists head :: s == head + suffix
  {
    if EndsWith(s, suffix) {
      assert s == s[..|s| - |suffix|] + suffix;
    }
  }

  // Lengths.

  lemma {:induction false} Utf8Sum(a: string, b: string)
    ensures Utf8Length(a + b) == Utf8Length(a) + Utf8Length(b)
    decreases |a|
  {
    if a == "" {
      assert a + b == b;
    } else {
      assert (a + b)[1..] == a[1..] + b;
      Utf8Sum(a[1..], b);
    }
  }

  /** One byte for ASCII, two up to U+07FF, three up to U+FFFF and four above. */
  lemma Utf8One(c: char)
    ensures Utf8Length([c]) == if c as int <= 0x7F then 1 else if c as int <= 0x7FF then 2 else if c as int <= 0xFFFF then 3 else 4
  {
    assert [c][1..] == "";
  }

  // Filtering and trimming.

  /** Filtering goes through a text from left to right. */
  lemma {:induction false} FilterSum(a: string, b: string, dropped: set<char>)
    ensures Filter(a + b, dropped) == Filter(a, dropped) + Filter(b, dropped)
    decreases |a|
  {
    if a == "" {
      assert a + b == b;
    } else {
      assert (a + b)[1..] == a[1..] + b;
      FilterSum(a[1..], b, dropped);
    }
  }

  lemma FilterOne(c: char, dropped: set<char>)
    ensures Filter([c], dropped) == if c in dropped then "" else [c]
  {
    assert [c][1..] == "";
  }

  /** What is trimmed is a run at each end, and as much as there is. */
  lemma {:induction false} TrimEndMeans(s: string, chars: set<char>)
    ensures var r := TrimEnd(s, chars);
      && IsPrefix(r, s) && (r != "" ==> r[|r| - 1] !in chars) && forall i :: |r| <= i < |s| ==> s[i] in chars
    decreases |s|
  {
    if s != "" && s[|s| - 1] in chars {
      TrimEndMeans(s[..|s| - 1], chars);
    }
  }

  lemma {:induction false} TrimStartSkips(s: string, r: string, chars: set<char>, n: nat)
    requires r == TrimStart(s, chars) && n <= |s| && forall i :: 0 <= i < n ==> s[i] in chars
    ensures |r| <= |s| - n && s == s[..|s| - |r|] + r && forall c :: c in s[..|s| - |r|] ==> c in chars
  {
    var k := |s| - |r|;
    assert r == s[k..];
    assert r != "" ==> r[0] == s[k];
  }

  lemma {:induction false} TrimStartRun(run: string, rest: string, chars: set<char>)
    requires (forall c :: c in run ==> c in chars) && (rest == "" || rest[0] !in chars)
    ensures TrimStart(run + rest, chars) == rest
    decreases |run|
  {
    if run == "" {
      assert run + rest == rest;
    } else {
      assert run[0] in run && (run + rest)[1..] == run[1..] + rest;
      TrimStartRun(run[1..], rest, chars);
    }
  }

  lemma {:induction false} TrimEndRun(rest: string, run: string, chars: set<char>)
    requires (forall c :: c in run ==> c in chars) && (rest == "" || rest[|rest| - 1] !in chars)
    ensures TrimEnd(rest + run, chars) == rest
    decreases |run|
  {
    if run == "" {
      assert rest + run == rest;
    } else {
      var n := |run| - 1;
      assert run[n] in run && (rest + run)[..|rest + run| - 1] == rest + run[..n];
      TrimEndRun(rest, run[..n], chars);
    }
  }

  predicate AllBraces(s: string) {
    forall c :: c in s ==> c == '{' || c == '}'
  }

  lemma BracesTrimmed(open: string, guid: string, close: string)
    requires AllBraces(open) && AllBraces(close)
    requires guid != "" && guid[0] !in {'{', '}'} && guid[|guid| - 1] !in {'{', '}'}
    ensures TrimMatches(open + (guid + close), {'{', '}'}) == guid
  {
    TrimStartRun(open, guid + close, {'{', '}'});
    TrimEndRun(guid, close, {'{', '}'});
  }

  /** Braces around a GUID do not matter, nor does case. */
  lemma BracesIgnored(open: string, guid: string, close: string)
    requires AllBraces(open) && AllBraces(close)
    requires guid != "" && guid[0] !in {'{', '}'} && guid[|guid| - 1] !in {'{', '}'}
    ensures CanonicalGuid(open + guid + close) == Fold(guid)
  {
    assert open + guid + close == open + (guid + close);
    BracesTrimmed(open, guid, close);
  }

  // Hardware addresses.

  /** The digits of an address, without its separators. */
  function Digits(mac: string): string {
    Filter(mac, {':', '-'})
  }

  /** Two ways to write an address are the same address when their digits agree but for case. */
  lemma SameMacIff(a: string, b: string)
    ensures CanonicalMac(a) == CanonicalMac(b) <==> SameIgnoringCase(Digits(a), Digits(b))
  {
    var m, n, x, y := CanonicalMac(a), CanonicalMac(b), Digits(a), Digits(b);
    SameIgnoringCaseIff(x, y);
    assert |m| == |x| && |n| == |y|;
    if |x| == |y| {
      assert forall i :: 0 <= i < |x| ==> (m[i] == n[i] <==> SameLetter(x[i], y[i]));
      assert m == n <==> forall i :: 0 <= i < |x| ==> m[i] == n[i];
    }
  }

  /** The canonical form has capital letters and the digits in their order. */
  lemma CanonicalMacMeans(mac: string)
    ensures var m, d := CanonicalMac(mac), Digits(mac);
      |m| == |d| && forall i :: 0 <= i < |d| ==> SameLetter(m[i], d[i]) && !('a' <= m[i] <= 'z')
  {
  }

  // Pieces.

  /** The pieces joined again give the text back; with no separator in a piece, that leaves no freedom. */
  lemma {:induction false} JoinSplit(s: string, separator: char)
    ensures Join(Split(s, separator), [separator]) == s
    decreases |s|
  {
    if s != "" {
      var rest := Split(s[1..], separator);
      JoinSplit(s[1..], separator);
      if s[0] == separator {
        assert ([""] + rest)[1..] == rest;
        assert Join([""] + rest, [separator]) == [separator] + Join(rest, [separator]);
      } else {
        var pieces := [[s[0]] + rest[0]] + rest[1..];
        assert pieces[1..] == rest[1..];
        assert Join(pieces, [separator]) == [s[0]] + Join(rest, [separator]);
      }
    }
  }

  lemma {:induction false} SplitPrefix(piece: string, rest: string, separator: char)
    requires separator !in piece
    ensures Split(piece + [separator] + rest, separator) == [piece] + Split(rest, separator)
    decreases |piece|
  {
    var s := piece + [separator] + rest;
    if piece == "" {
      assert s[1..] == rest;
    } else {
      assert piece[0] in piece && forall c :: c in piece[1..] ==> c in piece;
      assert s[1..] == piece[1..] + [separator] + rest;
      SplitPrefix(piece[1..], rest, separator);
      assert [piece[0]] + piece[1..] == piece;
    }
  }

  lemma {:induction false} SplitWhole(piece: string, separator: char)
    requires separator !in piece
    ensures Split(piece, separator) == [piece]
    decreases |piece|
  {
    if piece != "" {
      assert piece[0] in piece && forall c :: c in piece[1..] ==> c in piece;
      SplitWhole(piece[1..], separator);
      assert [piece[0]] + piece[1..] == piece;
    }
  }

  lemma {:induction false} SplitJoin(pieces: seq<string>, separator: char)
    requires pieces != [] && forall p :: p in pieces ==> separator !in p
    ensures Split(Join(pieces, [separator]), separator) == pieces
    decreases |pieces|
  {
    if |pieces| == 1 {
      SplitWhole(pieces[0], separator);
    } else {
      SplitPrefix(pieces[0], Join(pieces[1..], [separator]), separator);
      SplitJoin(pieces[1..], separator);
    }
  }

  // Numbers.

  function Digit(c: char): int {
    c as int - '0' as int
  }

  /** The number a decimal text stands for. */
  function Value(s: string): int {
    if s == "" then 0 else 10 * Value(s[..|s| - 1]) + Digit(s[|s| - 1])
  }

  /** A printed number reads as that number, and begins with a zero only if it is zero. */
  lemma {:induction false} DecimalReads(n: nat)
    ensures Value(Decimal(n)) == n && (Decimal(n)[0] == '0' <==> n == 0) && (n < 10 <==> |Decimal(n)| == 1)
  {
    var d := Decimal(n);
    if n < 10 {
      assert d[..0] == "";
    } else {
      DecimalReads(n / 10);
      assert d[..|d| - 1] == Decimal(n / 10);
    }
  }
}
