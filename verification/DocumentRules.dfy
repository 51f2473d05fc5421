/** What the validator's rules for single values mean, stated without the predicates it evaluates. */
module DocumentRules {
  import opened Std
  import opened Text
  import opened Config
  import opened Validation
  import opened Model
  import opened Selectors
  import TextLaws

  // Names.

  predicate LetterOrDigit(c: char) {
    'a' <= c <= 'z' || 'A' <= c <= 'Z' || '0' <= c <= '9'
  }

  lemma PlainLength(s: string)
    requires forall c :: c in s ==> LetterOrDigit(c) || c == '-'
    ensures Utf8Length(s) == |s|
  {
    assert forall i :: 0 <= i < |s| ==> s[i] in s;
    AsciiLength(s);
  }

  /** Letters, digits and inner hyphens. */
  predicate IsLabel(s: string) {
    s != "" && forall i :: 0 <= i < |s| ==> LetterOrDigit(s[i]) || (s[i] == '-' && 0 < i < |s| - 1)
  }

  lemma LabelIff(s: string)
    requires s != ""
    ensures IsLabelText(s) && s[0] != '-' && s[|s| - 1] != '-' <==> IsLabel(s)
  {
    assert forall i :: 0 <= i < |s| ==> s[i] in s;
    if IsLabel(s) {
      assert LetterOrDigit(s[0]) && LetterOrDigit(s[|s| - 1]);
      forall c | c in s
        ensures IsAlphanumeric(c) || c == '-'
      {
        var i :| 0 <= i < |s| && s[i] == c;
      }
    }
  }

  /** One to fifteen letters, digits and inner hyphens, not only digits. */
  lemma ComputerNameIff(name: string)
    ensures ComputerNameValid(name) <==> |name| <= 15 && IsLabel(name) && exists i :: 0 <= i < |name| && !('0' <= name[i] <= '9')
  {
    if name != "" {
      LabelIff(name);
      if IsLabelText(name) {
        PlainLength(name);
      }
      if exists c :: c in name && !IsDigit(c) {
        var c :| c in name && !IsDigit(c);
        var i :| 0 <= i < |name| && name[i] == c;
        assert !('0' <= name[i] <= '9');
      }
      if exists i :: 0 <= i < |name| && !('0' <= name[i] <= '9') {
        var i :| 0 <= i < |name| && !('0' <= name[i] <= '9');
        assert name[i] in name && !IsDigit(name[i]);
      }
    }
  }

  lemma LabelLengthIff(s: string)
    ensures DnsLabelValid(s) <==> |s| <= 63 && IsLabel(s)
  {
    if s != "" {
      LabelIff(s);
      if IsLabelText(s) {
        PlainLength(s);
      }
    }
  }

  predicate AreLabels(labels: seq<string>) {
    labels != [] && forall l :: l in labels ==> |l| <= 63 && IsLabel(l)
  }

  lemma LabelHasNoDot(l: string)
    requires IsLabel(l)
    ensures '.' !in l
  {
  }

  /** Labels of at most 63 characters, joined by dots, at most 255 in all. */
  lemma DnsNameIff(name: string)
    ensures DnsNameValid(name) <==> Utf8Length(name) <= 255 && exists labels :: AreLabels(labels) && name == Join(labels, ".")
  {
    var parts := Split(name, '.');
    forall part | part in parts
      ensures DnsLabelValid(part) <==> |part| <= 63 && IsLabel(part)
    {
      LabelLengthIff(part);
    }
    TextLaws.JoinSplit(name, '.');
    if DnsNameValid(name) {
      assert AreLabels(parts) && name == Join(parts, ".");
    }
    if exists labels :: AreLabels(labels) && name == Join(labels, ".") {
      var labels :| AreLabels(labels) && name == Join(labels, ".");
      forall l | l in labels
        ensures '.' !in l
      {
        LabelHasNoDot(l);
      }
      TextLaws.SplitJoin(labels, '.');
      assert name != "" by {
        JoinedNotEmpty(labels);
      }
    }
  }

  lemma JoinedNotEmpty(labels: seq<string>)
    requires AreLabels(labels)
    ensures Join(labels, ".") != ""
  {
    assert labels[0] in labels;
  }

  /** One to fifteen bytes without the characters Windows reserves. */
  lemma WorkgroupIff(name: string)
    ensures WorkgroupValid(name) <==> 1 <= Utf8Length(name) <= 15 && forall c :: c in name ==> c !in "\\/:*?\"<>|\0"
  {
    assert name != "" ==> Utf8Length(name) >= 1;
  }

  // Addresses.

  function Octets(a: int, b: int, c: int, d: int): int {
    0x100_0000 * a + 0x1_0000 * b + 0x100 * c + d
  }

  /** Not 0.0.0.0, not 224.0.0.0 to 239.255.255.255, not 255.255.255.255. */
  lemma HostAddressIff(a: u8, b: u8, c: u8, d: u8)
    ensures HostAddress(Octets(a, b, c, d)) <==>
      !(a == b == c == d == 0) && !(224 <= a <= 239) && !(a == b == c == d == 255)
  {
  }

  /** A server may also be the broadcast address. */
  lemma ServerAddress4Iff(a: u8, b: u8, c: u8, d: u8)
    ensures ServerAddress(V4(Octets(a, b, c, d))) <==> !(a == b == c == d == 0) && !(224 <= a <= 239)
  {
  }

  /** An IPv6 server is neither unspecified nor multicast, and multicast are the addresses from ff00:: on. */
  lemma ServerAddress6Iff(v6: Ipv6)
    ensures ServerAddress(V6(v6)) <==> 0 < v6 < 0xFF00_0000_0000_0000_0000_0000_0000_0000
  {
    var unit := 0x1_0000_0000_0000_0000_0000_0000_0000_00;
    assert v6 == unit * (v6 / unit) + v6 % unit && 0 <= v6 % unit < unit;
    assert v6 / unit <= 0xFF;
  }

  // Paths.

  /** A drive path or a path in one of the two device namespaces. */
  lemma AbsolutePathIff(path: string)
    ensures AbsolutePath(path) <==>
      || (exists letter, rest :: IsLetter(letter) && path == [letter] + ":\\" + rest)
      || (exists letter, rest :: IsLetter(letter) && path == [letter] + ":/" + rest)
      || (exists rest :: path == "\\\\?\\" + rest)
      || (exists rest :: path == "\\\\.\\" + rest)
  {
    if AbsolutePath(path) {
      if |path| >= 4 && (path[..4] == "\\\\?\\" || path[..4] == "\\\\.\\") {
        assert path == path[..4] + path[4..];
      } else {
        assert path == [path[0]] + path[1..3] + path[3..];
        assert path[1..3] == [path[1], path[2]];
      }
    }
  }

  /** A letter and a colon. */
  lemma DriveLetterIff(text: string)
    ensures DriveLetter(text) <==> exists letter :: ('a' <= letter <= 'z' || 'A' <= letter <= 'Z') && text == [letter, ':']
  {
    if DriveLetter(text) {
      assert text == [text[0], ':'];
    }
  }

  /** The characters a local user name may not have, and those left out of a hardware address. */
  lemma ForbiddenIff(c: char)
    ensures c in USERNAME_FORBIDDEN <==> c in "\\/@[]:;|=+*?<>\","
    ensures c in MAC_SEPARATORS <==> c == ':' || c == '-'
  {
  }

  predicate AllSlashes(s: string) {
    forall c :: c in s ==> c == '\\'
  }

  /** Two or more backslashes, a server, a backslash, a share, and then nothing or a backslash and anything. */
  ghost predicate IsUncShare(path: string, slashes: string, server: string, share: string, rest: string) {
    && path == slashes + (server + "\\" + share + rest)
    && |slashes| >= 2 && AllSlashes(slashes)
    && server != "" && '\\' !in server && share != "" && '\\' !in share
    && (rest == "" || rest[0] == '\\')
  }

  /** Where the server and the share of a path are found. */
  lemma TwoPieces(server: string, share: string, rest: string)
    requires '\\' !in server && '\\' !in share && (rest == "" || rest[0] == '\\')
    ensures var parts := Split(server + "\\" + share + rest, '\\'); |parts| >= 2 && parts[0] == server && parts[1] == share
  {
    assert server + "\\" + share + rest == server + ['\\'] + (share + rest);
    TextLaws.SplitPrefix(server, share + rest, '\\');
    if rest == "" {
      assert share + rest == share;
      TextLaws.SplitWhole(share, '\\');
    } else {
      assert share + rest == share + ['\\'] + rest[1..];
      TextLaws.SplitPrefix(share, rest[1..], '\\');
    }
  }

  lemma UncShareIf(path: string, slashes: string, server: string, share: string, rest: string)
    requires IsUncShare(path, slashes, server, share, rest)
    ensures UncShare(path)
  {
    var trimmed := server + "\\" + share + rest;
    assert trimmed[0] == server[0] && server[0] in server;
    TextLaws.TrimStartRun(slashes, trimmed, {'\\'});
    TwoPieces(server, share, rest);
    TwoSlashes(slashes, trimmed);
  }

  lemma TwoSlashes(slashes: string, tail: string)
    requires |slashes| >= 2 && AllSlashes(slashes)
    ensures (slashes + tail)[..2] == "\\\\"
  {
    assert slashes[0] in slashes && slashes[1] in slashes;
    assert (slashes + tail)[..2] == [slashes[0], slashes[1]];
  }

  /** A text of at least two pieces, taken apart at the first two. */
  lemma FirstTwo(text: string)
    ensures var parts := Split(text, '\\');
      |parts| >= 2 ==> exists rest :: text == parts[0] + "\\" + parts[1] + rest && (rest == "" || rest[0] == '\\')
  {
    var parts := Split(text, '\\');
    TextLaws.JoinSplit(text, '\\');
    if |parts| >= 2 {
      var later := parts[1..];
      var rest := if |later| == 1 then "" else "\\" + Join(later[1..], "\\");
      assert Join(parts, "\\") == parts[0] + "\\" + Join(later, "\\");
      assert Join(later, "\\") == later[0] + rest;
      assert text == parts[0] + "\\" + parts[1] + rest;
    }
  }

  lemma UncShareOnlyIf(path: string)
    requires UncShare(path)
    ensures exists slashes, server, share, rest :: IsUncShare(path, slashes, server, share, rest)
  {
    var trimmed := TrimStart(path, {'\\'});
    var parts := Split(trimmed, '\\');
    var slashes := path[..|path| - |trimmed|];
    assert path[0] == path[..2][0] && path[1] == path[..2][1];
    LeadingSlashes(path, trimmed);
    FirstTwo(trimmed);
    var rest :| trimmed == parts[0] + "\\" + parts[1] + rest && (rest == "" || rest[0] == '\\');
    assert parts[0] in parts && parts[1] in parts;
    assert IsUncShare(path, slashes, parts[0], parts[1], rest);
  }

  lemma LeadingSlashes(path: string, trimmed: string)
    requires |path| >= 2 && path[0] == path[1] == '\\' && trimmed == TrimStart(path, {'\\'})
    ensures |path| - |trimmed| >= 2 && AllSlashes(path[..|path| - |trimmed|]) && path == path[..|path| - |trimmed|] + trimmed
  {
    TextLaws.TrimStartSkips(path, trimmed, {'\\'}, 2);
  }

  lemma UncShareIff(path: string)
    ensures UncShare(path) <==> exists slashes, server, share, rest :: IsUncShare(path, slashes, server, share, rest)
  {
    if UncShare(path) {
      UncShareOnlyIf(path);
    }
    if exists slashes, server, share, rest :: IsUncShare(path, slashes, server, share, rest) {
      var slashes, server, share, rest :| IsUncShare(path, slashes, server, share, rest);
      UncShareIf(path, slashes, server, share, rest);
    }
  }

  // Selectors.

  /** `part` occurs in `text` from position `i` on, but for case. */
  predicate OccursFrom(text: string, part: string, i: int) {
    0 <= i <= |text| - |part| && forall j :: 0 <= j < |part| ==> TextLaws.SameLetter(text[i + j], part[j])
  }

  lemma ContainsIff(text: string, part: string)
    ensures ContainsText(Fold(text), Fold(part)) <==> exists i :: OccursFrom(text, part, i)
  {
    forall i | 0 <= i <= |text| - |part|
      ensures OccursAt(Fold(text), Fold(part), i) <==> OccursFrom(text, part, i)
    {
      OccursIff(text, part, i);
    }
  }

  lemma OccursIff(text: string, part: string, i: nat)
    requires i + |part| <= |text|
    ensures OccursAt(Fold(text), Fold(part), i) <==> OccursFrom(text, part, i)
  {
    var slice := text[i..i + |part|];
    assert Fold(slice) == Fold(text)[i..i + |part|];
    TextLaws.SameIgnoringCaseIff(slice, part);
    assert forall j :: 0 <= j < |part| ==> slice[j] == text[i + j];
  }

  /**
   A selector matches an adapter that agrees with it in everything it names: index, name but for case,
   GUID but for braces and case, hardware address but for separators and case, and a description that
   contains its text but for case.
   */
  lemma MatchesIff(s: InterfaceSelector, a: AdapterInfo)
    ensures SelectorMatches(s, a) <==>
      && (s.ifIndex.Some? ==> s.ifIndex.value == a.ifIndex)
      && (s.name.Some? ==> SameIgnoringCase(s.name.value, a.name))
      && (s.guid.Some? ==> a.guid.Some? && CanonicalGuid(s.guid.value) == CanonicalGuid(a.guid.value))
      && (s.mac.Some? ==> a.mac.Some? && SameIgnoringCase(TextLaws.Digits(s.mac.value), TextLaws.Digits(a.mac.value)))
      && (s.description.Some? ==> a.description.Some? && exists i :: OccursFrom(a.description.value, s.description.value, i))
  {
    if s.mac.Some? && a.mac.Some? {
      TextLaws.SameMacIff(s.mac.value, a.mac.value);
    }
    if s.description.Some? && a.description.Some? {
      ContainsIff(a.description.value, s.description.value);
    }
  }

  /** Two selectors are compared in the same way, each by what both name, descriptions as a whole. */
  lemma SharesIff(a: InterfaceSelector, b: InterfaceSelector)
    ensures SharesStableMatcher(a, b) <==>
      || (a.ifIndex.Some? && b.ifIndex == a.ifIndex)
      || (a.name.Some? && b.name.Some? && SameIgnoringCase(a.name.value, b.name.value))
      || (a.guid.Some? && b.guid.Some? && CanonicalGuid(a.guid.value) == CanonicalGuid(b.guid.value))
      || (a.mac.Some? && b.mac.Some? && SameIgnoringCase(TextLaws.Digits(a.mac.value), TextLaws.Digits(b.mac.value)))
      || (a.description.Some? && b.description.Some? && SameIgnoringCase(a.description.value, b.description.value))
  {
    if a.mac.Some? && b.mac.Some? {
      TextLaws.SameMacIff(a.mac.value, b.mac.value);
    }
  }
}
