/**
 Line wrapping for human-readable output: greedy filling of each source line, with words longer than
 the width chopped into pieces of exactly the width.
 */
module Wrap {
  import opened Std
  import opened Text
  import TextLaws

  // Words.

  /** How many characters come before the first blank. */
  function WordLength(s: string): (n: nat)
    ensures n <= |s| && (n < |s| ==> IsWhitespace(s[n]))
    ensures forall i :: 0 <= i < n ==> !IsWhitespace(s[i])
  {
    if s == "" || IsWhitespace(s[0]) then 0 else 1 + WordLength(s[1..])
  }

  predicate IsWord(w: string) {
    w != "" && forall c :: c in w ==> !IsWhitespace(c)
  }

  /** The maximal runs of non-blank characters. */
  function SplitWhitespace(s: string): (words: seq<string>)
    ensures forall w :: w in words ==> IsWord(w)
    decreases |s|
  {
    if s == "" then []
    else if IsWhitespace(s[0]) then SplitWhitespace(s[1..])
    else [s[..WordLength(s)]] + SplitWhitespace(s[WordLength(s)..])
  }

  function Flatten<T>(parts: seq<seq<T>>): seq<T> {
    if parts == [] then [] else parts[0] + Flatten(parts[1..])
  }

  /** `s` without its blanks. */
  function Dense(s: string): string {
    if s == "" then "" else (if IsWhitespace(s[0]) then "" else [s[0]]) + Dense(s[1..])
  }

  // The specification.

  /** A word cut into pieces of the width, the last one possibly shorter. */
  function Chop(word: string, width: nat): (pieces: seq<string>)
    requires width >= 1
    ensures |pieces| == 1 <==> |word| <= width
    ensures pieces != []
    decreases |word|
  {
    if |word| <= width then [word] else [word[..width]] + Chop(word[width..], width)
  }

  function Pieces(words: seq<string>, width: nat): seq<string>
    requires width >= 1
  {
    if words == [] then [] else Chop(words[0], width) + Pieces(words[1..], width)
  }

  lemma FlattenCons<T>(first: seq<T>, rest: seq<seq<T>>)
    ensures Flatten([first] + rest) == first + Flatten(rest)
  {
    assert ([first] + rest)[0] == first && ([first] + rest)[1..] == rest;
  }

  lemma {:induction false} ChopWhole(word: string, width: nat)
    requires width >= 1
    ensures Flatten(Chop(word, width)) == word
    decreases |word|
  {
    if |word| <= width {
      assert [word] + [] == [word];
      FlattenCons(word, []);
    } else {
      ChopWhole(word[width..], width);
      FlattenCons(word[..width], Chop(word[width..], width));
      assert word[..width] + word[width..] == word;
    }
  }

  lemma {:induction false} ChopPieces(word: string, width: nat)
    requires width >= 1
    ensures IsWord(word) ==> forall p :: p in Chop(word, width) ==> IsWord(p)
    ensures forall p :: p in Chop(word, width) ==> |p| <= width
    decreases |word|
  {
    if |word| > width {
      var first, rest := word[..width], Chop(word[width..], width);
      ChopPieces(word[width..], width);
      assert forall c :: c in first || c in word[width..] ==> c in word;
      assert forall p :: p in [first] + rest ==> p == first || p in rest;
    }
  }

  lemma {:induction false} PiecesMeaning(words: seq<string>, width: nat)
    requires width >= 1
    ensures (forall w :: w in words ==> IsWord(w)) ==> forall p :: p in Pieces(words, width) ==> IsWord(p)
    ensures forall p :: p in Pieces(words, width) ==> |p| <= width
    ensures Flatten(Pieces(words, width)) == Flatten(words)
  {
    if words != [] {
      ChopWhole(words[0], width);
      ChopPieces(words[0], width);
      PiecesMeaning(words[1..], width);
      FlattenSum(Chop(words[0], width), Pieces(words[1..], width));
    }
  }

  predicate Fits(group: seq<string>, piece: string, width: nat) {
    group == [] || |Join(group, " ")| + 1 + |piece| <= width
  }

  /** The pieces grouped into lines, `group` being on the current one. */
  function Layout(group: seq<string>, pieces: seq<string>, width: nat): seq<seq<string>>
    decreases |pieces|
  {
    if pieces == [] then if group == [] then [] else [group]
    else if Fits(group, pieces[0], width) then Layout(group + [pieces[0]], pieces[1..], width)
    else [group] + Layout([pieces[0]], pieces[1..], width)
  }

  function Lines(groups: seq<seq<string>>): (lines: seq<string>)
    ensures |lines| == |groups| && forall i :: 0 <= i < |lines| ==> lines[i] == Join(groups[i], " ")
  {
    seq(|groups|, i requires 0 <= i < |groups| => Join(groups[i], " "))
  }

  /** What one source line becomes: nothing at all when it is blank but not empty. */
  function Block(source: string, width: nat): seq<string>
    requires width >= 1
  {
    if source == "" then [""] else Lines(Layout([], Pieces(SplitWhitespace(source), width), width))
  }

  function Blocks(sources: seq<string>, width: nat): seq<string>
    requires width >= 1
  {
    if sources == [] then [] else Block(sources[0], width) + Blocks(sources[1..], width)
  }

  function Sources(value: string): seq<string> {
    Split(Filter(value, {'\r'}), '\n')
  }

  lemma {:induction false} NothingFiltered(s: string)
    requires '\r' !in s
    ensures Filter(s, {'\r'}) == s
  {
    if s != "" {
      assert s[0] in s && forall c :: c in s[1..] ==> c in s;
      NothingFiltered(s[1..]);
    }
  }

  lemma {:induction false} JoinedWithout(lines: seq<string>, c: char)
    requires c != '\n' && forall l :: l in lines ==> c !in l
    ensures c !in Join(lines, "\n")
  {
    if |lines| == 1 {
      assert lines[0] in lines;
    } else if |lines| > 1 {
      assert lines[0] in lines && forall l :: l in lines[1..] ==> l in lines;
      JoinedWithout(lines[1..], c);
    }
  }

  /** The source lines are the lines of the text. */
  lemma SourcesRead(lines: seq<string>)
    requires lines != [] && forall l :: l in lines ==> '\n' !in l && '\r' !in l
    ensures Sources(Join(lines, "\n")) == lines
  {
    JoinedWithout(lines, '\r');
    NothingFiltered(Join(lines, "\n"));
    TextLaws.SplitJoin(lines, '\n');
  }

  // Joining and laying out.

  lemma {:induction false} JoinAppend(group: seq<string>, piece: string)
    ensures Join(group + [piece], " ") == if group == [] then piece else Join(group, " ") + " " + piece
  {
    if group == [] {
      assert group + [piece] == [piece];
    } else {
      assert (group + [piece])[1..] == group[1..] + [piece];
      JoinAppend(group[1..], piece);
      assert |group| > 1 ==> Join(group, " ") == group[0] + " " + Join(group[1..], " ");
      assert |group| == 1 ==> group[1..] == [] && Join(group, " ") == group[0];
    }
  }

  lemma LinesSum(a: seq<seq<string>>, b: seq<seq<string>>)
    ensures Lines(a + b) == Lines(a) + Lines(b)
  {
  }

  function Singles(pieces: seq<string>): seq<seq<string>> {
    if pieces == [] then [] else [[pieces[0]]] + Singles(pieces[1..])
  }

  lemma {:induction false} LinesSingles(pieces: seq<string>)
    ensures Lines(Singles(pieces)) == pieces
  {
    if pieces != [] {
      LinesSingles(pieces[1..]);
      LinesSum([[pieces[0]]], Singles(pieces[1..]));
      assert Lines([[pieces[0]]]) == [pieces[0]];
    }
  }

  /** The finished line, if there is one. */
  function Ready(group: seq<string>): seq<seq<string>> {
    if group == [] then [] else [group]
  }

  lemma LayoutBreak(group: seq<string>, piece: string, more: seq<string>, width: nat)
    requires group != [] ==> !Fits(group, piece, width)
    ensures Layout(group, [piece] + more, width) == Ready(group) + Layout([piece], more, width)
  {
    var pieces := [piece] + more;
    assert pieces[0] == piece && pieces[1..] == more && [] + [piece] == [piece];
  }

  /** Pieces as long as the width take a line each. */
  lemma {:induction false} LayoutLong(group: seq<string>, full: seq<string>, chunk: string, later: seq<string>, width: nat)
    requires forall p :: p in full ==> |p| == width
    requires group != [] ==> !Fits(group, (full + [chunk])[0], width)
    ensures Layout(group, full + [chunk] + later, width) == Ready(group) + Singles(full) + Layout([chunk], later, width)
    decreases |full|
  {
    if full == [] {
      LayoutBreak(group, chunk, later, width);
      assert full + [chunk] + later == [chunk] + later && Ready(group) + Singles(full) == Ready(group);
    } else {
      var first, more, last := full[0], full[1..] + [chunk] + later, Layout([chunk], later, width);
      assert full + [chunk] + later == [first] + more && first in full;
      LayoutBreak(group, first, more, width);
      LayoutLong([first], full[1..], chunk, later, width);
      Assoc(Ready(group), Singles(full), last);
    }
  }

  /**
   The layout a reader expects: the pieces in order, every line within the width, and no line broken
   while the next piece would still have fitted.
   */
  predicate IsGreedy(groups: seq<seq<string>>, pieces: seq<string>, width: nat) {
    Flatten(groups) == pieces
    && (forall i :: 0 <= i < |groups| ==> groups[i] != [] && |Join(groups[i], " ")| <= width)
    && (forall i :: 0 < i < |groups| ==> |Join(groups[i - 1], " ")| + 1 + |groups[i][0]| > width)
  }

  lemma GreedyCons(group: seq<string>, groups: seq<seq<string>>, pieces: seq<string>, width: nat)
    requires IsGreedy(groups, pieces, width) && groups != []
    requires group != [] && |Join(group, " ")| <= width && !Fits(group, groups[0][0], width)
    ensures IsGreedy([group] + groups, group + pieces, width)
  {
    var all := [group] + groups;
    assert all[0] == group && all[1..] == groups;
    assert forall i :: 0 < i < |all| ==> all[i] == groups[i - 1];
    forall i | 0 < i < |all| ensures |Join(all[i - 1], " ")| + 1 + |all[i][0]| > width {
      assert i > 1 ==> all[i - 1] == groups[i - 2];
    }
  }

  lemma {:induction false} LayoutFrom(group: seq<string>, pieces: seq<string>, width: nat)
    requires (forall p :: p in pieces ==> |p| <= width) && |Join(group, " ")| <= width
    ensures IsGreedy(Layout(group, pieces, width), group + pieces, width)
    ensures group != [] ==> Layout(group, pieces, width) != [] && group <= Layout(group, pieces, width)[0]
    decreases |pieces|
  {
    if pieces == [] {
      assert group + pieces == group;
      assert Flatten(Ready(group)) == group;
    } else {
      var p, more := pieces[0], pieces[1..];
      assert p in pieces && pieces == [p] + more;
      JoinAppend(group, p);
      Assoc(group, [p], more);
      if Fits(group, p, width) {
        LayoutFrom(group + [p], more, width);
      } else {
        LayoutFrom([p], more, width);
        GreedyCons(group, Layout([p], more, width), pieces, width);
      }
    }
  }

  lemma {:induction false} JoinPrefix(group: seq<string>, more: seq<string>)
    ensures |Join(group, " ")| <= |Join(group + more, " ")|
    decreases |more|
  {
    if more == [] {
      assert group + more == group;
    } else {
      assert group + more == (group + more[..|more| - 1]) + [more[|more| - 1]];
      JoinPrefix(group, more[..|more| - 1]);
      JoinAppend(group + more[..|more| - 1], more[|more| - 1]);
    }
  }

  lemma FlattenOne<T>(parts: seq<seq<T>>)
    requires parts != []
    ensures Flatten(parts) == parts[0] + Flatten(parts[1..])
  {
  }

  /** A proper prefix of the first of two parts is continued by that part. */
  lemma NextOf<T>(group: seq<T>, pieces: seq<T>, line: seq<T>, rest: seq<T>)
    requires group <= line && |group| < |line| && group + pieces == line + rest
    ensures pieces != [] && pieces[0] == line[|group|]
  {
    assert (group + pieces)[|group|] == (line + rest)[|group|];
  }

  lemma Reassembled<T>(group: seq<T>, pieces: seq<T>, line: seq<T>)
    requires group <= line && |group| < |line| && pieces != [] && pieces[0] == line[|group|]
    ensures line == group + [pieces[0]] + line[|group| + 1..]
    ensures group + [pieces[0]] + pieces[1..] == group + pieces
  {
    assert [pieces[0]] + pieces[1..] == pieces;
    Assoc(group, [pieces[0]], pieces[1..]);
  }

  /** An open group that is not yet the whole first line: the next piece is on that line and fits. */
  lemma GreedyGrows(groups: seq<seq<string>>, group: seq<string>, pieces: seq<string>, width: nat)
    requires groups != [] && group <= groups[0] && group != [] && |group| < |groups[0]|
    requires IsGreedy(groups, group + pieces, width)
    ensures pieces != [] && group + [pieces[0]] <= groups[0] && Fits(group, pieces[0], width)
    ensures group + [pieces[0]] + pieces[1..] == group + pieces
  {
    FlattenOne(groups);
    NextOf(group, pieces, groups[0], Flatten(groups[1..]));
    Reassembled(group, pieces, groups[0]);
    JoinPrefix(group + [pieces[0]], groups[0][|group| + 1..]);
    JoinAppend(group, pieces[0]);
  }

  /** An open group that is the whole first line: the later lines are greedy for what is left. */
  lemma GreedyTail(groups: seq<seq<string>>, pieces: seq<string>, width: nat)
    requires groups != [] && IsGreedy(groups, groups[0] + pieces, width)
    ensures IsGreedy(groups[1..], pieces, width)
  {
    FlattenOne(groups);
    var first, later := groups[0], groups[1..];
    assert (first + pieces)[|first|..] == pieces && (first + Flatten(later))[|first|..] == Flatten(later);
    assert forall i :: 0 < i < |later| ==> later[i - 1] == groups[i] && later[i] == groups[i + 1];
  }

  /** The first piece opens the first line, and does not fit on the line before it. */
  lemma GreedyOpens(groups: seq<seq<string>>, pieces: seq<string>, width: nat)
    requires groups != [] && IsGreedy(groups, pieces, width)
    ensures pieces != [] && [pieces[0]] <= groups[0] && pieces[0] == groups[0][0] && [pieces[0]] + pieces[1..] == pieces
  {
    FlattenOne(groups);
    assert groups[0] != [];
    assert pieces[0] == groups[0][0];
  }

  lemma {:induction false} LayoutForced(groups: seq<seq<string>>, group: seq<string>, pieces: seq<string>, width: nat)
    requires groups != [] && group <= groups[0] && group != []
    requires IsGreedy(groups, group + pieces, width)
    ensures Layout(group, pieces, width) == groups
    decreases |pieces|
  {
    if |group| < |groups[0]| {
      GreedyGrows(groups, group, pieces, width);
      LayoutForced(groups, group + [pieces[0]], pieces[1..], width);
    } else {
      assert group == groups[0];
      var later := groups[1..];
      GreedyTail(groups, pieces, width);
      assert groups == [group] + later;
      if later != [] {
        GreedyOpens(later, pieces, width);
        assert later[0] == groups[1];
        LayoutForced(later, [pieces[0]], pieces[1..], width);
      }
    }
  }

  /** The loop's layout is the only greedy one. */
  lemma LayoutIsTheGreedyOne(groups: seq<seq<string>>, pieces: seq<string>, width: nat)
    requires forall p :: p in pieces ==> p != "" && |p| <= width
    ensures IsGreedy(groups, pieces, width) <==> groups == Layout([], pieces, width)
  {
    LayoutFrom([], pieces, width);
    assert [] + pieces == pieces;
    if IsGreedy(groups, pieces, width) && groups != [] {
      GreedyOpens(groups, pieces, width);
      assert [] + [pieces[0]] == [pieces[0]];
      LayoutForced(groups, [pieces[0]], pieces[1..], width);
    }
  }

  // Nothing is lost.

  lemma {:induction false} DenseSum(a: string, b: string)
    ensures Dense(a + b) == Dense(a) + Dense(b)
  {
    if a == "" {
      assert a + b == b;
    } else {
      assert (a + b)[1..] == a[1..] + b;
      DenseSum(a[1..], b);
    }
  }

  lemma {:induction false} DenseWord(w: string)
    requires forall c :: c in w ==> !IsWhitespace(c)
    ensures Dense(w) == w
  {
    if w != "" {
      assert w[0] in w;
      DenseWord(w[1..]);
    }
  }

  lemma {:induction false} DenseBlank(s: string)
    ensures Dense(s) == "" <==> Blank(s)
  {
    if s != "" {
      assert s[0] in s;
      DenseBlank(s[1..]);
      assert Blank(s) <==> IsWhitespace(s[0]) && Blank(s[1..]);
    }
  }

  lemma {:induction false} WordsDense(s: string)
    ensures Flatten(SplitWhitespace(s)) == Dense(s)
    decreases |s|
  {
    if s != "" && !IsWhitespace(s[0]) {
      var n := WordLength(s);
      assert s == s[..n] + s[n..];
      DenseSum(s[..n], s[n..]);
      DenseWord(s[..n]);
      WordsDense(s[n..]);
      FlattenOne(SplitWhitespace(s));
    } else if s != "" {
      WordsDense(s[1..]);
    }
  }

  lemma {:induction false} FlattenSum<T>(a: seq<seq<T>>, b: seq<seq<T>>)
    ensures Flatten(a + b) == Flatten(a) + Flatten(b)
  {
    if a == [] {
      assert a + b == b;
    } else {
      assert (a + b)[1..] == a[1..] + b;
      FlattenSum(a[1..], b);
    }
  }

  lemma {:induction false} JoinDense(group: seq<string>)
    requires forall p :: p in group ==> IsWord(p)
    ensures Dense(Join(group, " ")) == Flatten(group)
  {
    if group != [] {
      var w := group[0];
      assert w in group;
      DenseWord(w);
      FlattenOne(group);
      if |group| > 1 {
        var rest := Join(group[1..], " ");
        assert Join(group, " ") == w + " " + rest;
        DenseSum(w + " ", rest);
        DenseSum(w, " ");
        DenseBlank(" ");
        JoinDense(group[1..]);
        assert w + "" == w;
      } else {
        assert Join(group, " ") == w && Flatten(group[1..]) == [] && w + [] == w;
      }
    }
  }

  lemma {:induction false} LinesDense(groups: seq<seq<string>>)
    requires forall p :: p in Flatten(groups) ==> IsWord(p)
    ensures Dense(Flatten(Lines(groups))) == Flatten(Flatten(groups))
  {
    if groups != [] {
      FlattenOne(groups);
      FlattenSum(groups[0], Flatten(groups[1..]));
      FlattenOne(Lines(groups));
      assert Lines(groups)[1..] == Lines(groups[1..]);
      DenseSum(Lines(groups)[0], Flatten(Lines(groups[1..])));
      JoinDense(groups[0]);
      LinesDense(groups[1..]);
    }
  }

  /** One source line: its lines are within the width, hold its text, and are missing only when it is blank. */
  lemma BlockMeaning(source: string, width: nat)
    requires width >= 1
    ensures forall line :: line in Block(source, width) ==> |line| <= width
    ensures Dense(Flatten(Block(source, width))) == Dense(source)
    ensures Block(source, width) == [] <==> source != "" && Blank(source)
  {
    if source == "" {
      FlattenOne([""]);
    } else {
      var words := SplitWhitespace(source);
      var pieces := Pieces(words, width);
      var groups := Layout([], pieces, width);
      PiecesMeaning(words, width);
      LayoutFrom([], pieces, width);
      assert [] + pieces == pieces;
      LinesDense(groups);
      WordsDense(source);
      DenseBlank(source);
      if groups != [] {
        FlattenOne(groups);
        assert groups[0] != [];
        assert pieces[0] in pieces;
        FlattenOne(pieces);
      }
      forall line | line in Lines(groups) ensures |line| <= width {
        var i :| 0 <= i < |groups| && Lines(groups)[i] == line;
        assert groups[i] in groups;
      }
    }
  }

  lemma {:induction false} BlocksDense(sources: seq<string>, width: nat)
    requires width >= 1
    ensures Dense(Flatten(Blocks(sources, width))) == Dense(Flatten(sources))
  {
    if sources != [] {
      BlockMeaning(sources[0], width);
      BlocksDense(sources[1..], width);
      FlattenSum(Block(sources[0], width), Blocks(sources[1..], width));
      DenseSum(Flatten(Block(sources[0], width)), Flatten(Blocks(sources[1..], width)));
      FlattenOne(sources);
      DenseSum(sources[0], Flatten(sources[1..]));
    }
  }

  lemma {:induction false} BlocksEmpty(sources: seq<string>, width: nat)
    requires width >= 1
    ensures Blocks(sources, width) == [] <==> forall s :: s in sources ==> s != "" && Blank(s)
  {
    if sources != [] {
      assert |Blocks(sources, width)| == |Block(sources[0], width)| + |Blocks(sources[1..], width)|;
      assert forall s :: s in sources[1..] ==> s in sources;
      assert sources[0] in sources;
      BlockMeaning(sources[0], width);
      BlocksEmpty(sources[1..], width);
      assert forall s :: s in sources ==> s == sources[0] || s in sources[1..];
    }
  }

  lemma {:induction false} BlocksMeaning(sources: seq<string>, width: nat)
    requires width >= 1
    ensures forall line :: line in Blocks(sources, width) ==> |line| <= width
    ensures Dense(Flatten(Blocks(sources, width))) == Dense(Flatten(sources))
    ensures Blocks(sources, width) == [] <==> forall s :: s in sources ==> s != "" && Blank(s)
  {
    BlocksDense(sources, width);
    BlocksEmpty(sources, width);
    if sources != [] {
      BlockMeaning(sources[0], width);
      BlocksMeaning(sources[1..], width);
    }
  }

  lemma {:induction false} SplitDense(s: string)
    ensures Dense(Flatten(Split(s, '\n'))) == Dense(s)
  {
    if s != "" {
      var rest := Split(s[1..], '\n');
      SplitDense(s[1..]);
      FlattenOne(rest);
      var pieces := Split(s, '\n');
      FlattenOne(pieces);
      if s[0] == '\n' {
        assert pieces[1..] == rest && "" + Flatten(rest) == Flatten(rest);
      } else {
        assert pieces[1..] == rest[1..];
        assert pieces[0] + Flatten(rest[1..]) == [s[0]] + Flatten(rest);
        assert ([s[0]] + Flatten(rest))[1..] == Flatten(rest);
      }
    }
  }

  lemma {:induction false} FilterDense(s: string)
    ensures Dense(Filter(s, {'\r'})) == Dense(s)
  {
    if s != "" {
      FilterDense(s[1..]);
    }
  }

  lemma SourcesDense(value: string)
    ensures Dense(Flatten(Sources(value))) == Dense(value)
  {
    SplitDense(Filter(value, {'\r'}));
    FilterDense(value);
  }

  /** A line reads back as exactly the pieces put on it, so no word that fits is ever split. */
  lemma {:induction false} LineWords(group: seq<string>)
    requires forall p :: p in group ==> IsWord(p)
    ensures SplitWhitespace(Join(group, " ")) == group
  {
    if group != [] {
      var w := group[0];
      var line := Join(group, " ");
      var rest := if |group| == 1 then "" else " " + Join(group[1..], " ");
      assert w in group && line == w + rest;
      WordStart(w, rest);
      if |group| > 1 {
        assert rest[1..] == Join(group[1..], " ");
        LineWords(group[1..]);
      }
    }
  }

  lemma WordStart(w: string, rest: string)
    requires IsWord(w) && (rest != "" ==> IsWhitespace(rest[0]))
    ensures SplitWhitespace(w + rest) == [w] + SplitWhitespace(rest)
  {
    var line := w + rest;
    var n := WordLength(line);
    assert w[0] in w;
    assert forall i :: 0 <= i < |w| ==> line[i] == w[i] && w[i] in w;
    assert rest != "" ==> line[|w|] == rest[0];
    assert n == |w|;
    assert line[..|w|] == w && line[|w|..] == rest;
  }

  lemma {:induction false} FittingWordsKept(words: seq<string>, width: nat)
    requires width >= 1 && forall w :: w in words ==> |w| <= width
    ensures Pieces(words, width) == words
  {
    if words != [] {
      assert words[0] in words;
      FittingWordsKept(words[1..], width);
    }
  }

  /** The words of all the lines of one source line. */
  function WordsOf(lines: seq<string>): seq<string> {
    if lines == [] then [] else SplitWhitespace(lines[0]) + WordsOf(lines[1..])
  }

  lemma {:induction false} LinesWords(groups: seq<seq<string>>)
    requires forall p :: p in Flatten(groups) ==> IsWord(p)
    ensures WordsOf(Lines(groups)) == Flatten(groups)
  {
    if groups != [] {
      FlattenOne(groups);
      assert Lines(groups)[1..] == Lines(groups[1..]);
      LineWords(groups[0]);
      LinesWords(groups[1..]);
    }
  }

  /** The words of the lines are the source line's words, those longer than the width in pieces. */
  lemma WordsKept(source: string, width: nat)
    requires width >= 1
    ensures WordsOf(Block(source, width)) == Pieces(SplitWhitespace(source), width)
    ensures (forall w :: w in SplitWhitespace(source) ==> |w| <= width) ==> WordsOf(Block(source, width)) == SplitWhitespace(source)
  {
    var pieces := Pieces(SplitWhitespace(source), width);
    if source != "" {
      PiecesMeaning(SplitWhitespace(source), width);
      LayoutFrom([], pieces, width);
      assert [] + pieces == pieces;
      LinesWords(Layout([], pieces, width));
    }
    if forall w :: w in SplitWhitespace(source) ==> |w| <= width {
      FittingWordsKept(SplitWhitespace(source), width);
    }
  }

  // The loops.

  /** A full chunk is cut off when another character follows. */
  lemma ChopStep(full: seq<string>, chunk: string, rest: string, width: nat)
    requires width >= 1 && |chunk| == width && rest != ""
    ensures full + Chop(chunk + rest, width) == full + [chunk] + Chop(rest, width)
  {
    assert (chunk + rest)[..width] == chunk && (chunk + rest)[width..] == rest;
    Assoc(full, [chunk], Chop(rest, width));
  }

  /** The pieces finished, the open one and the characters to come make up the whole. */
  ghost predicate Chopping(full: seq<string>, chunk: string, rest: string, word: string, width: nat) {
    width >= 1 && |chunk| <= width
    && (forall p :: p in full ==> |p| == width)
    && full + Chop(chunk + rest, width) == Chop(word, width)
  }

  lemma ChoppingStart(word: string, width: nat)
    requires width >= 1
    ensures Chopping([], "", word, word, width)
  {
    assert "" + word == word && [] + Chop(word, width) == Chop(word, width);
  }

  lemma ChoppingCut(full: seq<string>, chunk: string, rest: string, word: string, width: nat)
    requires Chopping(full, chunk, rest, word, width) && |chunk| == width && rest != ""
    ensures Chopping(full + [chunk], "", rest, word, width)
  {
    ChopStep(full, chunk, rest, width);
    assert "" + rest == rest;
  }

  lemma ChoppingNext(full: seq<string>, chunk: string, rest: string, word: string, width: nat)
    requires Chopping(full, chunk, rest, word, width) && |chunk| < width && rest != ""
    ensures Chopping(full, chunk + [rest[0]], rest[1..], word, width)
  {
    assert chunk + [rest[0]] + rest[1..] == chunk + rest;
  }

  lemma ChoppingEnd(full: seq<string>, chunk: string, word: string, width: nat)
    requires Chopping(full, chunk, "", word, width)
    ensures full + [chunk] == Chop(word, width)
  {
    assert chunk + "" == chunk;
  }

  /** Cuts `word`, putting full pieces on lines of their own and leaving the last one open. */
  method ChopWord(word: string, width: nat) returns (full: seq<string>, chunk: string)
    requires width >= 1
    ensures full + [chunk] == Chop(word, width)
    ensures forall p :: p in full ==> |p| == width
    ensures word != "" ==> chunk != ""
  {
    full, chunk := [], "";
    ChoppingStart(word, width);
    assert word[0..] == word;
    for k := 0 to |word|
      invariant k > 0 ==> chunk != ""
      invariant Chopping(full, chunk, word[k..], word, width)
    {
      if |chunk| == width {
        ChoppingCut(full, chunk, word[k..], word, width);
        full := full + [chunk];
        chunk := "";
      }
      ChoppingNext(full, chunk, word[k..], word, width);
      assert word[k..][1..] == word[k + 1..];
      chunk := chunk + [word[k]];
    }
    assert word[|word|..] == "";
    ChoppingEnd(full, chunk, word, width);
  }

  /** What the lines will be when `done` are finished, `group` is open and the words from `k` on are to come. */
  ghost function Outlook(done: seq<seq<string>>, group: seq<string>, words: seq<string>, k: nat, width: nat): seq<seq<string>>
    requires width >= 1 && k <= |words|
  {
    done + Layout(group, Pieces(words[k..], width), width)
  }

  /** The open line holds the open group, and the lines still owed are those of the whole source line. */
  ghost predicate Filling(output: seq<string>, line: string, done: seq<seq<string>>, group: seq<string>,
                          words: seq<string>, k: nat, width: nat)
  {
    width >= 1 && k <= |words|
    && line == Join(group, " ") && (line == "" <==> group == []) && output == Lines(done)
    && Outlook(done, group, words, k, width) == Layout([], Pieces(words, width), width)
  }

  lemma FillingStart(words: seq<string>, width: nat)
    requires width >= 1
    ensures Filling([], "", [], [], words, 0, width)
  {
    assert words[0..] == words;
    var all := Layout([], Pieces(words, width), width);
    assert [] + all == all;
  }

  /** A word that fits joins the current line. */
  lemma FillingFits(output: seq<string>, line: string, done: seq<seq<string>>, group: seq<string>,
                    words: seq<string>, k: nat, width: nat)
    requires Filling(output, line, done, group, words, k, width) && k < |words| && words[k] != ""
    requires |line| + (if line == "" then 0 else 1) + |words[k]| <= width
    ensures Filling(output, if line == "" then words[k] else line + " " + words[k], done, group + [words[k]], words, k + 1, width)
  {
    PiecesStep(words, k, width);
    JoinAppend(group, words[k]);
    var later := Pieces(words[k + 1..], width);
    var pieces := [words[k]] + later;
    assert pieces[0] == words[k] && pieces[1..] == later;
  }

  lemma OutlookBreak(done: seq<seq<string>>, group: seq<string>, words: seq<string>, k: nat, width: nat,
                     full: seq<string>, chunk: string)
    requires width >= 1 && k < |words|
    requires full + [chunk] == Chop(words[k], width) && forall p :: p in full ==> |p| == width
    requires group != [] ==> |Join(group, " ")| + 1 + |words[k]| > width
    ensures Outlook(done, group, words, k, width) == Outlook(done + Ready(group) + Singles(full), [chunk], words, k + 1, width)
    ensures Lines(done + Ready(group) + Singles(full)) == Lines(done) + Lines(Ready(group)) + full
  {
    PiecesStep(words, k, width);
    BreakNeeded(group, words[k], full, chunk, width);
    var later := Pieces(words[k + 1..], width);
    LayoutLong(group, full, chunk, later, width);
    Assoc(done, Ready(group) + Singles(full), Layout([chunk], later, width));
    Assoc(done, Ready(group), Singles(full));
    LinesSingles(full);
    LinesSum(done, Ready(group));
    LinesSum(done + Ready(group), Singles(full));
  }

  /** Otherwise the line is finished and the word takes lines of its own, its last piece left open. */
  lemma FillingBreak(output: seq<string>, line: string, done: seq<seq<string>>, group: seq<string>,
                     words: seq<string>, k: nat, width: nat, full: seq<string>, chunk: string)
    requires Filling(output, line, done, group, words, k, width) && k < |words|
    requires |line| + (if line == "" then 0 else 1) + |words[k]| > width
    requires full + [chunk] == Chop(words[k], width) && chunk != "" && forall p :: p in full ==> |p| == width
    ensures Filling(output + Flush(line) + full, chunk, done + Ready(group) + Singles(full), [chunk], words, k + 1, width)
  {
    OutlookBreak(done, group, words, k, width, full, chunk);
    assert Lines(Ready(group)) == Flush(line);
  }

  lemma FillingEnd(output: seq<string>, line: string, done: seq<seq<string>>, group: seq<string>, words: seq<string>, width: nat)
    requires Filling(output, line, done, group, words, |words|, width)
    ensures output + Flush(line) == Lines(Layout([], Pieces(words, width), width))
  {
    assert Pieces(words[|words|..], width) == [];
    LinesSum(done, Ready(group));
    assert Lines(Ready(group)) == Flush(line);
  }

  /** Fills lines with the words of one source line; the last line stays open. */
  method FillLines(words: seq<string>, width: nat) returns (output: seq<string>, line: string)
    requires width >= 1 && forall w :: w in words ==> IsWord(w)
    ensures output + Flush(line) == Lines(Layout([], Pieces(words, width), width))
  {
    output, line := [], "";
    ghost var group: seq<string> := [];
    ghost var done: seq<seq<string>> := [];
    FillingStart(words, width);
    for k := 0 to |words|
      invariant Filling(output, line, done, group, words, k, width)
    {
      var word := words[k];
      assert IsWord(word);
      var separator := if line != "" then 1 else 0;
      if |line| + separator + |word| <= width {
        FillingFits(output, line, done, group, words, k, width);
        group := group + [word];
        if separator == 1 {
          line := line + " ";
        }
        line := line + word;
      } else {
        var full, chunk := ChopWord(word, width);
        FillingBreak(output, line, done, group, words, k, width, full, chunk);
        done := done + Ready(group) + Singles(full);
        ghost var flushed := output + Flush(line);
        if line != "" {
          output := output + [line];
        }
        assert output == flushed;
        output := output + full;
        group := [chunk];
        line := chunk;
      }
    }
    FillingEnd(output, line, done, group, words, width);
  }

  lemma PiecesStep(words: seq<string>, k: nat, width: nat)
    requires width >= 1 && k < |words|
    ensures Pieces(words[k..], width) == Chop(words[k], width) + Pieces(words[k + 1..], width)
  {
    assert words[k..][0] == words[k] && words[k..][1..] == words[k + 1..];
  }

  lemma BreakNeeded(group: seq<string>, word: string, full: seq<string>, chunk: string, width: nat)
    requires width >= 1 && full + [chunk] == Chop(word, width) && forall p :: p in full ==> |p| == width
    requires group != [] ==> |Join(group, " ")| + 1 + |word| > width
    ensures group != [] ==> !Fits(group, (full + [chunk])[0], width)
  {
    if full == [] {
      assert Chop(word, width) == [chunk] && |word| <= width;
      assert chunk == [chunk][0];
    } else {
      assert (full + [chunk])[0] == full[0] && full[0] in full;
    }
  }

  /** The lines so far and those of the sources to come are those of all sources. */
  ghost predicate Wrapping(output: seq<string>, sources: seq<string>, k: nat, width: nat) {
    width >= 1 && k <= |sources| && output + Blocks(sources[k..], width) == Blocks(sources, width)
  }

  lemma WrappingStart(sources: seq<string>, width: nat)
    requires width >= 1
    ensures Wrapping([], sources, 0, width)
  {
    assert sources[0..] == sources && [] + Blocks(sources, width) == Blocks(sources, width);
  }

  /** One source line, filled; a line stays open, or an empty source line is kept as one. */
  lemma WrappingNext(output: seq<string>, sources: seq<string>, k: nat, width: nat, full: seq<string>, line: string)
    requires Wrapping(output, sources, k, width) && k < |sources|
    requires full + Flush(line) == Lines(Layout([], Pieces(SplitWhitespace(sources[k]), width), width))
    ensures Wrapping(output + full + if line == "" && sources[k] == "" then [""] else Flush(line), sources, k + 1, width)
  {
    var last := if line == "" && sources[k] == "" then [""] else Flush(line);
    assert full + last == Block(sources[k], width);
    assert sources[k..][0] == sources[k] && sources[k..][1..] == sources[k + 1..];
    Assoc(output, full, last);
    Assoc(output, Block(sources[k], width), Blocks(sources[k + 1..], width));
  }

  lemma WrappingEnd(output: seq<string>, sources: seq<string>, width: nat)
    requires Wrapping(output, sources, |sources|, width)
    ensures output == Blocks(sources, width)
  {
    assert output + [] == output;
  }

  /** Wraps `value`; every line is within the width and no text is lost. */
  method WrapText(value: string, width: nat) returns (output: seq<string>)
    requires width >= 1
    ensures output == if Blocks(Sources(value), width) == [] then ["-"] else Blocks(Sources(value), width)
    ensures forall line :: line in output ==> |line| <= width
    ensures Blocks(Sources(value), width) == [] <==> forall s :: s in Sources(value) ==> s != "" && Blank(s)
    ensures Blocks(Sources(value), width) != [] ==> Dense(Flatten(output)) == Dense(value)
  {
    output := [];
    var sources := Sources(value);
    WrappingStart(sources, width);
    for k := 0 to |sources|
      invariant Wrapping(output, sources, k, width)
    {
      var source := sources[k];
      var full, line := FillLines(SplitWhitespace(source), width);
      WrappingNext(output, sources, k, width, full, line);
      output := output + full;
      if line != "" {
        output := output + [line];
      } else if source == "" {
        output := output + [""];
      } else {
        assert output == output + [];
      }
    }
    WrappingEnd(output, sources, width);
    BlocksMeaning(sources, width);
    SourcesDense(value);
    if output == [] {
      output := ["-"];
    }
  }
}
