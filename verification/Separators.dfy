/**
 * What the separators of a text do to its paragraphs. A paragraph's lines are joined with newlines, but only newlines
 * are chopped off before that: every other separator stays, and the paragraph grows by one character for each.
 */
module Separators {
  import opened Text
  import opened Blocks
  import opened BlockFacts
  import opened Offsets

  // ---- Lines -------------------------------------------------------------------

  /** The line's separator, if it has one, is no newline. */
  predicate IsBare(line: string) { line == "" || line[|line| - 1] != '\n' }

  /** No line ends in two newlines, so chopping takes off at most one. */
  predicate SingleBreaks(lines: seq<string>) {
    forall k: nat :: k < |lines| ==> IsBare(lines[k]) || IsBare(lines[k][..|lines[k]| - 1])
  }

  lemma {:induction false} LineShape(s: string)
    requires s != ""
    ensures var n := LineLength(s); n >= 2 ==> s[n - 2] != '\n'
  {
    if !IsBreak(s[0]) && |s| > 1 { LineShape(s[1..]); }
  }

  lemma {:induction false} SplitSingly(s: string)
    ensures SingleBreaks(SplitLines(s))
  {
    if s == "" {
    } else {
      var n := LineLength(s);
      LineShape(s);
      SplitSingly(s[n..]);
      assert IsBare(s[..n]) || IsBare(s[..n][..n - 1]);
    }
  }

  function BareCount(lines: seq<string>): nat {
    if |lines| == 0 then 0
    else BareCount(lines[..|lines| - 1]) + if IsBare(lines[|lines| - 1]) then 1 else 0
  }

  /** The number of bare lines before the last line that holds more than whitespace. */
  function BareInside(lines: seq<string>): nat {
    if |lines| == 0 then 0
    else if Strip(lines[|lines| - 1]) == "" then BareInside(lines[..|lines| - 1])
    else BareCount(lines[..|lines| - 1])
  }

  /** A line as a paragraph holds it, before the paragraph is stripped. */
  function Held(line: string): string { Chop(line) + "\n" }

  /** The lines as a paragraph holds them. */
  function Rendered(lines: seq<string>): string {
    if |lines| == 0 then "" else Rendered(lines[..|lines| - 1]) + Held(lines[|lines| - 1])
  }

  lemma HeldLine(line: string)
    requires IsBare(line) || IsBare(line[..|line| - 1])
    ensures Held(line) == if IsBare(line) then line + "\n" else line
  {
    if !IsBare(line) {
      var front := line[..|line| - 1];
      assert Chop(front) == front && line == front + "\n";
    }
  }

  lemma {:induction false} RenderedIsJoin(lines: seq<string>)
    requires lines != []
    ensures Rendered(lines) == Join("\n", Chopped(lines)) + "\n"
  {
    var front, last := lines[..|lines| - 1], lines[|lines| - 1];
    assert Chopped(lines) == Chopped(front) + [Chop(last)];
    if front != [] {
      RenderedIsJoin(front);
      JoinSnoc("\n", Chopped(front), Chop(last));
    } else {
      assert Chopped(lines) == [Chop(last)];
    }
  }

  lemma FlattenFront(lines: seq<string>)
    requires lines != []
    ensures Flatten(lines) == Flatten(lines[..|lines| - 1]) + lines[|lines| - 1]
  {
    var front, last := lines[..|lines| - 1], lines[|lines| - 1];
    assert lines == front + [last];
    FlattenConcat(front, [last]);
    assert Flatten([last]) == last + Flatten([last][1..]) == last;
  }

  lemma {:induction false} RenderedLength(lines: seq<string>)
    requires SingleBreaks(lines)
    ensures |Rendered(lines)| == |Flatten(lines)| + BareCount(lines)
    ensures BareCount(lines) == 0 ==> Rendered(lines) == Flatten(lines)
  {
    if lines == [] {
    } else {
      FlattenFront(lines);
      HeldLine(lines[|lines| - 1]);
      RenderedLength(lines[..|lines| - 1]);
    }
  }

  // ---- Stripping concatenations --------------------------------------------------

  predicate IsBlank(s: string) { forall i :: 0 <= i < |s| ==> IsSpace(s[i]) }

  lemma {:induction false} SolidEndIs(s: string, n: nat, m: nat)
    requires m <= n <= |s| && (m > 0 ==> !IsSpace(s[m - 1])) && forall j :: m <= j < n ==> IsSpace(s[j])
    ensures SolidEnd(s, n) == m
  {
    if m == n {
    } else {
      SolidEndIs(s, n - 1, m);
    }
  }

  lemma BlankEnd(s: string)
    ensures IsBlank(s) <==> SolidEnd(s, |s|) == 0
    ensures IsBlank(s) <==> Indent(s) == |s|
    ensures IsBlank(s) <==> Strip(s) == ""
  {
    StripMeaning(s);
    SolidEndMeaning(s, |s|);
    SkipSpaceMeaning(s, 0);
  }

  /** Ink at the end hides what is before it, blank text at the end changes nothing. */
  lemma SolidEndConcat(a: string, b: string)
    ensures SolidEnd(a + b, |a + b|) == if IsBlank(b) then SolidEnd(a, |a|) else |a| + SolidEnd(b, |b|)
  {
    SolidEndMeaning(a, |a|);
    SolidEndMeaning(b, |b|);
    BlankEnd(b);
    SolidEndIs(a + b, |a + b|, if IsBlank(b) then SolidEnd(a, |a|) else |a| + SolidEnd(b, |b|));
  }

  lemma IndentConcat(a: string, b: string)
    requires Indent(a) < |a|
    ensures Indent(a + b) == Indent(a)
  {
    SkipSpaceMeaning(a, 0);
    SkipSpaceIs(a + b, 0, Indent(a));
  }

  lemma StripAppend(a: string, b: string)
    requires IsBlank(b)
    ensures Strip(a + b) == Strip(a)
  {
    BlankEnd(a);
    if IsBlank(a) {
      BlankEnd(a + b);
    } else {
      IndentConcat(a, b);
      SolidEndConcat(a, b);
      InkSpan(a);
      InkSpan(a + b);
    }
  }

  /** A text with ink runs from its indentation to its solid end. */
  lemma InkSpan(s: string)
    requires Indent(s) < |s|
    ensures Indent(s) < SolidEnd(s, |s|) && Strip(s) == s[Indent(s)..SolidEnd(s, |s|)]
  {
    SkipSpaceMeaning(s, 0);
    SolidEndMeaning(s, |s|);
  }

  // ---- How much a paragraph grows ------------------------------------------------

  lemma HeldEnd(line: string)
    requires IsBare(line) || IsBare(line[..|line| - 1])
    ensures SolidEnd(Held(line), |Held(line)|) == SolidEnd(line, |line|)
    ensures IsBlank(Held(line)) <==> IsBlank(line)
  {
    HeldLine(line);
    if IsBare(line) { SolidEndConcat(line, "\n"); }
    BlankEnd(line);
    BlankEnd(Held(line));
  }

  lemma {:induction false} RenderedEnd(lines: seq<string>)
    requires SingleBreaks(lines)
    ensures SolidEnd(Rendered(lines), |Rendered(lines)|) ==
      SolidEnd(Flatten(lines), |Flatten(lines)|) + BareInside(lines)
  {
    if lines == [] {
    } else {
      var front, last := lines[..|lines| - 1], lines[|lines| - 1];
      FlattenFront(lines);
      HeldEnd(last);
      BlankEnd(last);
      SolidEndConcat(Rendered(front), Held(last));
      SolidEndConcat(Flatten(front), last);
      RenderedEnd(front);
      RenderedLength(front);
    }
  }

  lemma {:induction false} RenderedIndent(lines: seq<string>)
    requires SingleBreaks(lines) && lines != [] && Strip(lines[0]) != ""
    ensures Indent(Rendered(lines)) == Indent(Flatten(lines)) < |Flatten(lines)| <= |Rendered(lines)|
  {
    var front, last := lines[..|lines| - 1], lines[|lines| - 1];
    FlattenFront(lines);
    RenderedLength(lines);
    if front == [] {
      BlankEnd(last);
      HeldLine(last);
      assert Rendered(lines) == Held(last) && Flatten(lines) == last;
      if IsBare(last) { IndentConcat(last, "\n"); }
    } else {
      RenderedIndent(front);
      IndentConcat(Rendered(front), Held(last));
      IndentConcat(Flatten(front), last);
    }
  }

  lemma ParagraphIsRendered(lines: seq<string>)
    requires lines != []
    ensures ParagraphOf(lines) == Strip(Rendered(lines))
  {
    RenderedIsJoin(lines);
    StripAppend(Join("\n", Chopped(lines)), "\n");
  }

  /** A paragraph is as long as its stripped source and the bare lines inside its ink. */
  lemma ParagraphLength(lines: seq<string>)
    requires SingleBreaks(lines) && lines != [] && Strip(lines[0]) != ""
    ensures |ParagraphOf(lines)| == |Strip(Flatten(lines))| + BareInside(lines)
    ensures Strip(Flatten(lines)) != ""
  {
    ParagraphIsRendered(lines);
    RenderedIndent(lines);
    RenderedEnd(lines);
    InkSpan(Rendered(lines));
    InkSpan(Flatten(lines));
  }

  /** Without a bare line inside its ink a paragraph is its stripped source. */
  lemma {:induction false} ParagraphIsSource(lines: seq<string>)
    requires SingleBreaks(lines) && lines != [] && BareInside(lines) == 0
    ensures Strip(Rendered(lines)) == Strip(Flatten(lines))
  {
    var front, last := lines[..|lines| - 1], lines[|lines| - 1];
    FlattenFront(lines);
    HeldLine(last);
    HeldEnd(last);
    BlankEnd(last);
    if Strip(last) == "" {
      StripAppend(Rendered(front), Held(last));
      StripAppend(Flatten(front), last);
      if front != [] { ParagraphIsSource(front); }
    } else {
      RenderedLength(front);
      if IsBare(last) {
        assert Rendered(front) + Held(last) == Flatten(lines) + "\n";
        StripAppend(Flatten(lines), "\n");
      }
    }
  }

  // ---- Paragraphs in their document -------------------------------------------------

  /** The first line at or behind m that is not blank. */
  function SkipBlank(kinds: seq<LineKind>, m: nat): (n: nat)
    requires m <= |kinds|
    ensures m <= n <= |kinds|
    decreases |kinds| - m
  {
    if m < |kinds| && kinds[m].Blank? then SkipBlank(kinds, m + 1) else m
  }

  /** The line of the first block behind the paragraph that begins on line k. */
  function NextBlock(kinds: seq<LineKind>, k: nat): (n: nat)
    requires k < |kinds|
    ensures k < n <= |kinds|
  {
    SkipBlank(kinds, RunEnd(kinds, k + 1))
  }

  /** The source offers room for the bare lines inside its ink: as much whitespace around it, at least. */
  predicate Roomy(lines: seq<string>) { BareInside(lines) + |Strip(Flatten(lines))| <= |Flatten(lines)| }

  /** In every paragraph, up to the next block, the bare lines do not outnumber the whitespace around the ink. */
  ghost predicate AllRoomy(doc: Document, from: nat)
    requires doc.Shaped()
  {
    forall k: nat :: from <= k && Begins(doc.kinds, k) ==> RoomyAt(doc, k)
  }

  predicate RoomyAt(doc: Document, k: nat)
    requires doc.Shaped() && k < |doc.lines|
  {
    Roomy(doc.lines[k..NextBlock(doc.kinds, k)])
  }

  /** doc's lines are those of `source`, its offsets are theirs, and a paragraph begins with ink. */
  ghost predicate Lays(doc: Document, source: string) {
    && doc.Shaped()
    && (forall i :: 0 <= i <= |doc.lines| ==> doc.offsets[i] == Offset(doc.lines, i))
    && Flatten(doc.lines) == source
    && SingleBreaks(doc.lines)
    && (forall i :: 0 <= i < |doc.lines| ==> doc.Reads(i))
    && (forall k: nat :: Begins(doc.kinds, k) ==> Strip(doc.lines[k]) != "")
  }

  lemma LinesSource(doc: Document, source: string, k: nat, m: nat)
    requires Lays(doc, source) && k <= m <= |doc.lines|
    ensures doc.offsets[k] <= doc.offsets[m] <= |source|
    ensures source[doc.offsets[k]..doc.offsets[m]] == Flatten(doc.lines[k..m])
  {
    SourceSlice(doc.lines, k, m);
  }

  predicate AllBlank(lines: seq<string>) { forall i :: 0 <= i < |lines| ==> Strip(lines[i]) == "" }

  lemma {:induction false} BlankLinesAreBlank(lines: seq<string>)
    requires AllBlank(lines)
    ensures IsBlank(Flatten(lines))
  {
    if lines == [] {
    } else {
      BlankLinesAreBlank(lines[1..]);
      BlankEnd(lines[0]);
    }
  }

  lemma {:induction false} BareInsideSnoc(lines: seq<string>, behind: seq<string>)
    requires AllBlank(behind)
    ensures BareInside(lines + behind) == BareInside(lines)
    decreases |behind|
  {
    var all := lines + behind;
    if behind == [] {
      assert all == lines;
    } else {
      var front := behind[..|behind| - 1];
      BareInsideSnoc(lines, front);
      assert all[..|all| - 1] == lines + front;
    }
  }

  /** Blank lines behind a paragraph change neither its ink nor the bare lines inside it. */
  lemma BlankBehind(lines: seq<string>, behind: seq<string>)
    requires AllBlank(behind)
    ensures BareInside(lines + behind) == BareInside(lines)
    ensures Strip(Flatten(lines + behind)) == Strip(Flatten(lines))
  {
    BareInsideSnoc(lines, behind);
    BlankLinesAreBlank(behind);
    FlattenConcat(lines, behind);
    StripAppend(Flatten(lines), Flatten(behind));
  }

  lemma BlanksAreBlank(doc: Document, source: string, m: nat, n: nat)
    requires Lays(doc, source) && m <= n <= |doc.lines| && n <= SkipBlank(doc.kinds, m)
    ensures AllBlank(doc.lines[m..n])
  {
    forall i | m <= i < n ensures Strip(doc.lines[i]) == "" {
      BlankUpTo(doc.kinds, m, i);
      assert doc.Reads(i);
    }
  }

  lemma {:induction false} BlankUpTo(kinds: seq<LineKind>, m: nat, i: nat)
    requires m <= i < |kinds| && i < SkipBlank(kinds, m)
    ensures kinds[i].Blank?
    decreases i - m
  {
    if m == i {
    } else {
      BlankUpTo(kinds, m + 1, i);
    }
  }

  lemma StretchLines(doc: Document, source: string, k: nat, m: nat)
    requires Lays(doc, source) && Begins(doc.kinds, k) && k < m <= |doc.lines|
    ensures SingleBreaks(doc.lines[k..m]) && Strip(doc.lines[k..m][0]) != ""
  {
    var lines := doc.lines[k..m];
    assert forall i: nat :: i < |lines| ==> lines[i] == doc.lines[k + i];
    assert lines[0] == doc.lines[k];
  }

  /** A paragraph fits into its lines and the blank lines behind them exactly if they are roomy. */
  lemma StretchFits(lines: seq<string>, behind: seq<string>, all: seq<string>)
    requires SingleBreaks(lines) && lines != [] && Strip(lines[0]) != "" && AllBlank(behind) && all == lines + behind
    ensures ParagraphOf(lines) != "" && (|ParagraphOf(lines)| <= |Flatten(all)| <==> Roomy(all))
  {
    ParagraphLength(lines);
    BlankBehind(lines, behind);
  }

  lemma StretchLength(doc: Document, source: string, k: nat, m: nat, n: nat)
    requires Lays(doc, source) && k <= m <= n <= |doc.lines|
    ensures doc.offsets[n] == doc.offsets[k] + |Flatten(doc.lines[k..n])|
    ensures doc.lines[k..n] == doc.lines[k..m] + doc.lines[m..n]
  {
    LinesSource(doc, source, k, n);
  }

  /** A paragraph's recorded span ends before the next block exactly if the stretch up to there is roomy. */
  lemma ParagraphFits(doc: Document, source: string, k: nat, m: nat, n: nat)
    requires Lays(doc, source) && Begins(doc.kinds, k) && m == RunEnd(doc.kinds, k + 1) && n == NextBlock(doc.kinds, k)
    ensures Paragraph(doc.lines, k, m) != ""
    ensures doc.offsets[k] + |Paragraph(doc.lines, k, m)| <= doc.offsets[n] <==> RoomyAt(doc, k)
  {
    StretchLines(doc, source, k, m);
    BlanksAreBlank(doc, source, m, n);
    StretchLength(doc, source, k, m, n);
    StretchFits(doc.lines[k..m], doc.lines[m..n], doc.lines[k..n]);
  }

  // ---- Blocks in order ------------------------------------------------------------

  lemma HeadingFits(doc: Document, source: string, k: nat)
    requires Lays(doc, source) && k < |doc.lines| && doc.kinds[k].Title?
    ensures doc.offsets[k] + |HeadingBlock(doc, k).text| <= doc.offsets[k + 1]
  {
    assert doc.Reads(k);
    OffsetStep(doc.lines, k);
  }

  /** The blocks from line m on come in order behind `lo` if they are in order and `lo` is before the first of them. */
  lemma {:induction false} OrderFrom(doc: Document, source: string, m: nat, lo: nat)
    requires Lays(doc, source) && m <= |doc.lines| && (m < |doc.lines| && doc.kinds[m] == Body ==> Begins(doc.kinds, m))
    ensures InOrder(BlocksFrom(doc, m), lo, |source|) <==>
      lo <= doc.offsets[SkipBlank(doc.kinds, m)] && InOrder(BlocksFrom(doc, m), doc.offsets[m], |source|)
    decreases |doc.lines| - m
  {
    LinesSource(doc, source, m, |doc.lines|);
    if m == |doc.lines| {
      assert doc.lines[..m] == doc.lines;
    } else if doc.kinds[m].Blank? {
      LinesSource(doc, source, m, SkipBlank(doc.kinds, m));
      OrderFrom(doc, source, m + 1, lo);
      OrderFrom(doc, source, m + 1, doc.offsets[m]);
    } else if doc.kinds[m] == Body {
      ParagraphFits(doc, source, m, RunEnd(doc.kinds, m + 1), NextBlock(doc.kinds, m));
    }
  }

  /** A first block does not disturb the order if it ends before the next one starts. */
  lemma OrderBehind(doc: Document, source: string, k: nat, m: nat, b: Block)
    requires Lays(doc, source) && k < m <= |doc.lines|
    requires (m < |doc.lines| && doc.kinds[m] == Body ==> Begins(doc.kinds, m))
    requires BlocksFrom(doc, k) == [b] + BlocksFrom(doc, m) && b.start == doc.offsets[k]
    ensures InOrder(BlocksFrom(doc, k), doc.offsets[k], |source|) <==>
      b.start + |b.text| <= doc.offsets[SkipBlank(doc.kinds, m)] &&
        InOrder(BlocksFrom(doc, m), doc.offsets[m], |source|)
  {
    assert ([b] + BlocksFrom(doc, m))[1..] == BlocksFrom(doc, m);
    OrderFrom(doc, source, m, b.start + |b.text|);
  }

  lemma HeadingOrder(doc: Document, source: string, k: nat)
    requires Lays(doc, source) && k < |doc.lines| && doc.kinds[k].Title?
    ensures InOrder(BlocksFrom(doc, k), doc.offsets[k], |source|) <==>
      InOrder(BlocksFrom(doc, k + 1), doc.offsets[k + 1], |source|)
  {
    HeadingFits(doc, source, k);
    LinesSource(doc, source, k + 1, SkipBlank(doc.kinds, k + 1));
    OrderBehind(doc, source, k, k + 1, HeadingBlock(doc, k));
  }

  lemma ParagraphOrder(doc: Document, source: string, k: nat, m: nat)
    requires Lays(doc, source) && Begins(doc.kinds, k) && m == RunEnd(doc.kinds, k + 1)
    ensures InOrder(BlocksFrom(doc, k), doc.offsets[k], |source|) <==>
      RoomyAt(doc, k) && InOrder(BlocksFrom(doc, m), doc.offsets[m], |source|)
  {
    ParagraphFits(doc, source, k, m, NextBlock(doc.kinds, k));
    OrderBehind(doc, source, k, m, ProseBlocks(doc, k, m)[0]);
  }

  lemma BlankOrder(doc: Document, source: string, k: nat)
    requires Lays(doc, source) && k < |doc.lines| && doc.kinds[k].Blank?
    ensures InOrder(BlocksFrom(doc, k), doc.offsets[k], |source|) <==>
      InOrder(BlocksFrom(doc, k + 1), doc.offsets[k + 1], |source|)
  {
    LinesSource(doc, source, k, SkipBlank(doc.kinds, k + 1));
    OrderFrom(doc, source, k + 1, doc.offsets[k]);
  }

  lemma AllRoomyFrom(doc: Document, k: nat, m: nat)
    requires doc.Shaped() && k < m <= |doc.lines| && IsRun(doc.kinds, k + 1, m)
    requires m == k + 1 || doc.kinds[k] == Body
    ensures AllRoomy(doc, k) <==> AllRoomy(doc, m) && (Begins(doc.kinds, k) ==> RoomyAt(doc, k))
  {
    assert forall i: nat :: k < i < m ==> !Begins(doc.kinds, i);
  }

  lemma OrderStep(doc: Document, source: string, k: nat, m: nat)
    requires Lays(doc, source) && k < |doc.lines| && (doc.kinds[k] == Body ==> Begins(doc.kinds, k))
    requires m == LineEnd(doc.kinds, k)
    ensures InOrder(BlocksFrom(doc, k), doc.offsets[k], |source|) <==>
      (Begins(doc.kinds, k) ==> RoomyAt(doc, k)) && InOrder(BlocksFrom(doc, m), doc.offsets[m], |source|)
  {
    match doc.kinds[k]
    case Blank => BlankOrder(doc, source, k);
    case Title(_, _) => HeadingOrder(doc, source, k);
    case Body => ParagraphOrder(doc, source, k, m);
  }

  /** Parsed blocks are in order exactly if every paragraph has room. */
  lemma {:induction false} BlocksInOrder(doc: Document, source: string, k: nat)
    requires Lays(doc, source) && k <= |doc.lines| && (k < |doc.lines| && doc.kinds[k] == Body ==> Begins(doc.kinds, k))
    ensures InOrder(BlocksFrom(doc, k), doc.offsets[k], |source|) <==> AllRoomy(doc, k)
    decreases |doc.lines| - k
  {
    if k == |doc.lines| {
      LinesSource(doc, source, k, k);
    } else {
      var m := LineEnd(doc.kinds, k);
      OrderStep(doc, source, k, m);
      AllRoomyFrom(doc, k, m);
      BlocksInOrder(doc, source, m);
    }
  }

  // ---- Blocks in the source ---------------------------------------------------------

  /** A text longer than the ink it starts with, but ending in ink, has more ink. */
  lemma LongerHasMoreInk(t: string, ink: string)
    requires Trimmed(t) && |ink| < |t| && t[..|ink|] == ink
    ensures NonSpace(t) != NonSpace(ink)
  {
    var rest := t[|ink|..];
    assert t == ink + rest && rest[|rest| - 1] == t[|t| - 1];
    NonSpaceConcat(ink, rest);
    NonSpaceConcat(rest[..|rest| - 1], [rest[|rest| - 1]]);
    assert rest == rest[..|rest| - 1] + [rest[|rest| - 1]];
    assert NonSpace([rest[|rest| - 1]]) != "";
  }

  lemma HeadingOccurs(doc: Document, source: string, k: nat)
    requires Lays(doc, source) && k < |doc.lines| && doc.kinds[k].Title?
    ensures Sited(source, HeadingBlock(doc, k))
  {
    var line := doc.lines[k];
    assert doc.Reads(k);
    LinesSource(doc, source, k, k + 1);
    assert doc.lines[k..k + 1] == [line] && Flatten([line]) == line + Flatten([line][1..]) == line;
    StripOccurs(source, doc.offsets[k], line);
  }

  /** The source of a paragraph occurs where the paragraph is said to. */
  lemma StretchOccurs(doc: Document, source: string, k: nat, m: nat)
    requires Lays(doc, source) && k < m <= |doc.lines| && Strip(Flatten(doc.lines[k..m])) != ""
    ensures doc.offsets[k] <= |source|
    ensures OccursAt(source, Strip(Flatten(doc.lines[k..m])), SkipSpace(source, doc.offsets[k]))
  {
    LinesSource(doc, source, k, m);
    StripOccurs(source, doc.offsets[k], Flatten(doc.lines[k..m]));
  }

  lemma ParagraphInk(lines: seq<string>)
    ensures NonSpace(ParagraphOf(lines)) == NonSpace(Strip(Flatten(lines)))
  {
    NonSpaceOfSpaces("\n");
    NonSpaceJoin("\n", Chopped(lines));
    InkOfLines(lines);
    NonSpaceStrip(Join("\n", Chopped(lines)));
    NonSpaceStrip(Flatten(lines));
  }

  lemma LongerIsElsewhere(source: string, at: nat, t: string, ink: string)
    requires Trimmed(t) && |ink| < |t| && NonSpace(t) == NonSpace(ink) && OccursAt(source, ink, at)
    ensures !OccursAt(source, t, at)
  {
    if OccursAt(source, t, at) {
      SliceOfSlice(source, at, at + |t|, 0, |ink|);
      assert t[..|ink|] == t[0..|ink|];
      LongerHasMoreInk(t, ink);
    }
  }

  lemma ParagraphIsInk(lines: seq<string>)
    requires SingleBreaks(lines) && lines != [] && BareInside(lines) == 0
    ensures ParagraphOf(lines) == Strip(Flatten(lines))
  {
    ParagraphIsRendered(lines);
    ParagraphIsSource(lines);
  }

  lemma ParagraphIsTrimmed(lines: seq<string>)
    requires ParagraphOf(lines) != ""
    ensures Trimmed(ParagraphOf(lines))
  {
    StripEnds(Join("\n", Chopped(lines)));
  }

  lemma ParagraphIsLonger(lines: seq<string>)
    requires SingleBreaks(lines) && lines != [] && Strip(lines[0]) != "" && BareInside(lines) > 0
    ensures Trimmed(ParagraphOf(lines)) && |Strip(Flatten(lines))| < |ParagraphOf(lines)|
  {
    ParagraphLength(lines);
    ParagraphIsTrimmed(lines);
  }

  /** Where its stripped source occurs, a paragraph itself occurs exactly if no bare line lies inside its ink. */
  lemma RenderedOccurs(lines: seq<string>, source: string, at: nat)
    requires SingleBreaks(lines) && lines != [] && Strip(lines[0]) != ""
    requires OccursAt(source, Strip(Flatten(lines)), at)
    ensures OccursAt(source, ParagraphOf(lines), at) <==> BareInside(lines) == 0
  {
    if BareInside(lines) == 0 {
      ParagraphIsInk(lines);
    } else {
      ParagraphIsLonger(lines);
      ParagraphInk(lines);
      LongerIsElsewhere(source, at, ParagraphOf(lines), Strip(Flatten(lines)));
    }
  }

  lemma ParagraphOccurs(doc: Document, source: string, k: nat, m: nat)
    requires Lays(doc, source) && Begins(doc.kinds, k) && m == RunEnd(doc.kinds, k + 1)
    ensures doc.offsets[k] <= |source|
    ensures OccursAt(source, Paragraph(doc.lines, k, m), SkipSpace(source, doc.offsets[k])) <==>
      BareInside(doc.lines[k..m]) == 0
  {
    var lines := doc.lines[k..m];
    StretchLines(doc, source, k, m);
    ParagraphLength(lines);
    StretchOccurs(doc, source, k, m);
    RenderedOccurs(lines, source, SkipSpace(source, doc.offsets[k]));
  }

  /** A block occurs in the source behind its indentation exactly if it is a heading or has no bare line in its ink. */
  lemma BlockOccurs(doc: Document, source: string, b: Block, k: nat)
    requires Lays(doc, source) && k < |doc.lines| && StartsAt(doc, b, k)
    ensures Sited(source, b) <==> b.isHeading || BareInside(doc.lines[k..RunEnd(doc.kinds, k + 1)]) == 0
  {
    if b.isHeading {
      HeadingOccurs(doc, source, k);
    } else {
      OneProse(doc, k, RunEnd(doc.kinds, k + 1), b);
      ParagraphOccurs(doc, source, k, RunEnd(doc.kinds, k + 1));
    }
  }

  // ---- Texts with newlines only --------------------------------------------------------

  lemma {:induction false} NewlinesEnd(s: string)
    requires s != "" && NewlinesOnly(s)
    ensures LineLength(s) < |s| ==> s[LineLength(s) - 1] == '\n'
  {
    if !IsBreak(s[0]) && |s| > 1 {
      NewlinesOnlySuffix(s, 1);
      NewlinesEnd(s[1..]);
    }
  }

  lemma NewlinesOnlySuffix(s: string, n: nat)
    requires NewlinesOnly(s) && n <= |s|
    ensures NewlinesOnly(s[n..])
  {
    forall i: nat | i < |s[n..]| && IsBreak(s[n..][i]) ensures NewlineAt(s[n..], i) {
      assert NewlineAt(s, n + i);
    }
  }

  /** No line but the last is bare. */
  predicate NoneBare(lines: seq<string>) { forall k: nat :: k + 1 < |lines| ==> !IsBare(lines[k]) }

  lemma {:induction false} NewlinesLeaveNoneBare(s: string)
    requires NewlinesOnly(s)
    ensures NoneBare(SplitLines(s))
  {
    if s == "" {
    } else {
      var n := LineLength(s);
      NewlinesEnd(s);
      NewlinesOnlySuffix(s, n);
      NewlinesLeaveNoneBare(s[n..]);
      var rest := SplitLines(s[n..]);
      assert SplitLines(s) == [s[..n]] + rest;
      if rest == [] { assert |SplitLines(s)| == 1; }
    }
  }

  lemma {:induction false} NoBareCount(lines: seq<string>)
    requires forall k: nat :: k < |lines| ==> !IsBare(lines[k])
    ensures BareCount(lines) == 0
  {
    if lines == [] {
    } else {
      NoBareCount(lines[..|lines| - 1]);
    }
  }

  lemma {:induction false} NoneBareInside(lines: seq<string>)
    requires NoneBare(lines)
    ensures BareInside(lines) == 0
  {
    if lines == [] {
    } else {
      var front := lines[..|lines| - 1];
      NoBareCount(front);
      NoneBareInside(front);
    }
  }

  /** Newlines leave every paragraph all the room it needs. */
  lemma NewlinesAreRoomy(lines: seq<string>, k: nat, m: nat)
    requires NoneBare(lines) && k <= m <= |lines|
    ensures BareInside(lines[k..m]) == 0 && Roomy(lines[k..m])
  {
    NoneBareInside(lines[k..m]);
  }
}
