/** Concrete texts for which a chunking guarantee needs its hypothesis. */
module Counterexamples {
  import opened Basics
  import opened Text
  import opened Blocks
  import opened Sizing
  import opened Greedy
  import opened Packing
  import opened BlockFacts
  import opened Offsets
  import opened ChunkFacts
  import opened Sections
  import opened Chunker

  lemma {:induction false} LineLengthIs(s: string, n: nat)
    requires 0 < n <= |s| && forall i :: 0 <= i < n - 1 ==> !IsBreak(s[i])
    requires IsBreak(s[n - 1]) ==> s[n - 1] != '\r' || n == |s| || s[n] != '\n'
    requires !IsBreak(s[n - 1]) ==> n == |s|
    ensures LineLength(s) == n
  {
    if n > 1 { LineLengthIs(s[1..], n - 1); }
  }

  /** A text of two lines without "\r\n". */
  lemma TwoLines(a: string, b: string)
    requires a != "" && b != "" && IsBreak(a[|a| - 1]) && b[0] != '\n'
    requires forall i :: 0 <= i < |a| - 1 ==> !IsBreak(a[i])
    requires forall i :: 0 <= i < |b| ==> !IsBreak(b[i])
    ensures SplitLines(a + b) == [a, b]
  {
    var s := a + b;
    LineLengthIs(s, |a|);
    LineLengthIs(b, |b|);
    assert s[..|a|] == a && s[|a|..] == b && b[..|b|] == b && b[|b|..] == "";
  }

  lemma StripIs(s: string, i: nat, e: nat)
    requires i < e <= |s| && !IsSpace(s[i]) && !IsSpace(s[e - 1])
    requires forall j :: 0 <= j < |s| && !(i <= j < e) ==> IsSpace(s[j])
    ensures Strip(s) == s[i..e]
  {
    SkipSpaceMeaning(s, 0);
    SolidEndMeaning(s, |s|);
  }

  lemma OneGroup(b: Block, size: nat, overlap: int)
    requires size >= 1 && |b.text| <= size
    ensures Groups(Sized([b], size), size, overlap) == [Run("", [b])]
  {
    assert [b][1..] == [] && Sized([b], size) == [b];
    LastRun(ChunkPolicy(size, overlap), "", [b]);
  }

  lemma PlainLine(line: string, bare: string)
    requires Strip(line) == bare != "" && bare[0] != '#' && bare[0] != '`' && bare[0] != '~'
    ensures Read(line) == Mark(bare, false, None)
  {
    assert HashRun(bare) == 0;
  }

  lemma HeadingLine(line: string, title: string)
    requires line == "# " + title && Trimmed(title) && !IsGlyph(title[|title| - 1])
    ensures Read(line) == Mark(line, false, Some(Heading(1, title)))
  {
    StripOfTrimmed(line);
    assert line[1..] == " " + title && line[2..] == title;
    assert HashRun(line) == 1;
    SkipSpaceIs(line[1..], 0, 1);
    assert DropGlyphs(title) == title;
    StripOfTrimmed(title);
  }

  lemma TwoKinds(lines: seq<string>)
    requires |lines| == 2 && !Read(lines[0]).isFence && !Read(lines[1]).isFence
    ensures Kinds(Marks(lines)) == [Outside(Read(lines[0])), Outside(Read(lines[1]))]
  {
    var marks := Marks(lines);
    assert !InFence(marks, 0) && !InFence(marks, 1);
  }

  /** A parsed document of two lines. */
  ghost predicate TwoLined(doc: Document, a: string, b: string) {
    && doc.Shaped() && doc.lines == [a, b] && doc.offsets[0] == 0 && doc.open[0] == []
    && doc.Moves(0) && doc.Moves(1)
  }

  lemma ParseTwoLined(text: string, a: string, b: string)
    requires SplitLines(text) == [a, b]
    ensures TwoLined(Parse(text), a, b) && Parse(text).kinds == Kinds(Marks([a, b]))
  {
    DocumentFacts(text);
    assert [a, b][..0] == [];
    assert Offset([a, b], 0) == 0;
  }

  /** The kind of a line that neither is a fence nor lies inside one. */
  function Outside(mark: Mark): LineKind {
    if mark.heading.Some? then Title(mark.heading.value, mark.bare) else if mark.bare == "" then Blank else Body
  }

  lemma TwoLineParagraph(a: string, b: string, joined: string)
    requires joined == Chop(a) + "\n" + Chop(b) && Trimmed(joined)
    ensures Paragraph([a, b], 0, 2) == joined
  {
    var chopped := [Chop(a), Chop(b)];
    assert [a, b][0..2] == [a, b] && Chopped([a, b]) == chopped;
    assert chopped[1..] == [Chop(b)] && Join("\n", [Chop(b)]) == Chop(b);
    StripOfTrimmed(joined);
  }

  lemma OneParagraph(doc: Document, a: string, b: string, joined: string)
    requires TwoLined(doc, a, b) && doc.kinds == [Body, Body]
    requires Paragraph([a, b], 0, 2) == joined != ""
    ensures BlocksFrom(doc, 0) == [Block(joined, 0, [], false)]
  {
    RunEndIs(doc.kinds, 1, 2);
    assert BlocksFrom(doc, 2) == [];
    assert Titles(doc.open[0]) == [];
  }

  lemma TwoLineDocument(text: string, first: string, second: string, kinds: seq<LineKind>)
    requires SplitLines(text) == [first, second] && !Read(first).isFence && !Read(second).isFence
    requires kinds == [Outside(Read(first)), Outside(Read(second))]
    ensures TwoLined(Parse(text), first, second) && Parse(text).kinds == kinds
  {
    TwoKinds([first, second]);
    ParseTwoLined(text, first, second);
  }

  lemma PlainLines(first: string, second: string)
    requires |first| == 2 && IsBreak(first[1]) && first[0] == 'a' && second == "b"
    ensures Read(first) == Mark(Strip(first), false, None)
    ensures Strip(first) != "" && Read(second) == Mark(second, false, None)
  {
    StripIs(first, 0, 1);
    StripOfTrimmed(second);
    PlainLine(first, Strip(first));
    PlainLine(second, second);
  }

  lemma ParagraphDocument(text: string, first: string, second: string, joined: string)
    requires SplitLines(text) == [first, second] && Paragraph([first, second], 0, 2) == joined != ""
    requires Outside(Read(first)) == Outside(Read(second)) == Body && !Read(first).isFence && !Read(second).isFence
    ensures DocumentBlocks(text) == [Block(joined, 0, [], false)]
  {
    TwoLineDocument(text, first, second, [Body, Body]);
    OneParagraph(Parse(text), first, second, joined);
  }

  lemma RenderOne(b: Block)
    ensures Render([Run("", [b])]) == [Chunk(b.text, 0, b.path, b.start, b.start + |b.text|)]
  {
    assert Texts([b]) == [b.text];
  }

  lemma OneChunk(text: string, b: Block, size: nat)
    requires size >= 1 && Strip(text) != "" && DocumentBlocks(text) == [b] && |b.text| <= size
    ensures Chunks(text, size, 0) == [Chunk(b.text, 0, b.path, b.start, b.start + |b.text|)]
  {
    OneGroup(b, size, 0);
    RenderOne(b);
    assert TextGroups(text, size, 0) == Groups(Sized([b], size), size, 0);
  }

  /**
   * A line separator other than a newline makes a block longer than its source, because its lines are joined with
   * newlines while the separator stays: the chunk's end offset then lies behind the end of the text.
   */
  lemma CarriageReturnOverruns(text: string)
    requires text == "a\rb"
    ensures !NewlinesOnly(text)
    ensures |Chunks(text, 10, 0)| == 1 && Chunks(text, 10, 0)[0].start == 0 && Chunks(text, 10, 0)[0].end == |text| + 1
  {
    BareReturn(text);
    var first, second := text[..2], text[2..];
    var joined := first + "\n" + second;
    assert text == first + second;
    TwoLines(first, second);
    PlainLines(first, second);
    TwoLineParagraph(first, second, joined);
    ParagraphDocument(text, first, second, joined);
    HasInk(text, 0);
    OneChunk(text, Block(joined, 0, [], false), 10);
  }

  lemma BareReturn(text: string)
    requires |text| == 3 && text[1] == '\r' && text[2] != '\n'
    ensures !NewlinesOnly(text)
  {
    assert !NewlineAt(text, 1) && IsBreak(text[1]);
  }

  lemma HasInk(text: string, i: nat)
    requires i < |text| && !IsSpace(text[i])
    ensures Strip(text) != ""
  {
    StripMeaning(text);
  }

  lemma ProseThenHeading(doc: Document, a: string, bare: string, h: string, title: string)
    requires TwoLined(doc, a, h) && doc.kinds == [Body, Title(Heading(1, title), h)]
    requires Chop(a) == bare && Trimmed(bare)
    ensures BlocksFrom(doc, 0) == [Block(bare, 0, [], false), Block(h, |a|, [title], true)]
  {
    assert Titles(doc.open[0]) == [] && Titles(doc.open[2]) == [title];
    assert doc.lines[0..1] == [a] && Chopped([a]) == [bare];
    StripOfTrimmed(bare);
    RunEndIs(doc.kinds, 1, 1);
    assert BlocksFrom(doc, 2) == [];
    assert BlocksFrom(doc, 1) == [HeadingBlock(doc, 1)] + BlocksFrom(doc, 2);
  }

  lemma HeadingSplits(b: Block)
    requires b.text == "# bcdefg"
    ensures Split(b, 6) == [Block("#", b.start, b.path, false), Block("bcdefg", b.start + 2, b.path, false)]
  {
    var w := b.text[0..6];
    CutPointMeaning(w);
    assert CutPoint(w) == 1 by { assert w[1] == ' '; }
    SkipSpaceIs(b.text, 1, 2);
    var x, y := Span(0, 1), Span(2, 8);
    assert Spans(b.text, 6, 0) == [x] + [y];
    assert Spans(b.text, 6, 0) == [x, y];
    assert b.text[0..1] == "#" && b.text[2..8] == "bcdefg";
    StripOfTrimmed("#");
    StripOfTrimmed("bcdefg");
    assert [x, y][1..] == [y] && [y][1..] == [];
    FirstPiece(b, [y]);
    FirstPiece(b, [x, y]);
    assert [x, y][1..] == [y];
  }

  lemma JoinTwo(a: Block, b: Block)
    ensures BodyText([a, b]) == a.text + "\n\n" + b.text
  {
    assert Texts([a, b]) == [a.text, b.text] && [a.text, b.text][1..] == [b.text];
    assert Join("\n\n", [b.text]) == b.text;
  }

  lemma JoinThree(a: Block, b: Block, c: Block)
    ensures BodyText([a, b] + [c]) == a.text + "\n\n" + b.text + "\n\n" + c.text
  {
    assert Texts([a, b] + [c]) == Texts([a, b]) + [c.text];
    JoinSnoc("\n\n", Texts([a, b]), c.text);
    JoinTwo(a, b);
  }

  /** Two short blocks share a chunk and a third one opens the next. */
  lemma PacksTwoAndOne(a: Block, b: Block, c: Block, size: nat)
    requires !a.isHeading && !b.isHeading && !c.isHeading
    requires |a.text| + |b.text| + 4 <= size < |a.text| + |b.text| + |c.text| + 6
    ensures Groups([a, b, c], size, 0) == [Run("", [a, b]), Run("", [c])]
  {
    var groups := [Run("", [a, b]), Run("", [c])];
    JoinTwo(a, b);
    JoinThree(a, b, c);
    assert [a, b][..1] == [a] && [a] + [b] == [a, b];
    assert !AllHeadings([a, b]) by { assert !([a, b][0].isHeading); }
    assert groups[1..] == [Run("", [c])] && [Run("", [c])][1..] == [];
    assert AllItems([Run("", [c])]) == [c] + [];
    assert AllItems(groups) == [a, b] + [c] == [a, b, c];
    PackerIsGreedy(groups, [a, b, c], size, 0);
  }

  lemma TwoPathsInOneChunk(text: string, a: Block, x: Block, y: Block, size: nat)
    requires size >= 1 && Strip(text) != "" && SizedBlocks(text, size) == [a, x, y]
    requires Groups([a, x, y], size, 0) == [Run("", [a, x]), Run("", [y])]
    requires !a.isHeading && a.path != x.path
    ensures !SectionsReported(TextGroups(text, size, 0), Chunks(text, size, 0))
  {
    var g := TextGroups(text, size, 0)[0];
    assert g.items == [a, x] && HeadingRun(g.items) == 0;
    assert !OneSection(g) by { assert g.items[1] == x; }
    KeptIsReported(TextGroups(text, size, 0));
  }

  lemma ProseAndHeading(text: string, first: string, bare: string, second: string, title: string)
    requires SplitLines(text) == [first, second] && Chop(first) == bare && Trimmed(bare)
    requires Read(first) == Mark(bare, false, None) && Read(second) == Mark(second, false, Some(Heading(1, title)))
    ensures DocumentBlocks(text) == [Block(bare, 0, [], false), Block(second, |first|, [title], true)]
  {
    TwoLineDocument(text, first, second, [Body, Title(Heading(1, title), second)]);
    ProseThenHeading(Parse(text), first, bare, second, title);
  }

  lemma ReadBoth(text: string, first: string, bare: string, second: string, title: string)
    requires text == first + second && |first| == 2 && first[0] == 'a' && first[1] == '\n' && bare == first[..1]
    requires second == "# " + title
    requires Trimmed(title) && !IsGlyph(title[|title| - 1]) && forall i :: 0 <= i < |title| ==> !IsBreak(title[i])
    ensures SplitLines(text) == [first, second] && Chop(first) == bare && Trimmed(bare)
    ensures Read(first) == Mark(bare, false, None) && Read(second) == Mark(second, false, Some(Heading(1, title)))
  {
    TwoLines(first, second);
    StripIs(first, 0, 1);
    PlainLine(first, bare);
    HeadingLine(second, title);
  }

  lemma SizedDocument(text: string, a: Block, h: Block, x: Block, y: Block)
    requires DocumentBlocks(text) == [a, h]
    requires |a.text| <= 6 && a.path == [] && h.text == "# bcdefg" && h.isHeading && h.path != []
    requires x == Block("#", h.start, h.path, false) && y == Block("bcdefg", h.start + 2, h.path, false)
    ensures !HeadingsSafe([], DocumentBlocks(text), 6) && SizedBlocks(text, 6) == [a, x, y]
  {
    SizedTwo(a, h);
  }

  /**
   * A heading longer than the chunk size is split into pieces that no longer count as headings, so its first piece can
   * be packed behind the prose of the section before it: one chunk then holds two sections.
   */
  lemma OversizedHeadingMixes(text: string)
    requires text == "a\n# bcdefg"
    ensures !HeadingsSafe([], DocumentBlocks(text), 6) && !SectionsReported(TextGroups(text, 6, 0), Chunks(text, 6, 0))
  {
    var first, bare, second, title := text[..2], text[..1], text[2..], text[4..];
    var a, h := Block(bare, 0, [], false), Block(second, 2, [title], true);
    var x, y := Block("#", 2, [title], false), Block("bcdefg", 4, [title], false);
    ReadBoth(text, first, bare, second, title);
    ProseAndHeading(text, first, bare, second, title);
    SizedDocument(text, a, h, x, y);
    PacksTwoAndOne(a, x, y, 6);
    StripMeaning(text);
    assert !IsSpace(text[0]);
    TwoPathsInOneChunk(text, a, x, y, 6);
  }

  lemma SizedTwo(a: Block, h: Block)
    requires |a.text| <= 6 && a.path == [] && h.text == "# bcdefg" && h.isHeading && h.path != []
    ensures !HeadingsSafe([], [a, h], 6)
    ensures Sized([a, h], 6) == [a, Block("#", h.start, h.path, false), Block("bcdefg", h.start + 2, h.path, false)]
  {
    HeadingSplits(h);
    assert [a, h][1..] == [h] && [h][1..] == [];
    assert Sized([h], 6) == Split(h, 6) + [];
    assert Sized([a, h], 6) == [a] + Sized([h], 6);
  }

  lemma SplitsAtSix(b: Block)
    requires b.text == "aaa\nbbb c"
    ensures Split(b, 6) ==
      [Block(b.text[..6], b.start, b.path, false), Block(b.text[6..], b.start + 6, b.path, false)]
  {
    var text, w := b.text, b.text[0..6];
    CutPointMeaning(w);
    assert CutPoint(w) == 6;
    SkipSpaceIs(text, 6, 6);
    var x, y := Span(0, 6), Span(6, 9);
    assert Spans(text, 6, 0) == [x] + [y];
    assert [x, y][1..] == [y] && [y][1..] == [];
    assert text[0..6] == text[..6] && text[6..9] == text[6..];
    StripOfTrimmed(text[..6]);
    StripOfTrimmed(text[6..]);
    FirstPiece(b, [y]);
    FirstPiece(b, [x, y]);
  }

  /** Two blocks that do not fit together are two chunks. */
  lemma PacksEach(a: Block, b: Block, size: nat)
    requires !a.isHeading && !b.isHeading && size < |a.text| + |b.text| + 4
    ensures Groups([a, b], size, 0) == [Run("", [a]), Run("", [b])]
  {
    var groups := [Run("", [a]), Run("", [b])];
    JoinTwo(a, b);
    assert [a] + [b] == [a, b];
    assert !AllHeadings([a]) by { assert !([a][0].isHeading); }
    assert groups[1..] == [Run("", [b])] && [Run("", [b])][1..] == [];
    assert AllItems([Run("", [b])]) == [b] + [];
    assert AllItems(groups) == [a] + [b];
    PackerIsGreedy(groups, [a, b], size, 0);
  }

  lemma RenderTwo(a: Block, b: Block)
    ensures Render([Run("", [a]), Run("", [b])]) ==
      [Chunk(a.text, 0, a.path, a.start, a.start + |a.text|), Chunk(b.text, 1, b.path, b.start, b.start + |b.text|)]
  {
    assert Texts([a]) == [a.text] && Texts([b]) == [b.text];
  }

  lemma SizedOne(text: string, b: Block, x: Block, y: Block, size: nat)
    requires size >= 1 && DocumentBlocks(text) == [b] && Split(b, size) == [x, y]
    ensures SizedBlocks(text, size) == [x, y]
  {
    assert [b][1..] == [] && Sized([b], size) == [x, y] + [];
  }

  lemma TwoChunks(text: string, x: Block, y: Block, size: nat)
    requires size >= 1 && Strip(text) != "" && SizedBlocks(text, size) == [x, y]
    requires Groups([x, y], size, 0) == [Run("", [x]), Run("", [y])]
    ensures Chunks(text, size, 0) ==
      [Chunk(x.text, 0, x.path, x.start, x.start + |x.text|), Chunk(y.text, 1, y.path, y.start, y.start + |y.text|)]
  {
    RenderTwo(x, y);
  }

  lemma OneParagraphText(text: string)
    requires text == "aaa\nbbb c"
    ensures DocumentBlocks(text) == [Block(text, 0, [], false)]
  {
    var first, second := text[..4], text[4..];
    assert text == first + second;
    TwoLines(first, second);
    StripIs(first, 0, 3);
    StripOfTrimmed(second);
    PlainLine(first, first[0..3]);
    PlainLine(second, second);
    assert Chop(first) == first[..3] && first[..3] + "\n" + second == text;
    TwoLineParagraph(first, second, text);
    ParagraphDocument(text, first, second, text);
  }

  lemma CutInTwo(text: string, b: Block, x: Block, y: Block)
    requires Strip(text) != "" && DocumentBlocks(text) == [b] && Split(b, 6) == [x, y]
    requires !x.isHeading && !y.isHeading && |x.text| == 6 && |y.text| == 3
    ensures var chunks := Chunks(text, 6, 0);
      |chunks| == 2 && chunks[0].text == x.text && chunks[1].text == y.text && chunks[1].start == y.start
  {
    SizedOne(text, b, x, y, 6);
    PacksEach(x, y, 6);
    TwoChunks(text, x, y, 6);
  }

  lemma ParagraphIsCut(b: Block) returns (x: Block, y: Block)
    requires b.text == "aaa\nbbb c" && b.start == 0
    ensures Split(b, 6) == [x, y] && !x.isHeading && !y.isHeading
    ensures x.text == b.text[..6] && y.text == b.text[6..] && y.start == 6
  {
    SplitsAtSix(b);
    x, y := Block(b.text[..6], 0, b.path, false), Block(b.text[6..], 6, b.path, false);
  }

  lemma CutIsInWord(text: string)
    requires text == "aaa\nbbb c"
    ensures Strip(text) != "" && |text| == 9 && InsideWord(text, 6)
  {
    HasInk(text, 0);
  }

  /** A newline is no word boundary to the splitter: with no space in its window the cut falls inside the next word. */
  lemma NewlineDoesNotSaveAWord(text: string)
    requires text == "aaa\nbbb c"
    ensures var chunks := Chunks(text, 6, 0);
      |chunks| == 2 && chunks[0].text == text[..6] && chunks[1].text == text[6..] && chunks[1].start == 6
    ensures InsideWord(text, 6)
  {
    var b := Block(text, 0, [], false);
    CutIsInWord(text);
    OneParagraphText(text);
    var x, y := ParagraphIsCut(b);
    CutInTwo(text, b, x, y);
  }
}
