/** What the blocks of a text are, said of its lines alone. */
module Documents {
  import opened Basics
  import opened Text
  import opened Blocks
  import opened BlockFacts
  import opened Markup
  import opened Separators
  import opened Chunker

  /** b is the heading on line k, under the path of the headings still open there, itself included. */
  ghost predicate HeadingAt(text: string, b: Block, k: nat) {
    var lines := SplitLines(text);
    var marks := Marks(lines);
    && k < |lines| && HeadingLine(marks, k)
    && b == Block(Strip(lines[k]), Offset(lines, k), Titles(OpenFrom(HeadingsAbove(marks, k + 1), 0)), true)
  }

  /** b is the paragraph made of lines k..m, under the path of the headings still open before them. */
  ghost predicate ParagraphAt(text: string, b: Block, k: nat, m: nat) {
    var lines := SplitLines(text);
    var marks := Marks(lines);
    && ProseRun(marks, k, m)
    && b == Block(ParagraphOf(lines[k..m]), Offset(lines, k), Titles(OpenFrom(HeadingsAbove(marks, k), 0)), false)
  }

  lemma ParsedKind(text: string, k: nat)
    requires k < |Parse(text).lines|
    ensures Parse(text).kinds[k] == Kind(Marks(Parse(text).lines), k)
    ensures Parse(text).kinds[k].Title? <==> HeadingLine(Marks(Parse(text).lines), k)
    ensures Parse(text).kinds[k] == Body <==> ProseLine(Marks(Parse(text).lines), k)
  {
    KindIs(Marks(Parse(text).lines), k);
  }

  lemma ParsedOpen(text: string, k: nat)
    requires k <= |Parse(text).lines|
    ensures Parse(text).open[k] == OpenFrom(HeadingsAbove(Marks(Parse(text).lines), k), 0)
  {
    HeadingsAgree(Marks(Parse(text).lines), k);
  }

  /** A run of prose lines is what a paragraph begins on and ends at. */
  lemma RunIsParagraph(text: string, k: nat, m: nat)
    requires k < m <= |Parse(text).lines|
    ensures ProseRun(Marks(Parse(text).lines), k, m) <==>
      Begins(Parse(text).kinds, k) && m == RunEnd(Parse(text).kinds, k + 1)
  {
    var doc, marks := Parse(text), Marks(Parse(text).lines);
    forall i | 0 <= i < |doc.lines| ensures doc.kinds[i] == Body <==> ProseLine(marks, i) { ParsedKind(text, i); }
    if ProseRun(marks, k, m) {
      assert IsRun(doc.kinds, k + 1, m);
      RunEndIs(doc.kinds, k + 1, m);
    }
  }

  lemma HeadingAtLine(text: string, k: nat)
    requires k < |Parse(text).lines| && Parse(text).kinds[k].Title?
    ensures HeadingAt(text, HeadingBlock(Parse(text), k), k)
  {
    ParsedKind(text, k);
    ParsedOpen(text, k + 1);
    ParseReads(text, k);
  }

  lemma ParagraphAtLine(text: string, k: nat, m: nat)
    requires Begins(Parse(text).kinds, k) && m == RunEnd(Parse(text).kinds, k + 1)
    ensures |ProseBlocks(Parse(text), k, m)| == 1 && ParagraphAt(text, ProseBlocks(Parse(text), k, m)[0], k, m)
  {
    var doc := Parse(text);
    RunIsParagraph(text, k, m);
    ParsedOpen(text, k);
    DocumentLays(text);
    ParagraphFits(doc, text, k, m, NextBlock(doc.kinds, k));
  }

  lemma BlockIsSome(text: string, b: Block)
    requires b in DocumentBlocks(text)
    ensures (exists k: nat :: HeadingAt(text, b, k)) || (exists k: nat, m: nat :: ParagraphAt(text, b, k, m))
  {
    var doc := Parse(text);
    var k := BlockOrigin(doc, 0, b);
    if b.isHeading {
      HeadingAtLine(text, k);
    } else {
      ParagraphAtLine(text, k, RunEnd(doc.kinds, k + 1));
    }
  }

  lemma HeadingIsBlock(text: string, b: Block, k: nat)
    requires HeadingAt(text, b, k)
    ensures b in DocumentBlocks(text)
  {
    ParsedKind(text, k);
    HeadingAtLine(text, k);
    LineIsBlock(Parse(text), 0, k);
  }

  lemma ParagraphIsBlock(text: string, b: Block, k: nat, m: nat)
    requires ParagraphAt(text, b, k, m)
    ensures b in DocumentBlocks(text)
  {
    RunIsParagraph(text, k, m);
    ParagraphAtLine(text, k, m);
    LineIsBlock(Parse(text), 0, k);
  }

  /** The blocks are exactly the headings on heading lines and the paragraphs made of the runs of prose lines. */
  lemma BlocksExactly(text: string, b: Block)
    ensures b in DocumentBlocks(text) <==>
      (exists k: nat :: HeadingAt(text, b, k)) || (exists k: nat, m: nat :: ParagraphAt(text, b, k, m))
  {
    if b in DocumentBlocks(text) { BlockIsSome(text, b); }
    forall k: nat | HeadingAt(text, b, k) ensures b in DocumentBlocks(text) { HeadingIsBlock(text, b, k); }
    forall k: nat, m: nat | ParagraphAt(text, b, k, m) ensures b in DocumentBlocks(text) {
      ParagraphIsBlock(text, b, k, m);
    }
  }

  lemma {:induction false} OffsetsRise(lines: seq<string>, i: nat, j: nat)
    requires i < j <= |lines| && forall k :: 0 <= k < |lines| ==> lines[k] != ""
    ensures Offset(lines, i) < Offset(lines, j)
    decreases j
  {
    OffsetStep(lines, j - 1);
    if i < j - 1 { OffsetsRise(lines, i, j - 1); }
  }

  lemma HeadingHasBlock(text: string, k: nat)
    requires k < |SplitLines(text)| && HeadingLine(Marks(SplitLines(text)), k)
    ensures exists b :: b in DocumentBlocks(text) && b.isHeading && b.start == Offset(SplitLines(text), k)
  {
    ParsedKind(text, k);
    HeadingAtLine(text, k);
    HeadingIsBlock(text, HeadingBlock(Parse(text), k), k);
  }

  lemma BlockHasHeading(text: string, k: nat, b: Block)
    requires k < |SplitLines(text)|
    requires b in DocumentBlocks(text) && b.isHeading && b.start == Offset(SplitLines(text), k)
    ensures HeadingLine(Marks(SplitLines(text)), k)
  {
    var lines := SplitLines(text);
    BlockIsSome(text, b);
    var l: nat :| HeadingAt(text, b, l);
    if l < k { OffsetsRise(lines, l, k); }
    if k < l { OffsetsRise(lines, k, l); }
  }

  /**
   * A heading block starts at a line exactly if the line is no fence line, an even number of fence lines precede it,
   * and it reads as a heading: markup inside a fence is none.
   */
  lemma HeadingsExactly(text: string, k: nat)
    requires k < |SplitLines(text)|
    ensures var lines := SplitLines(text);
      (exists b :: b in DocumentBlocks(text) && b.isHeading && b.start == Offset(lines, k)) <==>
        !Read(lines[k]).isFence && FenceCount(Marks(lines), k) % 2 == 0 && Read(lines[k]).heading.Some?
  {
    var lines := SplitLines(text);
    if HeadingLine(Marks(lines), k) { HeadingHasBlock(text, k); }
    forall b | b in DocumentBlocks(text) && b.isHeading && b.start == Offset(lines, k)
      ensures HeadingLine(Marks(lines), k)
    {
      BlockHasHeading(text, k, b);
    }
  }

  /** All lines from an opening fence through its closing one lie in one paragraph, blank lines included. */
  lemma FencedTogether(text: string, i: nat, j: nat) returns (b: Block, k: nat, m: nat)
    requires var lines := SplitLines(text);
      && i <= j < |lines| && Read(lines[i]).isFence && FenceCount(Marks(lines), i) % 2 == 0
      && forall l :: i < l < j ==> !Read(lines[l]).isFence
    ensures k <= i && j < m <= |SplitLines(text)|
    ensures b in DocumentBlocks(text) && !b.isHeading && b.start == Offset(SplitLines(text), k)
    ensures b.text == ParagraphOf(SplitLines(text)[k..m])
  {
    var lines := SplitLines(text);
    var marks := Marks(lines);
    forall l | i <= l <= j ensures ProseLine(marks, l) { FencedIsProse(marks, i, l); }
    k, m := RunAround(marks, i, j + 1);
    b := Block(ParagraphOf(lines[k..m]), Offset(lines, k), Titles(OpenFrom(HeadingsAbove(marks, k), 0)), false);
    ParagraphIsBlock(text, b, k, m);
  }

  /** The blocks come in the order of their lines. */
  lemma {:induction false} StartsRise(doc: Document, k: nat)
    requires doc.Shaped() && k <= |doc.lines|
    requires forall i, j :: 0 <= i < j <= |doc.lines| ==> doc.offsets[i] < doc.offsets[j]
    ensures forall b :: b in BlocksFrom(doc, k) ==> doc.offsets[k] <= b.start
    ensures forall i, j :: 0 <= i < j < |BlocksFrom(doc, k)| ==>
      BlocksFrom(doc, k)[i].start < BlocksFrom(doc, k)[j].start
    decreases |doc.lines| - k
  {
    if k == |doc.lines| {
    } else {
      var m := LineEnd(doc.kinds, k);
      StartsRise(doc, m);
      assert doc.offsets[k] < doc.offsets[m];
    }
  }

  lemma BlocksInLineOrder(text: string)
    ensures var blocks := DocumentBlocks(text);
      forall i, j :: 0 <= i < j < |blocks| ==> blocks[i].start < blocks[j].start
  {
    var doc := Parse(text);
    DocumentFacts(text);
    forall i, j | 0 <= i < j <= |doc.lines| ensures doc.offsets[i] < doc.offsets[j] { OffsetsRise(doc.lines, i, j); }
    StartsRise(doc, 0);
  }
}
