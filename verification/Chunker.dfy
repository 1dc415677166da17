/** chunk_text: the three stages composed, and what the pipeline guarantees from source text to chunks. */
module Chunker {
  import opened Text
  import opened Blocks
  import opened Sizing
  import opened Greedy
  import opened Packing
  import opened BlockFacts
  import opened Markup
  import opened Offsets
  import opened Separators
  import opened ChunkFacts
  import opened Sections

  function DocumentBlocks(text: string): seq<Block> { BlocksFrom(Parse(text), 0) }

  function SizedBlocks(text: string, size: nat): seq<Block>
    requires size >= 1
  {
    Sized(DocumentBlocks(text), size)
  }

  /** The chunks of a text before rendering: their seeds and their blocks. */
  function TextGroups(text: string, size: nat, overlap: int): (groups: seq<Group>)
    requires size >= 1
    ensures NonEmpty(groups)
  {
    if Strip(text) == "" then [] else
      RulesHold(SizedBlocks(text, size), size, overlap);
      Groups(SizedBlocks(text, size), size, overlap)
  }

  function Chunks(text: string, size: nat, overlap: int): seq<Chunk>
    requires size >= 1
  {
    Render(TextGroups(text, size, overlap))
  }

  lemma RulesHold(blocks: seq<Block>, size: nat, overlap: int)
    ensures var groups := Groups(blocks, size, overlap);
      NonEmpty(groups) && PackedBy(groups, size, overlap) && AllItems(groups) == blocks
  {
    PackerIsGreedy(Groups(blocks, size, overlap), blocks, size, overlap);
    assert forall i :: 0 <= i < |Groups(blocks, size, overlap)| ==> GrownGroup(Groups(blocks, size, overlap)[i], size);
  }

  method ChunkText(text: string, size: nat, overlap: int) returns (chunks: seq<Chunk>)
    requires size >= 1
    ensures chunks == Chunks(text, size, overlap)
  {
    if Strip(text) == "" {
      return [];
    }
    var blocks := ParseBlocks(text);
    var sized := EnforceMaxSize(blocks, size);
    chunks := MergeIntoChunks(sized, size, overlap);
  }

  // ---- The document, with its facts ------------------------------------------------

  lemma DocumentFacts(text: string)
    ensures var doc := Parse(text);
      && doc.lines == SplitLines(text) && doc.open[0] == []
      && (forall i :: 0 <= i < |doc.lines| ==> doc.Moves(i) && doc.Reads(i))
      && (forall i :: 0 <= i <= |doc.lines| ==> doc.offsets[i] == Offset(doc.lines, i))
  {
    forall i | 0 <= i < |Parse(text).lines| ensures Parse(text).Moves(i) && Parse(text).Reads(i) {
      ParseMoves(text, i);
      ParseReads(text, i);
    }
  }

  lemma DocumentInk(text: string)
    ensures Ink(DocumentBlocks(text)) == NonSpace(text) && AllTrimmed(DocumentBlocks(text))
  {
    DocumentFacts(text);
    var doc := Parse(text);
    ParsingKeepsInk(doc, 0);
    BlocksTrimmed(doc, 0);
    assert doc.lines[0..] == doc.lines;
  }

  lemma SizedFacts(text: string, size: nat)
    requires size >= 1
    ensures Ink(SizedBlocks(text, size)) == NonSpace(text)
    ensures AllTrimmed(SizedBlocks(text, size)) && AllFit(SizedBlocks(text, size), size)
  {
    DocumentInk(text);
    SizingKeepsInk(DocumentBlocks(text), size);
    SizedShape(DocumentBlocks(text), size);
  }

  lemma TrimmedHasInk(blocks: seq<Block>)
    requires AllTrimmed(blocks) && blocks != []
    ensures Ink(blocks) != ""
  {
    assert blocks == [blocks[0]] + blocks[1..];
    InkConcat([blocks[0]], blocks[1..]);
    InkSingle(blocks[0]);
    assert Trimmed(blocks[0].text);
  }

  /**
   * A blank text has no blocks, so the early return agrees with the pipeline; the groups always pack the sized blocks.
   */
  lemma GroupFacts(text: string, size: nat, overlap: int)
    requires size >= 1
    ensures var groups := TextGroups(text, size, overlap);
      && PackedBy(groups, size, overlap) && AllItems(groups) == SizedBlocks(text, size)
      && AllGroupsTrimmed(groups)
      && (forall i :: 0 <= i < |groups| ==> AllFit(groups[i].items, size))
  {
    var groups, blocks := TextGroups(text, size, overlap), SizedBlocks(text, size);
    SizedFacts(text, size);
    RulesHold(blocks, size, overlap);
    if Strip(text) == "" {
      StripMeaning(text);
      NonSpaceOfSpaces(text);
      if blocks != [] { TrimmedHasInk(blocks); }
    }
    forall i, k | 0 <= i < |groups| && 0 <= k < |groups[i].items|
      ensures Trimmed(groups[i].items[k].text) && |groups[i].items[k].text| <= size
    {
      ItemsOfGroups(groups, i, k);
      MembersFit(blocks, size, groups[i].items[k]);
    }
  }

  lemma MembersFit(blocks: seq<Block>, size: nat, b: Block)
    requires AllTrimmed(blocks) && AllFit(blocks, size) && b in blocks
    ensures Trimmed(b.text) && |b.text| <= size
  {
    var i :| 0 <= i < |blocks| && blocks[i] == b;
  }

  // ---- End-to-end guarantees ---------------------------------------------------------

  function ChunkTexts(chunks: seq<Chunk>): seq<string> {
    seq(|chunks|, i requires 0 <= i < |chunks| => chunks[i].text)
  }

  /**
   * Chunking loses and invents nothing: the chunk bodies hold exactly the source's non-space characters, in order, for
   * every text, size and overlap; without overlap the chunk texts themselves do.
   */
  lemma ChunkingConserves(text: string, size: nat, overlap: int)
    requires size >= 1
    ensures NonSpace(Flatten(Bodies(TextGroups(text, size, overlap)))) == NonSpace(text)
    ensures overlap <= 0 ==> NonSpace(Flatten(ChunkTexts(Chunks(text, size, overlap)))) == NonSpace(text)
  {
    var groups := TextGroups(text, size, overlap);
    GroupFacts(text, size, overlap);
    SizedFacts(text, size);
    PackingKeepsInk(groups);
    if overlap <= 0 {
      forall i | 0 <= i < |groups| ensures FullText(groups[i]) == BodyText(groups[i].items) {
        NoOverlapNoSeed(groups, size, overlap, i);
      }
      assert ChunkTexts(Render(groups)) == Bodies(groups);
    }
  }

  /**
   * Sections never mix (every chunk is a run of headings and then prose of the one section it reports, a seed stays in
   * the section of the chunk it comes from, and only the last chunk can lack prose) exactly if every block that leaves
   * the section of the block before it without being a heading finds headings only in the open chunk, or neither joins
   * it nor takes an overlap from it.
   */
  lemma ChunkingKeepsSectionsExactly(text: string, size: nat, overlap: int)
    requires size >= 1
    ensures SectionsReported(TextGroups(text, size, overlap), Chunks(text, size, overlap)) <==>
      TurnsGuarded(TextGroups(text, size, overlap), size, overlap)
  {
    GroupFacts(text, size, overlap);
    KeptIsReported(TextGroups(text, size, overlap));
    SectionsKeptExactly(TextGroups(text, size, overlap), size, overlap);
  }

  lemma DocumentSteady(text: string)
    ensures Steady([], DocumentBlocks(text))
  {
    DocumentFacts(text);
    ParsedSteady(Parse(text), 0);
    assert Titles(Parse(text).open[0]) == [];
  }

  /** The blocks in question are the first pieces of headings longer than the chunk size. */
  lemma TurnsAreSplitHeadings(text: string, size: nat, overlap: int, i: nat, k: nat) returns (h: Block)
    requires size >= 1 && IsLater(TextGroups(text, size, overlap), i, k) && Turns(TextGroups(text, size, overlap), i, k)
    ensures h in DocumentBlocks(text) && h.isHeading && |h.text| > size
    ensures Split(h, size) != [] && TextGroups(text, size, overlap)[i].items[k] == Split(h, size)[0]
  {
    GroupFacts(text, size, overlap);
    DocumentInk(text);
    DocumentSteady(text);
    var j := Neighbours(TextGroups(text, size, overlap), i, k);
    h := TurnIsSplitHeading([], DocumentBlocks(text), size, j);
  }

  /** In particular sections never mix if no heading that is too long to stay whole changes the path. */
  lemma ChunkingKeepsSections(text: string, size: nat, overlap: int)
    requires size >= 1 && HeadingsSafe([], DocumentBlocks(text), size)
    ensures SectionsReported(TextGroups(text, size, overlap), Chunks(text, size, overlap))
  {
    var groups := TextGroups(text, size, overlap);
    GroupFacts(text, size, overlap);
    DocumentInk(text);
    DocumentSteady(text);
    SizedSteady([], DocumentBlocks(text), size);
    SteadyNeverTurns(groups, [], size, overlap);
    SectionsKeptExactly(groups, size, overlap);
    KeptIsReported(groups);
  }

  /** In particular when no heading line is longer than the chunk size. */
  lemma {:induction false} ShortHeadingsAreSafe(prior: seq<string>, blocks: seq<Block>, size: nat)
    requires forall i :: 0 <= i < |blocks| && blocks[i].isHeading ==> |blocks[i].text| <= size
    ensures HeadingsSafe(prior, blocks, size)
    decreases |blocks|
  {
    if blocks == [] {
    } else {
      ShortHeadingsAreSafe(blocks[0].path, blocks[1..], size);
    }
  }

  /**
   * What chunk i reports: its position; the path of block k, its first that is no heading or its last if all are; the
   * span from the start of its first block to the end of its last; and its seed, if any, in front of its blocks.
   */
  lemma ChunkReports(text: string, size: nat, overlap: int, i: nat) returns (k: nat)
    requires size >= 1 && i < |Chunks(text, size, overlap)|
    ensures |Chunks(text, size, overlap)| == |TextGroups(text, size, overlap)|
    ensures var chunk, g := Chunks(text, size, overlap)[i], TextGroups(text, size, overlap)[i];
      var body, last := Join("\n\n", Texts(g.items)), g.items[|g.items| - 1];
      && chunk.position == i && chunk.start == g.items[0].start && chunk.end == last.start + |last.text|
      && (chunk.text == if g.seed == "" then body else g.seed + "\n\n" + body)
      && k < |g.items| && chunk.headingPath == g.items[k].path
      && (forall j :: 0 <= j < k ==> g.items[j].isHeading) && (g.items[k].isHeading ==> k == |g.items| - 1)
  {
    k := ReportsOf(TextGroups(text, size, overlap)[i], i);
  }

  /** Every chunk is at most `size` long, save a run of headings with at most one block of prose behind it. */
  lemma ChunkingBounds(text: string, size: nat, overlap: int, i: nat)
    requires size >= 1 && i < |Chunks(text, size, overlap)|
    ensures var length, items := |Chunks(text, size, overlap)[i].text|, TextGroups(text, size, overlap)[i].items;
      || length <= size
      || exists h: nat :: |items| - 1 <= h <= |items| && h >= 1 && AllHeadings(items[..h])
                          && length <= |Join("\n\n", Texts(items[..h]))| + 2 + size
  {
    var groups := TextGroups(text, size, overlap);
    GroupFacts(text, size, overlap);
    SeedsTrimmed(groups, size, overlap, i);
    GroupBounded(groups[i], size);
    var h := HeadingRun(groups[i].items);
    assert AllHeadings(groups[i].items[..h]);
  }

  lemma ChunkIsGroup(text: string, size: nat, overlap: int, i: nat)
    requires size >= 1 && i < |Chunks(text, size, overlap)|
    ensures |Chunks(text, size, overlap)| == |TextGroups(text, size, overlap)|
    ensures Chunks(text, size, overlap)[i].text == FullText(TextGroups(text, size, overlap)[i])
  {
  }

  lemma FirstSeedIsEmpty(text: string, size: nat, overlap: int)
    requires size >= 1 && 0 < |TextGroups(text, size, overlap)|
    ensures TextGroups(text, size, overlap)[0].seed == ""
  {
    GroupFacts(text, size, overlap);
  }

  lemma SeedIsLinked(text: string, size: nat, overlap: int, i: nat, before: string)
    requires size >= 1 && 0 < i < |TextGroups(text, size, overlap)|
    requires before == FullText(TextGroups(text, size, overlap)[i - 1])
    ensures SeedOf(before, TextGroups(text, size, overlap)[i], size, overlap)
  {
    GroupFacts(text, size, overlap);
    SeedsTrimmed(TextGroups(text, size, overlap), size, overlap, i);
  }

  /** Every seed is a proper suffix of the previous chunk's text, within the overlap, that starts behind whitespace. */
  lemma ChunkingSeeds(text: string, size: nat, overlap: int, i: nat)
    requires size >= 1 && i < |Chunks(text, size, overlap)|
    ensures |Chunks(text, size, overlap)| == |TextGroups(text, size, overlap)|
    ensures i == 0 ==> TextGroups(text, size, overlap)[i].seed == ""
    ensures i > 0 ==> SeedOf(Chunks(text, size, overlap)[i - 1].text, TextGroups(text, size, overlap)[i], size, overlap)
  {
    if i == 0 {
      FirstSeedIsEmpty(text, size, overlap);
    } else {
      ChunkIsGroup(text, size, overlap, i - 1);
      SeedIsLinked(text, size, overlap, i, Chunks(text, size, overlap)[i - 1].text);
    }
  }

  lemma SeedIsExact(text: string, size: nat, overlap: int, i: nat, before: string)
    requires size >= 1 && 0 < i < |TextGroups(text, size, overlap)|
    requires before == FullText(TextGroups(text, size, overlap)[i - 1])
    ensures SeedExactly(before, TextGroups(text, size, overlap)[i], size, overlap)
  {
    GroupFacts(text, size, overlap);
    GroupSeedExactly(TextGroups(text, size, overlap), size, overlap, i);
  }

  /** And which suffix of it: the overlap snapped to a clean start, empty only where there is none. */
  lemma SeedsExactly(text: string, size: nat, overlap: int, i: nat, before: Chunk)
    requires size >= 1 && 0 < i < |Chunks(text, size, overlap)| && before == Chunks(text, size, overlap)[i - 1]
    ensures i < |TextGroups(text, size, overlap)|
    ensures SeedExactly(before.text, TextGroups(text, size, overlap)[i], size, overlap)
  {
    ChunkIsGroup(text, size, overlap, i - 1);
    SeedIsExact(text, size, overlap, i, before.text);
  }

  /** Where chunks end: every block fits behind those before it in its chunk, and the block behind a chunk does not. */
  lemma ChunkEnds(text: string, size: nat, overlap: int, i: nat)
    requires size >= 1 && i < |TextGroups(text, size, overlap)|
    ensures var groups := TextGroups(text, size, overlap); var g := groups[i];
      && (forall k :: 1 <= k < |g.items| ==> FitsBehind(g, k, g.items[k], size))
      && (i + 1 < |groups| ==> !FitsBehind(g, |g.items|, groups[i + 1].items[0], size))
  {
    GroupFacts(text, size, overlap);
    GroupEnds(TextGroups(text, size, overlap), size, overlap, i);
  }

  /**
   * A block's heading path lists, in document order and with strictly increasing levels, exactly the headings outside
   * fences up to its first line that no later one of them closes by an equal or smaller level; a heading's own path
   * includes it.
   */
  lemma BlockPaths(text: string, b: Block) returns (line: nat, upto: nat)
    requires b in DocumentBlocks(text)
    ensures var lines := SplitLines(text); var marks := Marks(lines);
      && line < |lines| && b.start == Offset(lines, line)
      && upto == (if b.isHeading then line + 1 else line)
      && (b.isHeading <==> HeadingLine(marks, line))
      && var hs := HeadingsAbove(marks, upto); var open := OpenFrom(hs, 0);
         && b.path == Titles(open) && Increasing(open)
         && (forall h :: h in open <==> exists i :: 0 <= i < |hs| && hs[i] == h && IsOpen(hs, i))
  {
    DocumentFacts(text);
    line := BlockOrigin(Parse(text), 0, b);
    upto := if b.isHeading then line + 1 else line;
    PathMeaning(text, upto);
    KindIs(Marks(SplitLines(text)), line);
    HeadingsAgree(Marks(SplitLines(text)), upto);
  }

  lemma MembersTrimmed(blocks: seq<Block>, b: Block)
    requires AllTrimmed(blocks) && b in blocks
    ensures Trimmed(b.text)
  {
    var i :| 0 <= i < |blocks| && blocks[i] == b;
  }

  // ---- Where chunks and pieces lie in the source ---------------------------------------

  lemma DocumentLays(text: string)
    ensures Lays(Parse(text), text)
  {
    var doc := Parse(text);
    DocumentFacts(text);
    SplitSingly(text);
    forall k: nat | Begins(doc.kinds, k) ensures Strip(doc.lines[k]) != "" { BeginsWithInk(text, k); }
  }

  /** The first line of a run of body lines opens a fence or holds ink. */
  lemma FirstOfRun(marks: seq<Mark>, k: nat)
    requires k < |marks| && Kind(marks, k) == Body && (k > 0 ==> Kind(marks, k - 1) != Body)
    ensures marks[k].isFence || marks[k].bare != ""
  {
    if k > 0 { assert !marks[k - 1].isFence && !InFence(marks, k - 1); }
  }

  lemma BeginsWithInk(text: string, k: nat)
    requires Begins(Parse(text).kinds, k)
    ensures Strip(Parse(text).lines[k]) != ""
  {
    FirstOfRun(Marks(Parse(text).lines), k);
  }

  lemma HeadingsAreLong(text: string, b: Block)
    requires b in DocumentBlocks(text) && b.isHeading
    ensures |b.text| > 1
  {
    var doc := Parse(text);
    var k := BlockOrigin(doc, 0, b);
    var marks := Marks(doc.lines);
    assert doc.kinds[k] == Kind(marks, k) && marks[k] == Read(doc.lines[k]);
  }

  lemma {:induction false} ProseAtSizeOne(blocks: seq<Block>)
    requires AllTrimmed(blocks) && forall b :: b in blocks && b.isHeading ==> |b.text| > 1
    ensures forall p :: p in Sized(blocks, 1) ==> !p.isHeading
  {
    if blocks == [] {
    } else {
      if |blocks[0].text| > 1 { SplitShape(blocks[0], 1); }
      assert blocks[0] in blocks;
      ProseAtSizeOne(blocks[1..]);
    }
  }

  /** What the groups of a text have to do with its blocks. */
  ghost predicate GroupsOf(groups: seq<Group>, blocks: seq<Block>, size: nat, overlap: int)
    requires size >= 1
  {
    && NonEmpty(groups) && AllGroupsTrimmed(groups) && PackedBy(groups, size, overlap)
    && AllTrimmed(blocks) && AllItems(groups) == Sized(blocks, size)
  }

  lemma TextGroupsOf(text: string, size: nat, overlap: int)
    requires size >= 1
    ensures GroupsOf(TextGroups(text, size, overlap), DocumentBlocks(text), size, overlap)
  {
    DocumentInk(text);
    GroupFacts(text, size, overlap);
  }

  lemma ChunksFollow(groups: seq<Group>, blocks: seq<Block>, size: nat, overlap: int, hi: nat)
    requires size >= 1 && GroupsOf(groups, blocks, size, overlap)
    ensures InOrder(blocks, 0, hi) ==> SpansInOrder(groups, 0, hi)
  {
    if InOrder(blocks, 0, hi) { OrderedChunks(groups, blocks, size, hi); }
  }

  lemma ChunksFollowBlocks(text: string, size: nat, overlap: int)
    requires size >= 1
    ensures InOrder(DocumentBlocks(text), 0, |text|) ==> SpansInOrder(TextGroups(text, size, overlap), 0, |text|)
  {
    TextGroupsOf(text, size, overlap);
    ChunksFollow(TextGroups(text, size, overlap), DocumentBlocks(text), size, overlap, |text|);
  }

  lemma BlocksFollow(groups: seq<Group>, blocks: seq<Block>, overlap: int, hi: nat)
    requires GroupsOf(groups, blocks, 1, overlap) && forall b :: b in blocks && b.isHeading ==> |b.text| > 1
    ensures SpansInOrder(groups, 0, hi) ==> InOrder(blocks, 0, hi)
  {
    if SpansInOrder(groups, 0, hi) {
      ProseAtSizeOne(blocks);
      SizeOneShowsOrder(groups, blocks, overlap, hi);
    }
  }

  lemma BlocksFollowChunks(text: string)
    ensures SpansInOrder(TextGroups(text, 1, 0), 0, |text|) ==> InOrder(DocumentBlocks(text), 0, |text|)
  {
    TextGroupsOf(text, 1, 0);
    forall b | b in DocumentBlocks(text) && b.isHeading ensures |b.text| > 1 { HeadingsAreLong(text, b); }
    BlocksFollow(TextGroups(text, 1, 0), DocumentBlocks(text), 0, |text|);
  }

  lemma BlocksInOrderExactly(text: string)
    ensures InOrder(DocumentBlocks(text), 0, |text|) <==> AllRoomy(Parse(text), 0)
  {
    var doc := Parse(text);
    DocumentLays(text);
    assert doc.lines[..0] == [];
    BlocksInOrder(doc, text, 0);
  }

  /** The chunks' recorded spans are non-empty, inside 0..hi, in order and disjoint. */
  predicate ChunksInOrder(chunks: seq<Chunk>, hi: nat) {
    && (forall i :: 0 <= i < |chunks| ==> chunks[i].start < chunks[i].end <= hi)
    && (forall i, j :: 0 <= i < j < |chunks| ==> chunks[i].end <= chunks[j].start)
  }

  lemma RenderedInOrder(groups: seq<Group>, hi: nat)
    requires NonEmpty(groups)
    ensures SpansInOrder(groups, 0, hi) <==> ChunksInOrder(Render(groups), hi)
  {
    var chunks := Render(groups);
    assert forall i :: 0 <= i < |groups| ==>
      chunks[i].start == groups[i].items[0].start && chunks[i].end == EndOf(groups[i].items);
  }

  /**
   * The recorded spans of the chunks are non-empty, inside the source, in order and disjoint, whatever the size and the
   * overlap, exactly if in every paragraph the separators that are no newlines, counted up to its last ink, do not
   * outnumber the whitespace around its ink up to the next block.
   */
  lemma ChunkSpansExactly(text: string)
    ensures (forall size: nat, overlap: int | size >= 1 :: ChunksInOrder(Chunks(text, size, overlap), |text|))
            <==> AllRoomy(Parse(text), 0)
  {
    BlocksInOrderExactly(text);
    if AllRoomy(Parse(text), 0) {
      forall size: nat, overlap: int | size >= 1 ensures ChunksInOrder(Chunks(text, size, overlap), |text|) {
        ChunksFollowBlocks(text, size, overlap);
        RenderedInOrder(TextGroups(text, size, overlap), |text|);
      }
    }
    BlocksFollowChunks(text);
    RenderedInOrder(TextGroups(text, 1, 0), |text|);
    if !AllRoomy(Parse(text), 0) { assert !ChunksInOrder(Chunks(text, 1, 0), |text|); }
  }

  /** In particular if the only separators are "\n" and "\r\n". */
  lemma ChunkSpans(text: string, size: nat, overlap: int)
    requires size >= 1 && NewlinesOnly(text)
    ensures ChunksInOrder(Chunks(text, size, overlap), |text|)
  {
    var doc := Parse(text);
    DocumentLays(text);
    NewlinesLeaveNoneBare(text);
    forall k: nat | Begins(doc.kinds, k) ensures RoomyAt(doc, k) {
      NewlinesAreRoomy(doc.lines, k, NextBlock(doc.kinds, k));
    }
    BlocksInOrderExactly(text);
    ChunksFollowBlocks(text, size, overlap);
    RenderedInOrder(TextGroups(text, size, overlap), |text|);
  }

  /**
   * Piece p of b occurs verbatim in the source at its recorded start, shifted by the indentation its block starts with.
   */
  predicate PieceOccurs(text: string, b: Block, p: Block)
    requires b.start <= |text|
  {
    OccursAt(text, p.text, p.start + (SkipSpace(text, b.start) - b.start))
  }

  /**
   * All pieces of a block, whatever the size, occur in the source where they say exactly if the block is a heading or a
   * paragraph in which no separator before its last ink is anything but a newline.
   */
  lemma PiecesOccurExactly(text: string, b: Block) returns (line: nat)
    requires b in DocumentBlocks(text)
    ensures line < |Parse(text).lines| && StartsAt(Parse(text), b, line) && b.start <= |text|
    ensures (forall size: nat, p | size >= 1 && p in Split(b, size) :: PieceOccurs(text, b, p)) <==>
      b.isHeading || BareInside(Parse(text).lines[line..RunEnd(Parse(text).kinds, line + 1)]) == 0
  {
    var doc := Parse(text);
    DocumentLays(text);
    DocumentInk(text);
    MembersTrimmed(DocumentBlocks(text), b);
    line := BlockOrigin(doc, 0, b);
    LinesSource(doc, text, line, line);
    BlockOccurs(doc, text, b, line);
    PiecesOfSited(text, b);
  }

  lemma PiecesOfSited(text: string, b: Block)
    requires Trimmed(b.text) && b.start <= |text|
    ensures (forall size: nat, p | size >= 1 && p in Split(b, size) :: PieceOccurs(text, b, p)) <==> Sited(text, b)
  {
    assert b in Split(b, |b.text|);
    if !Sited(text, b) {
      assert !PieceOccurs(text, b, b);
    } else {
      forall size: nat, p | size >= 1 && p in Split(b, size) ensures PieceOccurs(text, b, p) {
        SplitSited(b, size);
        PieceInSource(text, b, p);
      }
    }
  }

  // ---- Where word boundaries are not kept ------------------------------------------------

  predicate InsideWord(text: string, p: nat) {
    0 < p < |text| && !IsSpace(text[p - 1]) && !IsSpace(text[p])
  }

  /**
   * The cut of an oversized text falls inside a word exactly when its window holds no sentence end and no space
   * character behind its first place, and the text runs on without whitespace where the window stops. Other
   * whitespace (a newline, a tab) does not save the word.
   */
  lemma CutInsideWord(text: string, pos: nat, size: nat)
    requires size >= 1 && pos + size < |text|
    ensures var w := text[pos..pos + size];
      InsideWord(text, pos + CutPoint(w)) <==>
        && (forall j: nat :: j < size ==> !EndsSentence(w, j))
        && (forall j :: 0 < j < size ==> w[j] != ' ')
        && InsideWord(text, pos + size)
  {
    var w := text[pos..pos + size];
    var cut := CutPoint(w);
    CutPointMeaning(w);
    if cut < size { assert w[cut] == text[pos + cut] && IsSpace(w[cut]); }
  }
}
