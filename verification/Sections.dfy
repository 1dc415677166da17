/** Which chunks hold one section only: exactly when packing keeps sections apart. */
module Sections {
  import opened Text
  import opened Blocks
  import opened Sizing
  import opened Greedy
  import opened Packing
  import opened BlockFacts
  import opened ChunkFacts

  /** A run of headings, then prose that all shares the path the chunk reports. */
  predicate OneSection(g: Group)
    requires g.items != []
  {
    forall i :: HeadingRun(g.items) <= i < |g.items| ==>
      !g.items[i].isHeading && g.items[i].path == Situating(g.items).path
  }

  /** Sections never mix: not inside a chunk, not through a seed; and every chunk but the last holds prose. */
  predicate SectionsKept(groups: seq<Group>)
    requires NonEmpty(groups)
  {
    && (forall i :: 0 <= i < |groups| ==> OneSection(groups[i]))
    && (forall i :: 0 < i < |groups| && groups[i].seed != "" ==>
          Situating(groups[i].items).path == Situating(groups[i - 1].items).path)
    && (forall i :: 0 <= i < |groups| - 1 ==> !AllHeadings(groups[i].items))
  }

  // ---- The condition -------------------------------------------------------------

  /** Block k of chunk i has a block before it. */
  predicate IsLater(groups: seq<Group>, i: nat, k: nat) {
    i < |groups| && k < |groups[i].items| && (i > 0 || k > 0)
  }

  /** The block before block k of chunk i. */
  function Before(groups: seq<Group>, i: nat, k: nat): Block
    requires NonEmpty(groups) && IsLater(groups, i, k)
  {
    if k > 0 then groups[i].items[k - 1] else groups[i - 1].items[|groups[i - 1].items| - 1]
  }

  /** The chunk that is open when block k of chunk i arrives. */
  function OpenAt(groups: seq<Group>, i: nat, k: nat): Group
    requires IsLater(groups, i, k)
  {
    if k > 0 then Run(groups[i].seed, groups[i].items[..k]) else groups[i - 1]
  }

  /** The block is no heading, and yet it leaves the section of the block before it. */
  predicate Turns(groups: seq<Group>, i: nat, k: nat)
    requires NonEmpty(groups) && IsLater(groups, i, k)
  {
    !groups[i].items[k].isHeading && groups[i].items[k].path != Before(groups, i, k).path
  }

  /** A block finds headings only in the open chunk, or opens a new chunk without overlap. */
  predicate Guarded(open: Group, b: Block, size: nat, overlap: int) {
    AllHeadings(open.items) || (!Joins(open.seed, open.items, b, size) && SeedFor(open, b, size, overlap) == "")
  }

  predicate GuardedAt(groups: seq<Group>, i: nat, k: nat, size: nat, overlap: int)
    requires NonEmpty(groups) && IsLater(groups, i, k)
  {
    Turns(groups, i, k) ==> Guarded(OpenAt(groups, i, k), groups[i].items[k], size, overlap)
  }

  /** The packer keeps every turn apart from the section before it. */
  ghost predicate TurnsGuarded(groups: seq<Group>, size: nat, overlap: int)
    requires NonEmpty(groups)
  {
    forall i: nat, k: nat :: IsLater(groups, i, k) ==> GuardedAt(groups, i, k, size, overlap)
  }

  // ---- It is exact -----------------------------------------------------------------

  lemma ProseBehindHeadings(g: Group, size: nat, i: nat)
    requires GrownGroup(g, size) && HeadingRun(g.items) <= i < |g.items|
    ensures !g.items[i].isHeading
  {
    var h := HeadingRun(g.items);
    if i > h {
      assert BlockJoins(g, i, size);
      assert g.items[..i][h] == g.items[h];
    }
  }

  lemma {:induction false} SituatingIs(blocks: seq<Block>)
    requires blocks != []
    ensures Situating(blocks) == var h := HeadingRun(blocks); if h < |blocks| then blocks[h] else blocks[|blocks| - 1]
  {
    if |blocks| > 1 && blocks[0].isHeading { SituatingIs(blocks[1..]); }
  }

  /** Inside a chunk, a block that joins prose cannot be guarded, so it must not turn. */
  lemma JoinedProse(groups: seq<Group>, i: nat, k: nat, size: nat, overlap: int)
    requires NonEmpty(groups) && i < |groups| && GrownGroup(groups[i], size)
    requires HeadingRun(groups[i].items) < k < |groups[i].items|
    ensures !groups[i].items[k].isHeading
    ensures GuardedAt(groups, i, k, size, overlap) <==> groups[i].items[k].path == groups[i].items[k - 1].path
  {
    var g, h := groups[i], HeadingRun(groups[i].items);
    ProseBehindHeadings(g, size, k);
    assert BlockJoins(g, k, size);
    assert !AllHeadings(g.items[..k]) by { assert g.items[..k][h] == g.items[h]; }
  }

  lemma {:induction false} ProseShares(groups: seq<Group>, i: nat, k: nat, size: nat, overlap: int)
    requires NonEmpty(groups) && i < |groups| && GrownGroup(groups[i], size) && TurnsGuarded(groups, size, overlap)
    requires HeadingRun(groups[i].items) <= k < |groups[i].items|
    ensures !groups[i].items[k].isHeading && groups[i].items[k].path == Situating(groups[i].items).path
    decreases k
  {
    SituatingIs(groups[i].items);
    if k > HeadingRun(groups[i].items) {
      assert IsLater(groups, i, k);
      JoinedProse(groups, i, k, size, overlap);
      ProseShares(groups, i, k - 1, size, overlap);
    }
  }

  /** Every chunk but the last holds prose. */
  lemma ProseBeforeNext(groups: seq<Group>, size: nat, overlap: int, i: nat)
    requires PackedBy(groups, size, overlap) && 0 < i < |groups|
    ensures !AllHeadings(groups[i - 1].items)
  {
    assert LinkedGroups(groups, i, size, overlap);
  }

  lemma LastIsProse(g: Group)
    requires !AllHeadings(g.items)
    ensures HeadingRun(g.items) < |g.items|
  {
    assert g.items[..|g.items|] == g.items;
  }

  /** A seeded chunk starts in its own section, and the one before it ended in its own. */
  lemma SeededPaths(groups: seq<Group>, i: nat, size: nat, overlap: int)
    requires PackedBy(groups, size, overlap) && NonEmpty(groups) && 0 < i < |groups|
    requires OneSection(groups[i - 1])
    ensures !groups[i].items[0].isHeading ==> Situating(groups[i].items) == groups[i].items[0]
    ensures groups[i].seed != "" ==> !groups[i].items[0].isHeading
    ensures Before(groups, i, 0).path == Situating(groups[i - 1].items).path
  {
    assert LinkedGroups(groups, i, size, overlap);
    LastIsProse(groups[i - 1]);
  }

  /** A chunk's first block is guarded exactly if it does not turn or the chunk has no seed. */
  lemma OpeningIsGuarded(groups: seq<Group>, i: nat, size: nat, overlap: int)
    requires PackedBy(groups, size, overlap) && NonEmpty(groups) && 0 < i < |groups|
    ensures GuardedAt(groups, i, 0, size, overlap) <==> (Turns(groups, i, 0) ==> groups[i].seed == "")
  {
    assert LinkedGroups(groups, i, size, overlap);
  }

  lemma GuardedSections(groups: seq<Group>, size: nat, overlap: int)
    requires PackedBy(groups, size, overlap) && NonEmpty(groups) && TurnsGuarded(groups, size, overlap)
    ensures SectionsKept(groups)
  {
    forall i | 0 <= i < |groups| ensures OneSection(groups[i]) {
      forall k | HeadingRun(groups[i].items) <= k < |groups[i].items|
        ensures !groups[i].items[k].isHeading && groups[i].items[k].path == Situating(groups[i].items).path
      {
        ProseShares(groups, i, k, size, overlap);
      }
    }
    forall i | 0 <= i < |groups| - 1 ensures !AllHeadings(groups[i].items) {
      ProseBeforeNext(groups, size, overlap, i + 1);
    }
    forall i | 0 < i < |groups| && groups[i].seed != ""
      ensures Situating(groups[i].items).path == Situating(groups[i - 1].items).path
    {
      SeededPaths(groups, i, size, overlap);
      assert IsLater(groups, i, 0);
      OpeningIsGuarded(groups, i, size, overlap);
    }
  }

  lemma KeptIsGuarded(groups: seq<Group>, i: nat, k: nat, size: nat, overlap: int)
    requires PackedBy(groups, size, overlap) && NonEmpty(groups) && SectionsKept(groups) && IsLater(groups, i, k)
    ensures GuardedAt(groups, i, k, size, overlap)
  {
    var items := groups[i].items;
    if k == 0 {
      SeededPaths(groups, i, size, overlap);
      OpeningIsGuarded(groups, i, size, overlap);
    } else if k > HeadingRun(items) {
      JoinedProse(groups, i, k, size, overlap);
    } else if !items[k].isHeading {
      assert k == HeadingRun(items);
    }
  }

  /**
   * The packer keeps sections apart exactly if every block that turns without being a heading meets the packer's guard:
   * the open chunk holds headings only, or the block does not join it and takes no overlap from it.
   */
  lemma SectionsKeptExactly(groups: seq<Group>, size: nat, overlap: int)
    requires PackedBy(groups, size, overlap) && NonEmpty(groups)
    ensures SectionsKept(groups) <==> TurnsGuarded(groups, size, overlap)
  {
    if SectionsKept(groups) {
      forall i: nat, k: nat | IsLater(groups, i, k) ensures GuardedAt(groups, i, k, size, overlap) {
        KeptIsGuarded(groups, i, k, size, overlap);
      }
    }
    if TurnsGuarded(groups, size, overlap) { GuardedSections(groups, size, overlap); }
  }

  // ---- What the chunks report ------------------------------------------------------------

  /**
   * A chunk holds its seed, if it has one, and its blocks; it spans from the start of the first to the end of the last,
   * and reports the path of block k: its first block that is no heading, or its last if all are headings.
   */
  lemma ReportsOf(g: Group, position: nat) returns (k: nat)
    requires g.items != []
    ensures var chunk, body, last := ChunkOf(g, position), Join("\n\n", Texts(g.items)), g.items[|g.items| - 1];
      && chunk.position == position && chunk.start == g.items[0].start && chunk.end == last.start + |last.text|
      && chunk.text == if g.seed == "" then body else g.seed + "\n\n" + body
    ensures k < |g.items| && ChunkOf(g, position).headingPath == g.items[k].path
    ensures (forall j :: 0 <= j < k ==> g.items[j].isHeading) && (g.items[k].isHeading ==> k == |g.items| - 1)
  {
    var h := HeadingRun(g.items);
    SituatingIs(g.items);
    k := if h < |g.items| then h else |g.items| - 1;
    forall j | 0 <= j < k ensures g.items[j].isHeading { assert g.items[..h][j] == g.items[j]; }
  }

  /** Block k of a chunk is a heading, or it and all blocks behind it are prose under the path the chunk reports. */
  predicate ReportedAt(g: Group, chunk: Chunk, k: nat)
    requires k < |g.items|
  {
    g.items[k].isHeading
    || (g.items[k].path == chunk.headingPath && forall j :: k <= j < |g.items| ==> !g.items[j].isHeading)
  }

  predicate HasProse(g: Group) { exists b :: b in g.items && !b.isHeading }

  /** A chunk is a run of headings and then prose of the section it reports. */
  predicate GroupReported(g: Group, chunk: Chunk) { forall k: nat :: k < |g.items| ==> ReportedAt(g, chunk, k) }

  /**
   * Sections never mix: every chunk is a run of headings and then prose of the one section it reports, a seed stays in
   * the section of the chunk it comes from, and only the last chunk can lack prose.
   */
  predicate SectionsReported(groups: seq<Group>, chunks: seq<Chunk>)
    requires |chunks| == |groups|
  {
    && (forall i :: 0 <= i < |groups| ==> GroupReported(groups[i], chunks[i]))
    && (forall i :: 0 < i < |groups| && groups[i].seed != "" ==> chunks[i].headingPath == chunks[i - 1].headingPath)
    && (forall i :: 0 <= i < |groups| - 1 ==> HasProse(groups[i]))
  }

  lemma OneSectionReported(g: Group, position: nat)
    requires g.items != []
    ensures OneSection(g) <==> GroupReported(g, ChunkOf(g, position))
  {
    var h, chunk := HeadingRun(g.items), ChunkOf(g, position);
    forall k: nat | k < h ensures g.items[k].isHeading { assert g.items[..h][k] == g.items[k]; }
    if h < |g.items| && GroupReported(g, chunk) {
      assert ReportedAt(g, chunk, h);
      forall k | h <= k < |g.items| ensures !g.items[k].isHeading && g.items[k].path == Situating(g.items).path {
        assert ReportedAt(g, chunk, k);
      }
    }
  }

  lemma ProseIsThere(g: Group)
    ensures !AllHeadings(g.items) <==> HasProse(g)
  {
    if !AllHeadings(g.items) {
      var i :| 0 <= i < |g.items| && !g.items[i].isHeading;
      assert g.items[i] in g.items;
    }
  }

  /** Sections are kept among the blocks exactly if the chunks report them so. */
  lemma KeptIsReported(groups: seq<Group>)
    requires NonEmpty(groups)
    ensures SectionsKept(groups) <==> SectionsReported(groups, Render(groups))
  {
    var chunks := Render(groups);
    forall i: nat | i < |groups|
      ensures OneSection(groups[i]) <==> GroupReported(groups[i], chunks[i])
      ensures chunks[i].headingPath == Situating(groups[i].items).path
      ensures !AllHeadings(groups[i].items) <==> HasProse(groups[i])
    {
      OneSectionReported(groups[i], i);
      ProseIsThere(groups[i]);
    }
  }

  // ---- Which blocks turn ----------------------------------------------------------------

  lemma {:induction false} SteadyAt(prior: seq<string>, blocks: seq<Block>, i: nat)
    requires Steady(prior, blocks) && i < |blocks| && !blocks[i].isHeading
    ensures blocks[i].path == if i == 0 then prior else blocks[i - 1].path
    decreases |blocks|
  {
    if i == 0 {
    } else {
      SteadyAt(blocks[0].path, blocks[1..], i - 1);
    }
  }

  /** Neighbours in the chunks are neighbours among all blocks. */
  lemma {:induction false} Neighbours(groups: seq<Group>, i: nat, k: nat) returns (j: nat)
    requires NonEmpty(groups) && IsLater(groups, i, k)
    ensures 0 < j < |AllItems(groups)|
    ensures AllItems(groups)[j] == groups[i].items[k] && AllItems(groups)[j - 1] == Before(groups, i, k)
    decreases |groups|
  {
    var first, rest := groups[0].items, groups[1..];
    if i == 0 {
      j := k;
    } else if i == 1 && k == 0 {
      j := |first|;
      assert AllItems(rest)[0] == rest[0].items[0];
    } else {
      j := Neighbours(rest, i - 1, k);
      j := |first| + j;
    }
  }

  /** Where paths change at headings only, nothing turns. */
  lemma SteadyNeverTurns(groups: seq<Group>, prior: seq<string>, size: nat, overlap: int)
    requires NonEmpty(groups) && Steady(prior, AllItems(groups))
    ensures TurnsGuarded(groups, size, overlap)
  {
    forall i: nat, k: nat | IsLater(groups, i, k) ensures !Turns(groups, i, k) {
      var j := Neighbours(groups, i, k);
      if !groups[i].items[k].isHeading { SteadyAt(prior, AllItems(groups), j); }
    }
  }

  lemma SplitPaths(b: Block, size: nat)
    requires size >= 1 && Trimmed(b.text)
    ensures Split(b, size) != [] && forall i :: 0 <= i < |Split(b, size)| ==> Split(b, size)[i].path == b.path
  {
    if |b.text| > size {
      SplitShape(b, size);
      PiecesExist(b, size);
    }
  }

  /** Block j is no heading, and yet its path is not that of the block before it, `prior` at first. */
  predicate TurnsAt(prior: seq<string>, blocks: seq<Block>, j: nat)
    requires j < |blocks|
  {
    !blocks[j].isHeading && blocks[j].path != if j == 0 then prior else blocks[j - 1].path
  }

  lemma FirstTurn(prior: seq<string>, b: Block, size: nat, j: nat)
    requires size >= 1 && Trimmed(b.text) && (!b.isHeading ==> b.path == prior) && j < |Split(b, size)|
    requires TurnsAt(prior, Split(b, size), j)
    ensures j == 0 && b.isHeading && |b.text| > size
  {
    SplitPaths(b, size);
  }

  lemma TurnsInPart(prior: seq<string>, path: seq<string>, pieces: seq<Block>, rest: seq<Block>, j: nat)
    requires pieces != [] && pieces[|pieces| - 1].path == path && j < |pieces + rest|
    ensures j < |pieces| ==> (TurnsAt(prior, pieces + rest, j) <==> TurnsAt(prior, pieces, j))
    ensures j >= |pieces| ==> (TurnsAt(prior, pieces + rest, j) <==> TurnsAt(path, rest, j - |pieces|))
  {
  }

  /** Among pieces, only the first piece of a heading that had to be split turns. */
  lemma {:induction false} TurnIsSplitHeading(prior: seq<string>, blocks: seq<Block>, size: nat, j: nat)
    returns (h: Block)
    requires size >= 1 && AllTrimmed(blocks) && Steady(prior, blocks) && j < |Sized(blocks, size)|
    requires TurnsAt(prior, Sized(blocks, size), j)
    ensures h in blocks && h.isHeading && |h.text| > size
    ensures Split(h, size) != [] && Sized(blocks, size)[j] == Split(h, size)[0]
    decreases |blocks|
  {
    var b, pieces, rest := blocks[0], Split(blocks[0], size), Sized(blocks[1..], size);
    h := b;
    SplitPaths(b, size);
    TurnsInPart(prior, b.path, pieces, rest, j);
    if j < |pieces| {
      FirstTurn(prior, b, size, j);
    } else {
      h := TurnIsSplitHeading(b.path, blocks[1..], size, j - |pieces|);
    }
  }
}
