/** Stage three of the chunker: packing blocks into chunks, with an overlap seed inside a section. */
module Packing {
  import opened Basics
  import opened Text
  import opened Blocks
  import opened Greedy
  import opened Sizing

  datatype Chunk = Chunk(text: string, position: nat, headingPath: seq<string>, start: nat, end: nat)

  /** A chunk before rendering: the overlap it opens with and the blocks it is made of. */
  type Group = Run<string, Block>

  function BodyText(blocks: seq<Block>): string { Join("\n\n", Texts(blocks)) }

  function FullText(g: Group): string {
    if g.seed == "" then BodyText(g.items) else g.seed + "\n\n" + BodyText(g.items)
  }

  predicate AllHeadings(blocks: seq<Block>) { forall i :: 0 <= i < |blocks| ==> blocks[i].isHeading }

  function FirstBlank(s: string, i: nat): (n: nat)
    requires i <= |s|
    ensures i <= n <= |s| && (n < |s| ==> s[n] == ' ')
    ensures forall j :: i <= j < n ==> s[j] != ' '
    decreases |s| - i
  {
    if i == |s| || s[i] == ' ' then i else FirstBlank(s, i + 1)
  }

  /**
   * The trailing slice that seeds the next chunk: behind its first sentence end, else behind its first space, else
   * none.
   */
  function OverlapTail(text: string, budget: int): string {
    if budget <= 0 || text == "" then "" else
      var tail := if budget < |text| then text[|text| - budget..] else text;
      var i := NextSentence(tail, 0);
      if i < |tail| then Strip(tail[SkipSpace(tail, i)..])
      else
        var space := FirstBlank(tail, 0);
        if space < |tail| then Strip(tail[space + 1..]) else ""
  }

  function Min(a: int, b: int): int { if a <= b then a else b }

  /** Whether block b joins a chunk that holds `current` so far. */
  predicate Joins(seed: string, current: seq<Block>, b: Block, size: nat) {
    || AllHeadings(current)
    || (!b.isHeading && |seed| + |BodyText(current + [b])| + 2 <= size)
  }

  /** The seed of the chunk that b opens behind g. */
  function SeedFor(g: Group, b: Block, size: nat, overlap: int): string {
    if b.isHeading then "" else OverlapTail(FullText(g), Min(overlap, size - |b.text| - 2))
  }

  /** The chunker's policy: a run of headings takes anything, other chunks only prose that fits with its seed. */
  function ChunkPolicy(size: nat, overlap: int): Policy<string, Block> {
    Policy((seed, current, b) => Joins(seed, current, b, size), (g, b) => SeedFor(g, b, size, overlap))
  }

  function Groups(blocks: seq<Block>, size: nat, overlap: int): seq<Group> {
    Pack(ChunkPolicy(size, overlap), "", blocks)
  }

  // ---- Rendering --------------------------------------------------------------

  /** The first block of prose, or the last heading of a chunk without prose. */
  function Situating(blocks: seq<Block>): Block
    requires blocks != []
  {
    if |blocks| == 1 || !blocks[0].isHeading then blocks[0] else Situating(blocks[1..])
  }

  predicate NonEmpty(groups: seq<Group>) { forall i :: 0 <= i < |groups| ==> groups[i].items != [] }

  function ChunkOf(g: Group, position: nat): Chunk
    requires g.items != []
  {
    var last := g.items[|g.items| - 1];
    Chunk(FullText(g), position, Situating(g.items).path, g.items[0].start, last.start + |last.text|)
  }

  function Render(groups: seq<Group>): (chunks: seq<Chunk>)
    requires NonEmpty(groups)
    ensures |chunks| == |groups|
  {
    seq(|groups|, i requires 0 <= i < |groups| => ChunkOf(groups[i], i))
  }

  // ---- The packer ---------------------------------------------------------------

  method FindSituating(current: seq<Block>) returns (b: Block)
    requires current != []
    ensures b == Situating(current)
  {
    var i: nat := 0;
    while i < |current| - 1 && current[i].isHeading
      invariant i < |current| && Situating(current) == Situating(current[i..])
    {
      assert current[i..][1..] == current[i + 1..];
      i := i + 1;
    }
    b := current[i];
  }

  lemma RenderNext(groups: seq<Group>, g: Group)
    requires NonEmpty(groups) && g.items != []
    ensures NonEmpty(groups + [g]) && Render(groups + [g]) == Render(groups) + [ChunkOf(g, |groups|)]
  {
  }

  /** Renders the chunk made of `seed` and `current` behind the chunks emitted so far. */
  method Emit(chunks: seq<Chunk>, current: seq<Block>, seed: string, ghost groups: seq<Group>) returns (out: seq<Chunk>)
    requires current != [] && NonEmpty(groups) && chunks == Render(groups)
    ensures NonEmpty(groups + [Run(seed, current)]) && out == Render(groups + [Run(seed, current)])
  {
    var body := BodyText(current);
    var text := if seed != "" then seed + "\n\n" + body else body;
    var situating := FindSituating(current);
    var last := current[|current| - 1];
    RenderNext(groups, Run(seed, current));
    out := chunks + [Chunk(text, |chunks|, situating.path, current[0].start, last.start + |last.text|)];
  }

  /** These mark questions put to the policy, so that they are answered only where they are asked. */
  predicate AskedToJoin(seed: string, current: seq<Block>, b: Block) { true }

  predicate AskedToPack(seed: string, items: seq<Block>) { true }

  /** The policy decides as the packer does, and `pack` packs by the policy. */
  ghost predicate Agrees(p: Policy<string, Block>, pack: (string, seq<Block>) -> seq<Group>, size: nat, overlap: int) {
    && (forall seed, items {:trigger AskedToPack(seed, items)} :: pack(seed, items) == Pack(p, seed, items))
    && (forall seed, current, b {:trigger AskedToJoin(seed, current, b)} ::
          && p.joins(seed, current, b) == Joins(seed, current, b, size)
          && p.next(Run(seed, current), b) == SeedFor(Run(seed, current), b, size, overlap))
  }

  lemma JoinIsAnswered(p: Policy<string, Block>, pack: (string, seq<Block>) -> seq<Group>, seed: string,
                       current: seq<Block>, b: Block,
                       size: nat, overlap: int, joins: bool)
    requires Agrees(p, pack, size, overlap) && joins == Joins(seed, current, b, size)
    ensures p.joins(seed, current, b) == joins
  {
    assert AskedToJoin(seed, current, b);
  }

  lemma SeedIsAnswered(p: Policy<string, Block>, pack: (string, seq<Block>) -> seq<Group>, seed: string,
                       current: seq<Block>, b: Block,
                       size: nat, overlap: int, next: string)
    requires Agrees(p, pack, size, overlap) && next == SeedFor(Run(seed, current), b, size, overlap)
    ensures p.next(Run(seed, current), b) == next
  {
    assert AskedToJoin(seed, current, b);
  }

  /** Whether the block joins the open chunk. */
  method Fits(current: seq<Block>, seed: string, b: Block, size: nat) returns (fits: bool)
    ensures fits == (current == [] || Joins(seed, current, b, size))
  {
    if b.isHeading && current != [] {
      fits := AllHeadings(current);
    } else {
      var candidate := BodyText(current + [b]);
      var headingOnly := current != [] && AllHeadings(current);
      fits := |seed| + |candidate| + 2 <= size || current == [] || headingOnly;
    }
  }

  /** The seed of the chunk that a block opens behind the open one. */
  method NextSeed(current: seq<Block>, seed: string, b: Block, size: nat, overlap: int) returns (next: string)
    ensures next == SeedFor(Run(seed, current), b, size, overlap)
  {
    if b.isHeading { return ""; }
    var previous := (if seed != "" then seed + "\n\n" else "") + BodyText(current);
    SeedIs(Run(seed, current), b, size, overlap, previous);
    next := OverlapTail(previous, Min(overlap, size - |b.text| - 2));
  }

  lemma SeedIs(g: Group, b: Block, size: nat, overlap: int, previous: string)
    requires !b.isHeading && previous == (if g.seed != "" then g.seed + "\n\n" else "") + BodyText(g.items)
    ensures SeedFor(g, b, size, overlap) == OverlapTail(previous, Min(overlap, size - |b.text| - 2))
  {
    assert previous == FullText(g);
  }

  method Decide(current: seq<Block>, seed: string, b: Block, size: nat, overlap: int,
                ghost p: Policy<string, Block>, ghost pack: (string, seq<Block>) -> seq<Group>)
    returns (joins: bool, next: string)
    requires Agrees(p, pack, size, overlap)
    ensures current == [] ==> joins
    ensures current != [] ==> joins == p.joins(seed, current, b)
    ensures !joins ==> next == p.next(Run(seed, current), b)
  {
    next := "";
    joins := Fits(current, seed, b, size);
    if current != [] { JoinIsAnswered(p, pack, seed, current, b, size, overlap, joins); }
    if !joins {
      next := NextSeed(current, seed, b, size, overlap);
      SeedIsAnswered(p, pack, seed, current, b, size, overlap, next);
    }
  }

  /** One turn of the packing loop; `all` is the packing to be reached. */
  method Take(chunks: seq<Chunk>, current: seq<Block>, seed: string, b: Block, size: nat, overlap: int,
              ghost p: Policy<string, Block>, ghost pack: (string, seq<Block>) -> seq<Group>,
              ghost groups: seq<Group>, ghost rest: seq<Block>, ghost all: seq<Group>)
    returns (chunks': seq<Chunk>, current': seq<Block>, seed': string, ghost groups': seq<Group>)
    requires Agrees(p, pack, size, overlap)
    requires NonEmpty(groups) && chunks == Render(groups)
    requires current != [] ==> Grown(p, Run(seed, current))
    requires all == groups + pack(seed, current + ([b] + rest))
    ensures NonEmpty(groups') && chunks' == Render(groups')
    ensures current' != [] && Grown(p, Run(seed', current'))
    ensures all == groups' + pack(seed', current' + rest)
  {
    var joins, next := Decide(current, seed, b, size, overlap, p, pack);
    if joins {
      StaysOpen(p, seed, current, b, rest);
      chunks', current', seed', groups' := chunks, current + [b], seed, groups;
    } else {
      IsClosed(p, pack, seed, current, b, rest, size, overlap, groups, all, next);
      chunks' := Emit(chunks, current, seed, groups);
      current', seed', groups' := [b], next, groups + [Run(seed, current)];
    }
  }

  lemma StaysOpen(p: Policy<string, Block>, seed: string, current: seq<Block>, b: Block, rest: seq<Block>)
    requires current != [] ==> Grown(p, Run(seed, current)) && p.joins(seed, current, b)
    ensures Grown(p, Run(seed, current + [b]))
    ensures current + ([b] + rest) == (current + [b]) + rest
  {
    GrowsBy(p, seed, current, b);
  }

  lemma IsClosed(p: Policy<string, Block>, pack: (string, seq<Block>) -> seq<Group>, seed: string, current: seq<Block>,
                 b: Block,
                 rest: seq<Block>, size: nat, overlap: int, groups: seq<Group>, all: seq<Group>, next: string)
    requires Agrees(p, pack, size, overlap)
    requires current != [] && Grown(p, Run(seed, current))
    requires !p.joins(seed, current, b) && next == p.next(Run(seed, current), b)
    requires all == groups + pack(seed, current + ([b] + rest))
    ensures all == (groups + [Run(seed, current)]) + pack(next, [b] + rest)
    ensures Grown(p, Run(next, [b]))
  {
    assert AskedToPack(seed, current + ([b] + rest)) && AskedToPack(next, [b] + rest);
    ClosesRun(p, seed, current, b, rest);
    Associative(groups, [Run(seed, current)], pack(next, [b] + rest));
  }

  /** The packing loop, for a policy that decides as the packer does. */
  method Merge(blocks: seq<Block>, size: nat, overlap: int, ghost p: Policy<string, Block>,
               ghost pack: (string, seq<Block>) -> seq<Group>)
    returns (chunks: seq<Chunk>)
    requires Agrees(p, pack, size, overlap)
    ensures NonEmpty(pack("", blocks)) && chunks == Render(pack("", blocks))
  {
    chunks := [];
    var current: seq<Block>, seed := [], "";
    ghost var groups: seq<Group> := [];
    assert current + blocks[0..] == blocks;
    for i := 0 to |blocks|
      invariant NonEmpty(groups) && chunks == Render(groups)
      invariant current == [] ==> i == 0 && seed == "" && groups == []
      invariant current != [] ==> Grown(p, Run(seed, current))
      invariant pack("", blocks) == groups + pack(seed, current + blocks[i..])
    {
      assert blocks[i..] == [blocks[i]] + blocks[i + 1..];
      chunks, current, seed, groups :=
        Take(chunks, current, seed, blocks[i], size, overlap, p, pack, groups, blocks[i + 1..], pack("", blocks));
    }
    assert current + blocks[|blocks|..] == current;
    assert AskedToPack(seed, current);
    if current != [] {
      LastRun(p, seed, current);
      chunks := Emit(chunks, current, seed, groups);
      groups := groups + [Run(seed, current)];
    }
    assert groups == pack("", blocks);
  }

  /** The packer yields the greedy packing of the blocks, rendered. */
  method MergeIntoChunks(blocks: seq<Block>, size: nat, overlap: int) returns (chunks: seq<Chunk>)
    ensures NonEmpty(Groups(blocks, size, overlap)) && chunks == Render(Groups(blocks, size, overlap))
  {
    ghost var p := ChunkPolicy(size, overlap);
    chunks := Merge(blocks, size, overlap, p, (seed, items) => Pack(p, seed, items));
  }
}
