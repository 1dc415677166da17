/** What greedy packing with the chunker's policy guarantees about each chunk and its neighbour. */
module ChunkFacts {
  import opened Text
  import opened Blocks
  import opened Sizing
  import opened Greedy
  import opened Packing
  import opened BlockFacts
  import opened Offsets

  // ---- The packing rules ---------------------------------------------------------

  /** Block k of the chunk joined the blocks before it. */
  predicate BlockJoins(g: Group, k: nat, size: nat)
    requires k < |g.items|
  {
    Joins(g.seed, g.items[..k], g.items[k], size)
  }

  predicate GrownGroup(g: Group, size: nat) {
    g.items != [] && forall k :: 1 <= k < |g.items| ==> BlockJoins(g, k, size)
  }

  predicate FollowsGroup(g: Group, after: Group, size: nat, overlap: int) {
    && after.items != []
    && !Joins(g.seed, g.items, after.items[0], size)
    && after.seed == SeedFor(g, after.items[0], size, overlap)
  }

  predicate PackedBy(groups: seq<Group>, size: nat, overlap: int) {
    && (groups != [] ==> groups[0].seed == "")
    && (forall i :: 0 <= i < |groups| ==> GrownGroup(groups[i], size))
    && (forall i :: 0 < i < |groups| ==> LinkedGroups(groups, i, size, overlap))
  }

  predicate LinkedGroups(groups: seq<Group>, i: nat, size: nat, overlap: int)
    requires 0 < i < |groups|
  {
    FollowsGroup(groups[i - 1], groups[i], size, overlap)
  }

  /**
   * The chunks are exactly the greedy packing: a list of groups over these blocks obeys the rules (every block joined
   * the chunk it is in; every chunk was closed only because the next block does not join it; seeds are overlaps) if and
   * only if it is the list the packer produces.
   */
  lemma PackerIsGreedy(groups: seq<Group>, blocks: seq<Block>, size: nat, overlap: int)
    ensures groups == Groups(blocks, size, overlap) <==> PackedBy(groups, size, overlap) && AllItems(groups) == blocks
  {
    var p := ChunkPolicy(size, overlap);
    PackIsPacking(p, "", blocks);
    RulesAreThePolicy(Groups(blocks, size, overlap), size, overlap);
    if PackedBy(groups, size, overlap) && AllItems(groups) == blocks {
      RulesAreThePolicy(groups, size, overlap);
      PackingUnique(p, "", groups);
    }
  }

  lemma RulesAreThePolicy(groups: seq<Group>, size: nat, overlap: int)
    ensures PackedBy(groups, size, overlap) <==> IsPacking(ChunkPolicy(size, overlap), "", groups)
  {
    var p := ChunkPolicy(size, overlap);
    forall i | 0 <= i < |groups| ensures GrownGroup(groups[i], size) <==> Grown(p, groups[i]) {
      GrownAgrees(groups[i], size, overlap);
    }
    forall i: nat | 0 < i < |groups| ensures LinkedGroups(groups, i, size, overlap) <==> LinkedAt(p, groups, i) {}
  }

  lemma GrownAgrees(g: Group, size: nat, overlap: int)
    ensures GrownGroup(g, size) <==> Grown(ChunkPolicy(size, overlap), g)
  {
    var p := ChunkPolicy(size, overlap);
    forall k: nat | k < |g.items| ensures BlockJoins(g, k, size) <==> JoinsAt(p, g.seed, g.items, k) {}
    if GrownGroup(g, size) {
      forall k: nat | 1 <= k < |g.items| ensures JoinsAt(p, g.seed, g.items, k) { assert BlockJoins(g, k, size); }
    }
    if Grown(p, g) {
      forall k: nat | 1 <= k < |g.items| ensures BlockJoins(g, k, size) { assert JoinsAt(p, g.seed, g.items, k); }
    }
  }

  // ---- Seeds -------------------------------------------------------------------------

  /** s is a proper suffix of `full` that starts behind whitespace. */
  predicate CleanSuffix(s: string, full: string) {
    && |s| < |full| && full[|full| - |s|..] == s
    && IsSpace(full[|full| - |s| - 1])
  }

  lemma TailFrom(full: string, a: nat, j: nat)
    requires Trimmed(full) && a < j <= |full| && IsSpace(full[j - 1])
    ensures var s := Strip(full[j..]); Trimmed(s) && CleanSuffix(s, full) && |s| <= |full| - a
  {
    var t := full[j..];
    assert j < |full| && t[|t| - 1] == full[|full| - 1];
    SkipSpaceStops(t, 0);
    assert SolidEnd(t, |t|) == |t|;
    var q := Indent(t);
    assert q < |t| && Strip(t) == t[q..];
    DropDrop(full, j, q);
    assert full[j + q - 1] == if q == 0 then full[j - 1] else t[q - 1];
  }

  lemma TailBehind(full: string, a: nat, tail: string, j: nat)
    requires Trimmed(full) && a <= |full| && tail == full[a..] && 0 < j <= |tail| && IsSpace(tail[j - 1])
    ensures var s := Strip(tail[j..]); Trimmed(s) && CleanSuffix(s, full) && |s| <= |full| - a
  {
    DropDrop(full, a, j);
    assert tail[j - 1] == full[a + j - 1];
    TailFrom(full, a, a + j);
  }

  lemma SentenceTail(full: string, a: nat, tail: string, i: nat)
    requires Trimmed(full) && a <= |full| && tail == full[a..] && i < |tail| && EndsSentence(tail, i)
    ensures var s := Strip(tail[SkipSpace(tail, i)..]); Trimmed(s) && CleanSuffix(s, full) && |s| <= |full| - a
  {
    SkipSpaceStops(tail, i);
    TailBehind(full, a, tail, SkipSpace(tail, i));
  }

  /**
   * A non-empty overlap is a proper suffix of the chunk it comes from, fits the budget, and never starts inside a word.
   */
  lemma OverlapIsClean(full: string, budget: int)
    requires Trimmed(full)
    ensures var s := OverlapTail(full, budget); s != "" ==> Trimmed(s) && CleanSuffix(s, full) && |s| <= budget
  {
    if budget > 0 {
      var a := if budget < |full| then |full| - budget else 0;
      var tail := full[a..];
      var i := NextSentence(tail, 0);
      var space := FirstBlank(tail, 0);
      if i < |tail| {
        SentenceTail(full, a, tail, i);
      } else if space < |tail| {
        TailBehind(full, a, tail, space + 1);
      }
    }
  }

  // ---- Which suffix a seed is -------------------------------------------------------------------

  predicate FirstEnd(tail: string, e: nat) {
    EndsSentence(tail, e) && forall j: nat :: j < e ==> !EndsSentence(tail, j)
  }

  predicate FirstSpace(tail: string, e: nat) {
    e < |tail| && tail[e] == ' ' && forall j :: 0 <= j < e ==> tail[j] != ' '
  }

  /** The rest of the tail from q on starts with the first ink at or behind j. */
  predicate InkFrom(tail: string, j: nat, q: nat) {
    j <= q < |tail| && (forall m :: j <= m < q ==> IsSpace(tail[m])) && !IsSpace(tail[q])
  }

  ghost predicate RestFrom(s: string, tail: string, j: nat) { exists q: nat :: InkFrom(tail, j, q) && s == tail[q..] }

  ghost predicate BehindEnd(s: string, tail: string) { exists e: nat :: FirstEnd(tail, e) && RestFrom(s, tail, e) }

  ghost predicate BehindSpace(s: string, tail: string) {
    exists e: nat :: FirstSpace(tail, e) && RestFrom(s, tail, e + 1)
  }

  /** s is the tail behind its first sentence end, else behind its first space, else nothing. */
  ghost predicate Snapped(s: string, tail: string) {
    if exists e: nat :: FirstEnd(tail, e) then BehindEnd(s, tail)
    else if exists e: nat :: FirstSpace(tail, e) then BehindSpace(s, tail)
    else s == ""
  }

  lemma InkAhead(tail: string, j: nat)
    requires j < |tail| && !IsSpace(tail[|tail| - 1])
    ensures InkFrom(tail, j, SkipSpace(tail, j))
  {
    SkipSpaceMeaning(tail, j);
  }

  lemma StripFromInk(tail: string, j: nat, q: nat)
    requires InkFrom(tail, j, q) && !IsSpace(tail[|tail| - 1])
    ensures Strip(tail[j..]) == tail[q..]
  {
    var rest := tail[j..];
    assert forall m :: 0 <= m < |rest| ==> rest[m] == tail[j + m];
    SkipSpaceIs(rest, 0, q - j);
    DropDrop(tail, j, q - j);
    assert SolidEnd(rest, |rest|) == |rest|;
    assert rest[q - j..|rest|] == rest[q - j..];
  }

  lemma StripIsRest(tail: string, j: nat)
    requires j < |tail| && !IsSpace(tail[|tail| - 1])
    ensures RestFrom(Strip(tail[j..]), tail, j) && Strip(tail[j..]) != ""
  {
    InkAhead(tail, j);
    StripFromInk(tail, j, SkipSpace(tail, j));
  }

  lemma SkippedIsRest(tail: string, j: nat)
    requires j < |tail| && !IsSpace(tail[|tail| - 1])
    ensures Strip(tail[SkipSpace(tail, j)..]) == Strip(tail[j..])
  {
    var q := SkipSpace(tail, j);
    InkAhead(tail, j);
    StripFromInk(tail, j, q);
    StripFromInk(tail, q, q);
  }

  lemma SnappedAtEnd(tail: string, e: nat)
    requires tail != "" && !IsSpace(tail[|tail| - 1]) && FirstEnd(tail, e)
    ensures Snapped(Strip(tail[SkipSpace(tail, e)..]), tail) && Strip(tail[SkipSpace(tail, e)..]) != ""
  {
    SkippedIsRest(tail, e);
    StripIsRest(tail, e);
  }

  lemma SnappedAtSpace(tail: string, e: nat)
    requires tail != "" && !IsSpace(tail[|tail| - 1]) && FirstSpace(tail, e)
    requires forall j: nat :: !EndsSentence(tail, j)
    ensures Snapped(Strip(tail[e + 1..]), tail) && Strip(tail[e + 1..]) != ""
  {
    assert e + 1 < |tail|;
    StripIsRest(tail, e + 1);
    assert BehindSpace(Strip(tail[e + 1..]), tail);
  }

  /** Somewhere in the tail a clean start can be found. */
  ghost predicate HasStart(tail: string) { exists j: nat :: j < |tail| && (EndsSentence(tail, j) || tail[j] == ' ') }

  lemma SnappedNowhere(tail: string)
    requires forall j: nat :: !EndsSentence(tail, j)
    requires forall j :: 0 <= j < |tail| ==> tail[j] != ' '
    ensures Snapped("", tail) && !HasStart(tail)
  {
  }

  lemma TailIsSnapped(tail: string, s: string)
    requires tail != "" && !IsSpace(tail[|tail| - 1])
    requires var i, space := NextSentence(tail, 0), FirstBlank(tail, 0);
      s == if i < |tail| then Strip(tail[SkipSpace(tail, i)..])
           else if space < |tail| then Strip(tail[space + 1..]) else ""
    ensures Snapped(s, tail) && (s != "" <==> HasStart(tail))
  {
    var i, space := NextSentence(tail, 0), FirstBlank(tail, 0);
    if i < |tail| {
      SnappedAtEnd(tail, i);
    } else if space < |tail| {
      SnappedAtSpace(tail, space);
    } else {
      SnappedNowhere(tail);
    }
  }

  /** The last n characters, or all. */
  function LastChars(s: string, n: nat): string { if n < |s| then s[|s| - n..] else s }

  /** The overlap of a chunk is its last characters within the budget, snapped to a clean start. */
  lemma OverlapIsSnapped(full: string, budget: nat)
    requires Trimmed(full) && budget > 0
    ensures Snapped(OverlapTail(full, budget), LastChars(full, budget))
    ensures OverlapTail(full, budget) != "" <==> HasStart(LastChars(full, budget))
  {
    var tail := LastChars(full, budget);
    assert tail[|tail| - 1] == full[|full| - 1];
    TailIsSnapped(tail, OverlapTail(full, budget));
  }

  /**
   * Which suffix a seed is: none in front of a heading or where nothing fits; else the last characters of the chunk
   * before, as many as the overlap and the next block leave room for, snapped; it is empty only if no clean start is
   * among them.
   */
  ghost predicate SeedExactly(full: string, g: Group, size: nat, overlap: int)
    requires g.items != []
  {
    var room := size - |g.items[0].text| - 2;
    var budget := if overlap < room then overlap else room;
    if g.items[0].isHeading || budget <= 0 then g.seed == ""
    else Snapped(g.seed, LastChars(full, budget)) && (g.seed != "" <==> HasStart(LastChars(full, budget)))
  }

  lemma GroupSeedExactly(groups: seq<Group>, size: nat, overlap: int, i: nat)
    requires PackedBy(groups, size, overlap) && NonEmpty(groups) && AllGroupsTrimmed(groups) && 0 < i < |groups|
    ensures SeedExactly(FullText(groups[i - 1]), groups[i], size, overlap)
  {
    SeedsTrimmed(groups, size, overlap, i - 1);
    FullTextTrimmed(groups[i - 1]);
    assert LinkedGroups(groups, i, size, overlap);
    SeedForExactly(FullText(groups[i - 1]), groups[i - 1], groups[i], size, overlap);
  }

  lemma SeedForExactly(full: string, prev: Group, g: Group, size: nat, overlap: int)
    requires full == FullText(prev) && Trimmed(full) && g.items != []
    requires g.seed == SeedFor(prev, g.items[0], size, overlap)
    ensures SeedExactly(full, g, size, overlap)
  {
    var budget := Min(overlap, size - |g.items[0].text| - 2);
    if !g.items[0].isHeading {
      assert g.seed == OverlapTail(full, budget);
      if budget > 0 { OverlapIsSnapped(full, budget); }
    }
  }

  /** Block b fits behind the first k blocks of a chunk: they are headings, or it is prose within the size. */
  predicate FitsBehind(g: Group, k: nat, b: Block, size: nat)
    requires k <= |g.items|
  {
    || (forall j :: 0 <= j < k ==> g.items[j].isHeading)
    || (!b.isHeading && |g.seed| + |Join("\n\n", Texts(g.items[..k] + [b]))| + 2 <= size)
  }

  lemma FitsIsJoins(g: Group, k: nat, b: Block, size: nat)
    requires k <= |g.items|
    ensures FitsBehind(g, k, b, size) <==> Joins(g.seed, g.items[..k], b, size)
  {
    assert forall j :: 0 <= j < k ==> g.items[..k][j] == g.items[j];
  }

  lemma GroupEnds(groups: seq<Group>, size: nat, overlap: int, i: nat)
    requires PackedBy(groups, size, overlap) && NonEmpty(groups) && i < |groups|
    ensures var g := groups[i];
      && (forall k :: 1 <= k < |g.items| ==> FitsBehind(g, k, g.items[k], size))
      && (i + 1 < |groups| ==> !FitsBehind(g, |g.items|, groups[i + 1].items[0], size))
  {
    var g := groups[i];
    forall k | 1 <= k < |g.items| ensures FitsBehind(g, k, g.items[k], size) {
      assert BlockJoins(g, k, size);
      FitsIsJoins(g, k, g.items[k], size);
    }
    if i + 1 < |groups| {
      assert LinkedGroups(groups, i + 1, size, overlap);
      FitsIsJoins(g, |g.items|, groups[i + 1].items[0], size);
      assert g.items[..|g.items|] == g.items;
    }
  }

  lemma {:induction false} JoinTrimmed(blocks: seq<Block>)
    requires blocks != [] && AllTrimmed(blocks)
    ensures Trimmed(BodyText(blocks))
  {
    if |blocks| > 1 {
      assert Texts(blocks)[1..] == Texts(blocks[1..]);
      JoinTrimmed(blocks[1..]);
    }
  }

  lemma FullTextTrimmed(g: Group)
    requires g.items != [] && AllTrimmed(g.items) && (g.seed != "" ==> Trimmed(g.seed))
    ensures Trimmed(FullText(g))
  {
    JoinTrimmed(g.items);
  }

  /** A seed is a clean suffix of the text before, within the overlap and the room, and in front of prose. */
  predicate SeedOf(before: string, g: Group, size: nat, overlap: int)
    requires g.items != []
  {
    g.seed != "" ==>
      && !g.items[0].isHeading
      && CleanSuffix(g.seed, before)
      && |g.seed| <= overlap && |g.seed| + 2 + |g.items[0].text| <= size
  }

  predicate AllGroupsTrimmed(groups: seq<Group>) { forall i :: 0 <= i < |groups| ==> AllTrimmed(groups[i].items) }

  lemma {:induction false} SeedsTrimmed(groups: seq<Group>, size: nat, overlap: int, i: nat)
    requires PackedBy(groups, size, overlap) && NonEmpty(groups) && AllGroupsTrimmed(groups) && i < |groups|
    ensures groups[i].seed != "" ==> Trimmed(groups[i].seed)
    ensures i > 0 ==> SeedOf(FullText(groups[i - 1]), groups[i], size, overlap)
  {
    if i == 0 {
    } else {
      SeedsTrimmed(groups, size, overlap, i - 1);
      assert LinkedGroups(groups, i, size, overlap);
      FullTextTrimmed(groups[i - 1]);
      OverlapIsClean(FullText(groups[i - 1]), Min(overlap, size - |groups[i].items[0].text| - 2));
    }
  }

  // ---- Sizes --------------------------------------------------------------------------

  /** The number of headings a chunk opens with. */
  function HeadingRun(blocks: seq<Block>): (h: nat)
    ensures h <= |blocks| && AllHeadings(blocks[..h]) && (h < |blocks| ==> !blocks[h].isHeading)
  {
    if |blocks| > 0 && blocks[0].isHeading then
      var h := HeadingRun(blocks[1..]);
      assert blocks[..h + 1] == [blocks[0]] + blocks[1..][..h];
      h + 1
    else 0
  }

  /** At most `size` long, or a run of headings with at most one block of prose behind it. */
  predicate Bounded(g: Group, size: nat) {
    var h := HeadingRun(g.items);
    || |FullText(g)| <= size
    || (h >= 1 && h >= |g.items| - 1 && |FullText(g)| <= |BodyText(g.items[..h])| + 2 + size)
  }

  lemma HeadingRunAtLeast(blocks: seq<Block>, k: nat)
    requires k <= |blocks| && forall i :: 0 <= i < k ==> blocks[i].isHeading
    ensures HeadingRun(blocks) >= k
  {
  }

  lemma GroupBounded(g: Group, size: nat)
    requires GrownGroup(g, size) && AllFit(g.items, size)
    requires g.seed != "" ==> !g.items[0].isHeading && |g.seed| + 2 + |g.items[0].text| <= size
    ensures Bounded(g, size)
  {
    var k := |g.items| - 1;
    var last := g.items[k];
    assert g.items == g.items[..k] + [last];
    if k == 0 {
      assert Texts(g.items) == [last.text];
    } else {
      assert BlockJoins(g, k, size);
      if AllHeadings(g.items[..k]) {
        assert g.items[..k][0] == g.items[0] && g.items[0].isHeading;
        forall i | 0 <= i < k ensures g.items[i].isHeading { assert g.items[..k][i] == g.items[i]; }
        HeadingRunAtLeast(g.items, k);
        if HeadingRun(g.items) == k {
          assert Texts(g.items) == Texts(g.items[..k]) + [last.text];
          JoinSnoc("\n\n", Texts(g.items[..k]), last.text);
        } else {
          assert g.items[..|g.items|] == g.items;
        }
      }
    }
  }

  // ---- Conservation ---------------------------------------------------------------------

  function Bodies(groups: seq<Group>): seq<string> {
    seq(|groups|, i requires 0 <= i < |groups| => BodyText(groups[i].items))
  }

  /** The chunk bodies together hold exactly the non-space characters of the blocks. */
  lemma {:induction false} PackingKeepsInk(groups: seq<Group>)
    ensures NonSpace(Flatten(Bodies(groups))) == Ink(AllItems(groups))
  {
    if groups == [] {
    } else {
      var g, rest := groups[0], groups[1..];
      assert Bodies(groups)[1..] == Bodies(rest);
      NonSpaceConcat(BodyText(g.items), Flatten(Bodies(rest)));
      NonSpaceOfSpaces("\n\n");
      NonSpaceJoin("\n\n", Texts(g.items));
      InkConcat(g.items, AllItems(rest));
      PackingKeepsInk(rest);
    }
  }

  lemma NoOverlapNoSeed(groups: seq<Group>, size: nat, overlap: int, i: nat)
    requires PackedBy(groups, size, overlap) && overlap <= 0 && i < |groups|
    ensures groups[i].seed == ""
  {
    if i > 0 { assert LinkedGroups(groups, i, size, overlap); }
  }

  // ---- Spans -------------------------------------------------------------------------------

  /** Spans are non-empty, between lo and hi, in order and disjoint. */
  predicate SpansInOrder(groups: seq<Group>, lo: nat, hi: nat)
    requires NonEmpty(groups)
  {
    && (forall i :: 0 <= i < |groups| ==> lo <= groups[i].items[0].start < EndOf(groups[i].items) <= hi)
    && (forall i, j :: 0 <= i < j < |groups| ==> EndOf(groups[i].items) <= groups[j].items[0].start)
  }

  lemma {:induction false} PackingKeepsOrder(groups: seq<Group>, lo: nat, hi: nat)
    requires NonEmpty(groups) && AllGroupsTrimmed(groups) && InOrder(AllItems(groups), lo, hi)
    ensures SpansInOrder(groups, lo, hi) && lo <= hi
  {
    if groups == [] {
    } else {
      var rest, end := groups[1..], EndOf(groups[0].items);
      InOrderSplit(groups[0].items, AllItems(rest), lo, hi);
      PackingKeepsOrder(rest, end, hi);
      assert forall i :: 0 < i < |groups| ==> groups[i] == rest[i - 1];
    }
  }

  lemma NothingJoinsAtSizeOne(g: Group, k: nat)
    requires 1 <= k < |g.items| && !g.items[0].isHeading
    ensures !BlockJoins(g, k, 1)
  {
    assert g.items[..k][0] == g.items[0];
  }

  /** Among prose a chunk of size 1 holds one block. */
  lemma SizeOneIsSingle(g: Group)
    requires GrownGroup(g, 1) && !g.items[0].isHeading
    ensures |g.items| == 1
  {
    if |g.items| > 1 { NothingJoinsAtSizeOne(g, 1); }
  }

  lemma {:induction false} SinglesInOrder(groups: seq<Group>, lo: nat, hi: nat)
    requires NonEmpty(groups) && (forall i :: 0 <= i < |groups| ==> |groups[i].items| == 1)
    requires lo <= hi && SpansInOrder(groups, lo, hi)
    ensures InOrder(AllItems(groups), lo, hi)
    decreases |groups|
  {
    if groups == [] {
    } else {
      var rest, b := groups[1..], groups[0].items[0];
      assert groups[0].items == [b];
      assert SpansInOrder(rest, b.start + |b.text|, hi) by {
        assert forall i :: 0 <= i < |rest| ==> rest[i] == groups[i + 1];
        assert EndOf(groups[0].items) == b.start + |b.text|;
      }
      SinglesInOrder(rest, b.start + |b.text|, hi);
      assert ([b] + AllItems(rest))[1..] == AllItems(rest);
    }
  }

  lemma {:induction false} ItemsOfGroups(groups: seq<Group>, i: nat, k: nat)
    requires i < |groups| && k < |groups[i].items|
    ensures groups[i].items[k] in AllItems(groups)
  {
    if i > 0 {
      ItemsOfGroups(groups[1..], i - 1, k);
    } else {
      assert AllItems(groups)[k] == groups[0].items[k];
    }
  }

  /** The chunks of ordered blocks are ordered. */
  lemma OrderedChunks(groups: seq<Group>, blocks: seq<Block>, size: nat, hi: nat)
    requires size >= 1 && NonEmpty(groups) && AllGroupsTrimmed(groups) && AllItems(groups) == Sized(blocks, size)
    requires AllTrimmed(blocks) && InOrder(blocks, 0, hi)
    ensures SpansInOrder(groups, 0, hi)
  {
    SizedInOrder(blocks, size, 0, hi);
    PackingKeepsOrder(groups, 0, hi);
  }

  /** With chunks of size 1 every piece is a chunk of its own, so the order of the chunks is that of the blocks. */
  lemma SizeOneShowsOrder(groups: seq<Group>, blocks: seq<Block>, overlap: int, hi: nat)
    requires NonEmpty(groups) && PackedBy(groups, 1, overlap) && AllItems(groups) == Sized(blocks, 1)
    requires AllTrimmed(blocks) && forall p :: p in Sized(blocks, 1) ==> !p.isHeading
    requires SpansInOrder(groups, 0, hi)
    ensures InOrder(blocks, 0, hi)
  {
    forall i | 0 <= i < |groups| ensures |groups[i].items| == 1 {
      ItemsOfGroups(groups, i, 0);
      SizeOneIsSingle(groups[i]);
    }
    SinglesInOrder(groups, 0, hi);
    OrderedBeforeSizing(blocks, 1, 0, hi);
  }
}
