/** Where blocks and pieces lie: their recorded spans in order, and their texts in the source. */
module Offsets {
  import opened Text
  import opened Blocks
  import opened Sizing
  import opened BlockFacts

  predicate NewlineAt(text: string, i: nat)
    requires i < |text|
  {
    text[i] == '\n' || (text[i] == '\r' && i + 1 < |text| && text[i + 1] == '\n')
  }

  /** Every line break is a newline or a carriage return right before one. */
  predicate NewlinesOnly(text: string) {
    forall i: nat :: i < |text| && IsBreak(text[i]) ==> NewlineAt(text, i)
  }

  predicate OccursAt(source: string, s: string, p: nat) {
    p + |s| <= |source| && source[p..p + |s|] == s
  }

  /** The blocks' recorded spans lie between lo and hi, in order and disjoint. */
  predicate InOrder(blocks: seq<Block>, lo: nat, hi: nat)
    decreases |blocks|
  {
    if |blocks| == 0 then lo <= hi
    else lo <= blocks[0].start && InOrder(blocks[1..], blocks[0].start + |blocks[0].text|, hi)
  }

  lemma {:induction false} InOrderWiden(blocks: seq<Block>, lo: nat, hi: nat, lo': nat, hi': nat)
    requires InOrder(blocks, lo, hi) && lo' <= lo && hi <= hi'
    ensures InOrder(blocks, lo', hi') && lo <= hi
    decreases |blocks|
  {
    if blocks == [] {
    } else {
      var end := blocks[0].start + |blocks[0].text|;
      InOrderWiden(blocks[1..], end, hi, end, hi');
    }
  }

  lemma {:induction false} InOrderConcat(a: seq<Block>, b: seq<Block>, lo: nat, mid: nat, hi: nat)
    requires InOrder(a, lo, mid) && InOrder(b, mid, hi)
    ensures InOrder(a + b, lo, hi)
    decreases |a|
  {
    if a == [] {
      assert a + b == b;
      InOrderWiden(b, mid, hi, lo, hi);
    } else {
      assert (a + b)[1..] == a[1..] + b;
      InOrderConcat(a[1..], b, a[0].start + |a[0].text|, mid, hi);
    }
  }

  function EndOf(blocks: seq<Block>): nat
    requires blocks != []
  {
    blocks[|blocks| - 1].start + |blocks[|blocks| - 1].text|
  }

  lemma {:induction false} InOrderSplit(a: seq<Block>, b: seq<Block>, lo: nat, hi: nat)
    requires InOrder(a + b, lo, hi) && a != [] && AllTrimmed(a)
    ensures lo <= a[0].start < EndOf(a) && InOrder(b, EndOf(a), hi)
    decreases |a|
  {
    assert (a + b)[1..] == a[1..] + b;
    if |a| == 1 {
      assert a[1..] + b == b;
    } else {
      InOrderSplit(a[1..], b, a[0].start + |a[0].text|, hi);
    }
  }

  // ---- Texts in the source ------------------------------------------------------

  lemma {:induction false} SkipSpaceInSlice(source: string, a: nat, j: string, k: nat)
    requires a + |j| <= |source| && source[a..a + |j|] == j && k <= |j| && SkipSpace(j, k) < |j|
    ensures SkipSpace(source, a + k) == a + SkipSpace(j, k)
    decreases |j| - k
  {
    assert k < |j| ==> j[k] == source[a + k];
    if IsSpace(j[k]) { SkipSpaceInSlice(source, a, j, k + 1); }
  }

  lemma IndentInSlice(source: string, a: nat, j: string)
    requires a + |j| <= |source| && source[a..a + |j|] == j && Indent(j) < |j|
    ensures SkipSpace(source, a) == a + Indent(j)
  {
    SkipSpaceInSlice(source, a, j, 0);
  }

  /** The stripped form of a stretch of the source occurs behind the whitespace that begins the stretch. */
  lemma StripOccurs(source: string, a: nat, j: string)
    requires a + |j| <= |source| && source[a..a + |j|] == j && Strip(j) != ""
    ensures OccursAt(source, Strip(j), SkipSpace(source, a))
    ensures SkipSpace(source, a) + |Strip(j)| <= a + |j|
  {
    var i, e := Indent(j), SolidEnd(j, |j|);
    assert Strip(j) == j[i..e];
    IndentInSlice(source, a, j);
    SliceOfSlice(source, a, a + |j|, i, e);
    assert source[a + i..a + e] == Strip(j);
  }

  lemma OccursWithin(source: string, at: nat, s: string, d: nat, t: string)
    requires OccursAt(source, s, at) && OccursAt(s, t, d)
    ensures OccursAt(source, t, at + d)
  {
    SliceOfSlice(source, at, at + |s|, d, d + |t|);
  }

  /** Block b occurs in the source behind the indentation of the line it starts on. */
  predicate Sited(source: string, b: Block) {
    b.start <= |source| && OccursAt(source, b.text, SkipSpace(source, b.start))
  }

  // ---- Pieces -------------------------------------------------------------------

  /** A piece occurs in its block's text at the distance between their recorded starts. */
  predicate PieceSited(b: Block, p: Block) {
    p.start >= b.start && OccursAt(b.text, p.text, p.start - b.start)
  }

  ghost predicate AllSited(b: Block, pieces: seq<Block>) {
    forall p {:trigger PieceSited(b, p)} :: p in pieces ==> PieceSited(b, p)
  }

  lemma PieceSitedAt(b: Block, i: nat, j: nat)
    requires i <= j <= |b.text| && (i < j ==> !IsSpace(b.text[i]))
    ensures AllSited(b, PieceOf(b, i, j))
  {
    var s := b.text[i..j];
    if Strip(s) != "" { StripOccurs(b.text, i, s); }
  }

  lemma PieceInOrder(b: Block, i: nat, j: nat)
    requires i <= j <= |b.text|
    ensures InOrder(PieceOf(b, i, j), b.start + i, b.start + j)
  {
    if PieceOf(b, i, j) != [] { assert PieceOf(b, i, j)[1..] == []; }
  }

  lemma {:induction false} PiecesSited(b: Block, spans: seq<Span>, pos: nat, size: nat)
    requires Chain(b.text, spans, pos, size) && (pos < |b.text| ==> !IsSpace(b.text[pos]))
    ensures AllSited(b, Pieces(b, spans))
    decreases |spans|
  {
    FirstPiece(b, spans);
    PieceSitedAt(b, pos, spans[0].hi);
    if |spans| > 1 {
      SkipSpaceStops(b.text, spans[0].hi);
      PiecesSited(b, spans[1..], SkipSpace(b.text, spans[0].hi), size);
    }
  }

  lemma NextInOrder(all: seq<Block>, first: seq<Block>, rest: seq<Block>, lo: nat, mid: nat, next: nat, hi: nat)
    requires InOrder(first, lo, mid) && mid <= next && InOrder(rest, next, hi) && all == first + rest
    ensures InOrder(all, lo, hi)
  {
    InOrderWiden(first, lo, mid, lo, next);
    InOrderConcat(first, rest, lo, next, hi);
  }

  lemma ChainNext(text: string, spans: seq<Span>, pos: nat, size: nat)
    requires Chain(text, spans, pos, size)
    ensures |spans| > 0 && spans[0].lo == pos <= spans[0].hi <= |text|
    ensures |spans| > 1 ==> Chain(text, spans[1..], SkipSpace(text, spans[0].hi), size)
  {
  }

  lemma {:induction false} PiecesInOrder(b: Block, spans: seq<Span>, pos: nat, size: nat)
    requires Chain(b.text, spans, pos, size)
    ensures InOrder(Pieces(b, spans), b.start + pos, b.start + |b.text|)
    decreases |spans|
  {
    ChainNext(b.text, spans, pos, size);
    var hi := spans[0].hi;
    FirstPiece(b, spans);
    PieceInOrder(b, pos, hi);
    if |spans| > 1 {
      PiecesInOrder(b, spans[1..], SkipSpace(b.text, hi), size);
      NextInOrder(Pieces(b, spans), PieceOf(b, pos, hi), Pieces(b, spans[1..]), b.start + pos, b.start + hi,
                  b.start + SkipSpace(b.text, hi), b.start + |b.text|);
    }
  }

  lemma SplitSited(b: Block, size: nat)
    requires size >= 1 && Trimmed(b.text)
    ensures forall p :: p in Split(b, size) ==> PieceSited(b, p)
    ensures InOrder(Split(b, size), b.start, b.start + |b.text|)
  {
    if |b.text| <= size {
      assert [b][1..] == [];
    } else {
      SpansChain(b.text, size, 0);
      PiecesSited(b, Spans(b.text, size, 0), 0, size);
      PiecesInOrder(b, Spans(b.text, size, 0), 0, size);
    }
  }

  /** Splitting keeps the recorded spans in order. */
  lemma {:induction false} SizedInOrder(blocks: seq<Block>, size: nat, lo: nat, hi: nat)
    requires size >= 1 && AllTrimmed(blocks) && InOrder(blocks, lo, hi)
    ensures InOrder(Sized(blocks, size), lo, hi)
    decreases |blocks|
  {
    if blocks == [] {
    } else {
      var b := blocks[0];
      var end := b.start + |b.text|;
      SplitSited(b, size);
      InOrderWiden(Split(b, size), b.start, end, lo, end);
      SizedInOrder(blocks[1..], size, end, hi);
      InOrderConcat(Split(b, size), Sized(blocks[1..], size), lo, end, hi);
    }
  }

  /** The blocks reach from lo to hi. */
  predicate Reaches(blocks: seq<Block>, lo: nat,
                    hi: nat) { blocks != [] && blocks[0].start == lo && EndOf(blocks) == hi }

  lemma PieceReaches(b: Block, i: nat, j: nat)
    requires i < j <= |b.text| && !IsSpace(b.text[i])
    ensures PieceOf(b, i, j) != [] && PieceOf(b, i, j)[0].start == b.start + i
    ensures !IsSpace(b.text[j - 1]) ==> Reaches(PieceOf(b, i, j), b.start + i, b.start + j)
  {
    var s := b.text[i..j];
    assert s[0] == b.text[i] && s[|s| - 1] == b.text[j - 1];
    StripMeaning(s);
    if !IsSpace(b.text[j - 1]) { StripOfTrimmed(s); }
  }

  lemma ReachesAcross(a: seq<Block>, b: seq<Block>, lo: nat, mid: nat, hi: nat)
    requires a != [] && a[0].start == lo && Reaches(b, mid, hi)
    ensures Reaches(a + b, lo, hi)
  {
  }

  lemma NextPieces(b: Block, size: nat, pos: nat, end: nat, next: nat)
    requires size >= 1 && pos <= |b.text| && |b.text| - pos > size
    requires end == pos + CutPoint(b.text[pos..pos + size]) && next == SkipSpace(b.text, end)
    ensures Pieces(b, Spans(b.text, size, pos)) == PieceOf(b, pos, end) + Pieces(b, Spans(b.text, size, next))
  {
    var spans := Spans(b.text, size, pos);
    assert spans[1..] == Spans(b.text, size, next);
    FirstPiece(b, spans);
  }

  lemma NextPiece(b: Block, pos: nat, end: nat, next: nat, rest: seq<Block>)
    requires pos < end < |b.text| && next == SkipSpace(b.text, end) && Trimmed(b.text) && !IsSpace(b.text[pos])
    ensures next < |b.text| && !IsSpace(b.text[next])
    ensures Reaches(rest, b.start + next, b.start + |b.text|) ==>
      Reaches(PieceOf(b, pos, end) + rest, b.start + pos, b.start + |b.text|)
  {
    SkipSpaceStops(b.text, end);
    PieceReaches(b, pos, end);
    if Reaches(rest, b.start + next, b.start + |b.text|) {
      ReachesAcross(PieceOf(b, pos, end), rest, b.start + pos, b.start + next, b.start + |b.text|);
    }
  }

  lemma LastPiece(b: Block, size: nat, pos: nat)
    requires size >= 1 && pos < |b.text| <= pos + size && Trimmed(b.text) && !IsSpace(b.text[pos])
    ensures Reaches(Pieces(b, Spans(b.text, size, pos)), b.start + pos, b.start + |b.text|)
  {
    FirstPiece(b, Spans(b.text, size, pos));
    PieceReaches(b, pos, |b.text|);
  }

  /** The pieces reach from the first character to the last. */
  lemma {:induction false} PiecesReach(b: Block, size: nat, pos: nat)
    requires size >= 1 && Trimmed(b.text) && pos < |b.text| && !IsSpace(b.text[pos])
    ensures Reaches(Pieces(b, Spans(b.text, size, pos)), b.start + pos, b.start + |b.text|)
    decreases |b.text| - pos
  {
    if |b.text| - pos <= size {
      LastPiece(b, size, pos);
    } else {
      var end := pos + CutPoint(b.text[pos..pos + size]);
      var next := SkipSpace(b.text, end);
      NextPieces(b, size, pos, end, next);
      NextPiece(b, pos, end, next, Pieces(b, Spans(b.text, size, next)));
      PiecesReach(b, size, next);
    }
  }

  lemma SplitReaches(b: Block, size: nat)
    requires size >= 1 && Trimmed(b.text)
    ensures Reaches(Split(b, size), b.start, b.start + |b.text|) && AllTrimmed(Split(b, size))
  {
    if |b.text| > size {
      PiecesReach(b, size, 0);
      SplitShape(b, size);
    }
  }

  /** Pieces in order leave their blocks no other order. */
  lemma {:induction false} OrderedBeforeSizing(blocks: seq<Block>, size: nat, lo: nat, hi: nat)
    requires size >= 1 && AllTrimmed(blocks) && InOrder(Sized(blocks, size), lo, hi)
    ensures InOrder(blocks, lo, hi)
    decreases |blocks|
  {
    if blocks == [] {
    } else {
      var b := blocks[0];
      SplitReaches(b, size);
      InOrderSplit(Split(b, size), Sized(blocks[1..], size), lo, hi);
      OrderedBeforeSizing(blocks[1..], size, b.start + |b.text|, hi);
    }
  }

  /** A piece occurs in the source where it says, shifted by the indentation of its block's first line. */
  lemma PieceInSource(source: string, b: Block, p: Block)
    requires Sited(source, b) && PieceSited(b, p)
    ensures OccursAt(source, p.text, p.start + (SkipSpace(source, b.start) - b.start))
  {
    OccursWithin(source, SkipSpace(source, b.start), b.text, p.start - b.start, p.text);
  }
}
