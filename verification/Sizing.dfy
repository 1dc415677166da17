/** Stage two of the chunker: no block larger than chunk_size, cut at sentence ends, then spaces, then anywhere. */
module Sizing {
  import opened Basics
  import opened Text
  import opened Blocks

  /** Whitespace starts at i right behind a full stop, exclamation or question mark. */
  predicate EndsSentence(w: string, i: nat) {
    0 < i < |w| && (w[i - 1] == '.' || w[i - 1] == '!' || w[i - 1] == '?') && IsSpace(w[i])
  }

  /** The first sentence end at or behind `from`, or |w|. */
  function NextSentence(w: string, from: nat): (i: nat)
    requires from <= |w|
    ensures from <= i <= |w| && (i < |w| ==> EndsSentence(w, i))
    ensures forall j :: from <= j < i ==> !EndsSentence(w, j)
    decreases |w| - from
  {
    if from == |w| || EndsSentence(w, from) then from else NextSentence(w, from + 1)
  }

  /** The last sentence end below n, or 0. */
  function LastSentence(w: string, n: nat): (i: nat)
    requires n <= |w|
    ensures i <= n && (n > 0 ==> i < n)
  {
    if n == 0 then 0 else if EndsSentence(w, n - 1) then n - 1 else LastSentence(w, n - 1)
  }

  /** The last space at an index in 1..n, or 0. */
  function LastBlank(w: string, n: nat): (i: nat)
    requires n <= |w|
    ensures i <= n && (n > 0 ==> i < n)
  {
    if n <= 1 then 0 else if w[n - 1] == ' ' then n - 1 else LastBlank(w, n - 1)
  }

  /** Where a window is cut: its last sentence end, else its last space, else its full length. */
  function CutPoint(w: string): (cut: nat)
    requires w != ""
    ensures 0 < cut <= |w|
  {
    if LastSentence(w, |w|) > 0 then LastSentence(w, |w|)
    else if LastBlank(w, |w|) > 0 then LastBlank(w, |w|)
    else |w|
  }

  lemma {:induction false} LastSentenceMeaning(w: string, n: nat)
    requires n <= |w|
    ensures var i := LastSentence(w, n);
      (i > 0 ==> EndsSentence(w, i)) && forall j: nat :: i < j < n ==> !EndsSentence(w, j)
  {
    if n > 0 && !EndsSentence(w, n - 1) { LastSentenceMeaning(w, n - 1); }
  }

  lemma {:induction false} LastBlankMeaning(w: string, n: nat)
    requires n <= |w|
    ensures var i := LastBlank(w, n); (i > 0 ==> w[i] == ' ') && forall j :: i < j < n ==> w[j] != ' '
  {
    if n > 1 && w[n - 1] != ' ' { LastBlankMeaning(w, n - 1); }
  }

  /** The cut is the last sentence end of the window, else its last space behind index 0, else its end. */
  predicate BestCut(w: string, cut: nat) {
    || (EndsSentence(w, cut) && forall j: nat :: cut < j < |w| ==> !EndsSentence(w, j))
    || ((forall j: nat :: j < |w| ==> !EndsSentence(w, j))
        && ((0 < cut < |w| && w[cut] == ' ' && forall j :: cut < j < |w| ==> w[j] != ' ')
            || (cut == |w| && forall j :: 0 < j < |w| ==> w[j] != ' ')))
  }

  /** So a window is cut inside a word only when it has neither a sentence end nor a space. */
  lemma CutPointMeaning(w: string)
    requires w != ""
    ensures BestCut(w, CutPoint(w))
  {
    LastSentenceMeaning(w, |w|);
    LastBlankMeaning(w, |w|);
  }

  lemma {:induction false} LastSentenceFrom(w: string, i: nat, n: nat)
    requires i <= n <= |w| && (i > 0 ==> i < n && EndsSentence(w, i))
    requires forall j :: i < j < n ==> !EndsSentence(w, j)
    ensures LastSentence(w, n) == i
    decreases n
  {
    if n > 0 && n - 1 > i { LastSentenceFrom(w, i, n - 1); }
  }

  /** The scan over all sentence ends, and the fall-backs behind it, find the cut point. */
  method LastBreak(w: string) returns (cut: nat)
    requires w != ""
    ensures cut == CutPoint(w)
  {
    var last: nat := 0;
    var next: nat := NextSentence(w, 0);
    while next < |w|
      invariant next <= |w| && (next < |w| ==> EndsSentence(w, next))
      invariant last < next && (last > 0 ==> EndsSentence(w, last))
      invariant forall j: nat :: last < j < next ==> !EndsSentence(w, j)
      decreases |w| - next
    {
      last := next;
      var end := SkipSpace(w, next);
      SkipSpaceMeaning(w, next);
      next := NextSentence(w, end);
    }
    LastSentenceFrom(w, last, |w|);
    if last > 0 { return last; }
    var space := LastBlank(w, |w|);
    cut := if space > 0 then space else |w|;
  }

  /** A stretch of a block's text. */
  datatype Span = Span(lo: nat, hi: nat)

  /** The stretches that an oversized text is cut into, from pos on. */
  function Spans(text: string, size: nat, pos: nat): seq<Span>
    requires size >= 1 && pos <= |text|
    decreases |text| - pos
  {
    if |text| - pos <= size then [Span(pos, |text|)]
    else
      var end := pos + CutPoint(text[pos..pos + size]);
      [Span(pos, end)] + Spans(text, size, SkipSpace(text, end))
  }

  /** The spans cover the text from pos on, each at most `size` long, with only whitespace between them. */
  predicate Chain(text: string, spans: seq<Span>, pos: nat, size: nat)
    decreases |spans|
  {
    && |spans| > 0 && spans[0].lo == pos <= spans[0].hi <= |text| && spans[0].hi - pos <= size
    && if |spans| == 1 then spans[0].hi == |text| else Chain(text, spans[1..], SkipSpace(text, spans[0].hi), size)
  }

  lemma {:induction false} SpansChain(text: string, size: nat, pos: nat)
    requires size >= 1 && pos <= |text|
    ensures Chain(text, Spans(text, size, pos), pos, size)
    decreases |text| - pos
  {
    if |text| - pos > size {
      var end := pos + CutPoint(text[pos..pos + size]);
      var rest := SkipSpace(text, end);
      SpansChain(text, size, rest);
      var spans := [Span(pos, end)] + Spans(text, size, rest);
      assert spans[1..] == Spans(text, size, rest);
    }
  }

  /** All spans but the last end at a good place. */
  predicate EndWell(good: (nat, nat) -> bool, spans: seq<Span>)
    decreases |spans|
  {
    |spans| <= 1 || (good(spans[0].lo, spans[0].hi) && EndWell(good, spans[1..]))
  }

  /** Where the window at pos is cut, if the text goes on behind it. */
  function CutEnd(text: string, size: nat, pos: nat): nat {
    if 0 < size < |text| - pos then pos + CutPoint(text[pos..pos + size]) else pos
  }

  ghost predicate GoodCuts(good: (nat, nat) -> bool, text: string, size: nat) {
    forall pos: nat :: size < |text| - pos ==> good(pos, CutEnd(text, size, pos))
  }

  lemma {:induction false} SpansEndWell(good: (nat, nat) -> bool, text: string, size: nat, pos: nat)
    requires size >= 1 && pos <= |text| && GoodCuts(good, text, size)
    ensures EndWell(good, Spans(text, size, pos))
    decreases |text| - pos
  {
    if |text| - pos > size {
      var end := CutEnd(text, size, pos);
      var rest := SkipSpace(text, end);
      SpansEndWell(good, text, size, rest);
      var spans := [Span(pos, end)] + Spans(text, size, rest);
      assert spans[1..] == Spans(text, size, rest);
    }
  }

  /** The window of the text at lo is cut at hi as well as it can be. */
  predicate CutsWell(text: string, size: nat, lo: nat, hi: nat) {
    lo <= hi && lo + size < |text| && BestCut(text[lo..lo + size], hi - lo)
  }

  /** Only whole windows are cut, each at its best place. */
  lemma SpansCutWell(text: string, size: nat)
    requires size >= 1
    ensures EndWell((lo: nat, hi: nat) => CutsWell(text, size, lo, hi), Spans(text, size, 0))
  {
    var good := (lo: nat, hi: nat) => CutsWell(text, size, lo, hi);
    forall pos: nat | size < |text| - pos ensures CutsWell(text, size, pos, CutEnd(text, size, pos)) {
      CutPointMeaning(text[pos..pos + size]);
    }
    SpansEndWell(good, text, size, 0);
  }

  /** The piece made of b's text between i and j, or nothing if that is blank. */
  function PieceOf(b: Block, i: nat, j: nat): seq<Block> {
    if !(i <= j <= |b.text|) then [] else
      var piece := Strip(b.text[i..j]);
      if piece == "" then [] else [Block(piece, b.start + i, b.path, false)]
  }

  /** What the spans mark, in order. */
  function Marked(piece: Span -> seq<Block>, spans: seq<Span>): seq<Block> {
    if |spans| == 0 then [] else piece(spans[0]) + Marked(piece, spans[1..])
  }

  function PiecesOf(b: Block): Span -> seq<Block> { (s: Span) => PieceOf(b, s.lo, s.hi) }

  /** The pieces of b's text that the spans mark. */
  function Pieces(b: Block, spans: seq<Span>): seq<Block> { Marked(PiecesOf(b), spans) }

  lemma FirstPiece(b: Block, spans: seq<Span>)
    requires |spans| > 0
    ensures Pieces(b, spans) == PieceOf(b, spans[0].lo, spans[0].hi) + Pieces(b, spans[1..])
    ensures |spans| == 1 ==> Pieces(b, spans) == PieceOf(b, spans[0].lo, spans[0].hi)
  {
    if |spans| == 1 { assert Pieces(b, spans[1..]) == []; }
  }

  function Split(b: Block, size: nat): seq<Block>
    requires size >= 1
  {
    if |b.text| <= size then [b] else Pieces(b, Spans(b.text, size, 0))
  }

  function Sized(blocks: seq<Block>, size: nat): seq<Block>
    requires size >= 1
  {
    if blocks == [] then [] else Split(blocks[0], size) + Sized(blocks[1..], size)
  }

  lemma {:induction false} SizedSnoc(blocks: seq<Block>, b: Block, size: nat)
    requires size >= 1
    ensures Sized(blocks + [b], size) == Sized(blocks, size) + Split(b, size)
  {
    if blocks == [] {
      assert blocks + [b] == [b] && Sized([b][1..], size) == [];
    } else {
      assert (blocks + [b])[1..] == blocks[1..] + [b];
      SizedSnoc(blocks[1..], b, size);
    }
  }

  method SkipBlanks(text: string, from: nat) returns (pos: nat)
    requires from <= |text|
    ensures pos == SkipSpace(text, from)
  {
    pos := from;
    while pos < |text| && IsSpace(text[pos])
      invariant pos <= |text| && SkipSpace(text, pos) == SkipSpace(text, from)
    {
      pos := pos + 1;
    }
  }

  method AddPiece(b: Block, i: nat, j: nat, pieces: seq<Block>) returns (result: seq<Block>)
    requires i <= j <= |b.text|
    ensures result == pieces + PieceOf(b, i, j)
  {
    result := pieces;
    var piece := Strip(b.text[i..j]);
    if piece != "" {
      result := result + [Block(piece, b.start + i, b.path, false)];
    }
  }

  lemma {:induction false} MarkedSnoc(piece: Span -> seq<Block>, spans: seq<Span>, last: Span)
    ensures Marked(piece, spans + [last]) == Marked(piece, spans) + piece(last)
  {
    var all := spans + [last];
    if spans == [] {
      assert all[1..] == [] && Marked(piece, []) == [];
    } else {
      assert all[1..] == spans[1..] + [last];
      MarkedSnoc(piece, spans[1..], last);
      Associative(piece(spans[0]), Marked(piece, spans[1..]), piece(last));
    }
  }

  lemma NextSpan(text: string, size: nat, pos: nat, end: nat, spans: seq<Span>, all: seq<Span>)
    requires size >= 1 && pos <= |text| && |text| - pos > size && end == pos + CutPoint(text[pos..pos + size])
    requires all == spans + Spans(text, size, pos)
    ensures all == (spans + [Span(pos, end)]) + Spans(text, size, SkipSpace(text, end))
  {
    Associative(spans, [Span(pos, end)], Spans(text, size, SkipSpace(text, end)));
  }

  method SplitBlock(b: Block, size: nat) returns (result: seq<Block>)
    requires size >= 1
    ensures result == Pieces(b, Spans(b.text, size, 0))
  {
    result := [];
    var pos: nat := 0;
    ghost var spans: seq<Span>, all := [], Spans(b.text, size, 0);
    while |b.text| - pos > size
      invariant pos <= |b.text|
      invariant all == spans + Spans(b.text, size, pos) && result == Pieces(b, spans)
      decreases |b.text| - pos
    {
      var cut := LastBreak(b.text[pos..pos + size]);
      var end := pos + cut;
      NextSpan(b.text, size, pos, end, spans, all);
      MarkedSnoc(PiecesOf(b), spans, Span(pos, end));
      spans := spans + [Span(pos, end)];
      result := AddPiece(b, pos, end, result);
      pos := SkipBlanks(b.text, end);
    }
    MarkedSnoc(PiecesOf(b), spans, Span(pos, |b.text|));
    result := AddPiece(b, pos, |b.text|, result);
  }

  method EnforceMaxSize(blocks: seq<Block>, size: nat) returns (result: seq<Block>)
    requires size >= 1
    ensures result == Sized(blocks, size)
  {
    result := [];
    for i := 0 to |blocks|
      invariant result == Sized(blocks[..i], size)
    {
      assert blocks[..i + 1] == blocks[..i] + [blocks[i]];
      SizedSnoc(blocks[..i], blocks[i], size);
      if |blocks[i].text| <= size {
        result := result + [blocks[i]];
      } else {
        var pieces := SplitBlock(blocks[i], size);
        result := result + pieces;
      }
    }
    assert blocks[..|blocks|] == blocks;
  }
}
