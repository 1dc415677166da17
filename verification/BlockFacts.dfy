/** What the first two stages keep: every non-space character, trimmed texts, and a path that only headings change. */
module BlockFacts {
  import opened Text
  import opened Blocks
  import opened Sizing

  /** The non-space characters of a list of blocks, in order. */
  function Ink(blocks: seq<Block>): string { NonSpace(Flatten(Texts(blocks))) }

  lemma InkConcat(a: seq<Block>, b: seq<Block>)
    ensures Ink(a + b) == Ink(a) + Ink(b)
  {
    assert Texts(a + b) == Texts(a) + Texts(b);
    FlattenConcat(Texts(a), Texts(b));
    NonSpaceConcat(Flatten(Texts(a)), Flatten(Texts(b)));
  }

  lemma InkSingle(b: Block)
    ensures Ink([b]) == NonSpace(b.text)
  {
    assert Flatten([b.text]) == b.text + Flatten([b.text][1..]) == b.text;
    assert Texts([b]) == [b.text];
  }

  lemma {:induction false} InkOfLines(lines: seq<string>)
    ensures NonSpace(Flatten(Chopped(lines))) == NonSpace(Flatten(lines))
  {
    if lines == [] {
    } else {
      var chopped := Chopped(lines);
      assert chopped[1..] == Chopped(lines[1..]);
      NonSpaceConcat(chopped[0], Flatten(chopped[1..]));
      NonSpaceConcat(lines[0], Flatten(lines[1..]));
      NonSpaceChop(lines[0]);
      InkOfLines(lines[1..]);
    }
  }

  lemma InkOfParagraph(doc: Document, k: nat, m: nat)
    requires doc.Shaped() && k <= m <= |doc.lines|
    ensures Ink(ProseBlocks(doc, k, m)) == NonSpace(Flatten(doc.lines[k..m]))
  {
    var lines := doc.lines[k..m];
    NonSpaceOfSpaces("\n");
    NonSpaceJoin("\n", Chopped(lines));
    InkOfLines(lines);
    NonSpaceStrip(Join("\n", Chopped(lines)));
    if ProseBlocks(doc, k, m) != [] { InkSingle(ProseBlocks(doc, k, m)[0]); }
  }

  lemma InkOfSlices(lines: seq<string>, k: nat, m: nat)
    requires k <= m <= |lines|
    ensures NonSpace(Flatten(lines[k..])) == NonSpace(Flatten(lines[k..m])) + NonSpace(Flatten(lines[m..]))
  {
    assert lines[k..] == lines[k..m] + lines[m..];
    FlattenConcat(lines[k..m], lines[m..]);
    NonSpaceConcat(Flatten(lines[k..m]), Flatten(lines[m..]));
  }

  lemma InkOfLine(doc: Document, k: nat)
    requires doc.Shaped() && k < |doc.lines| && doc.Reads(k)
    ensures doc.kinds[k].Blank? ==> NonSpace(Flatten(doc.lines[k..k + 1])) == ""
    ensures doc.kinds[k].Title? ==> NonSpace(Flatten(doc.lines[k..k + 1])) == Ink([HeadingBlock(doc, k)])
  {
    var line := doc.lines[k];
    assert doc.lines[k..k + 1] == [line] && Flatten([line]) == line + Flatten([line][1..]) == line;
    NonSpaceStrip(line);
    if doc.kinds[k].Title? { InkSingle(HeadingBlock(doc, k)); }
  }

  /** Parsing loses and invents no non-space character. */
  lemma {:induction false} ParsingKeepsInk(doc: Document, k: nat)
    requires doc.Shaped() && k <= |doc.lines|
    requires forall i :: 0 <= i < |doc.lines| ==> doc.Reads(i)
    ensures Ink(BlocksFrom(doc, k)) == NonSpace(Flatten(doc.lines[k..]))
    decreases |doc.lines| - k
  {
    if k == |doc.lines| {
    } else {
      match doc.kinds[k]
      case Blank =>
        InkOfLine(doc, k);
        InkOfSlices(doc.lines, k, k + 1);
        ParsingKeepsInk(doc, k + 1);
      case Title(_, _) =>
        InkOfLine(doc, k);
        InkOfSlices(doc.lines, k, k + 1);
        InkConcat([HeadingBlock(doc, k)], BlocksFrom(doc, k + 1));
        ParsingKeepsInk(doc, k + 1);
      case Body =>
        var m := RunEnd(doc.kinds, k + 1);
        InkOfParagraph(doc, k, m);
        InkOfSlices(doc.lines, k, m);
        InkConcat(ProseBlocks(doc, k, m), BlocksFrom(doc, m));
        ParsingKeepsInk(doc, m);
    }
  }

  /** A text that is not empty and neither begins nor ends with whitespace. */
  predicate Trimmed(s: string) { s != "" && !IsSpace(s[0]) && !IsSpace(s[|s| - 1]) }

  predicate AllTrimmed(blocks: seq<Block>) { forall i :: 0 <= i < |blocks| ==> Trimmed(blocks[i].text) }

  lemma TrimmedConcat(a: seq<Block>, b: seq<Block>)
    requires AllTrimmed(a) && AllTrimmed(b)
    ensures AllTrimmed(a + b)
  {
  }

  lemma HeadingTrimmed(doc: Document, k: nat)
    requires doc.Shaped() && k < |doc.lines| && doc.kinds[k].Title? && doc.Reads(k)
    ensures AllTrimmed([HeadingBlock(doc, k)])
  {
    StripEnds(doc.lines[k]);
  }

  lemma ProseTrimmed(doc: Document, k: nat, m: nat)
    requires doc.Shaped() && k <= m <= |doc.lines|
    ensures AllTrimmed(ProseBlocks(doc, k, m))
  {
    StripEnds(Join("\n", Chopped(doc.lines[k..m])));
  }

  lemma {:induction false} BlocksTrimmed(doc: Document, k: nat)
    requires doc.Shaped() && k <= |doc.lines|
    requires forall i :: 0 <= i < |doc.lines| ==> doc.Reads(i)
    ensures AllTrimmed(BlocksFrom(doc, k))
    decreases |doc.lines| - k
  {
    if k == |doc.lines| {
    } else {
      match doc.kinds[k]
      case Blank => BlocksTrimmed(doc, k + 1);
      case Title(_, _) =>
        HeadingTrimmed(doc, k);
        BlocksTrimmed(doc, k + 1);
        TrimmedConcat([HeadingBlock(doc, k)], BlocksFrom(doc, k + 1));
      case Body =>
        var m := RunEnd(doc.kinds, k + 1);
        ProseTrimmed(doc, k, m);
        BlocksTrimmed(doc, m);
        TrimmedConcat(ProseBlocks(doc, k, m), BlocksFrom(doc, m));
    }
  }

  lemma OneProse(doc: Document, k: nat, m: nat, b: Block)
    requires doc.Shaped() && k <= m <= |doc.lines| && b in ProseBlocks(doc, k, m)
    ensures [b] == ProseBlocks(doc, k, m) && !b.isHeading && b.start == doc.offsets[k]
  {
  }

  /** A paragraph begins on line k. */
  predicate Begins(kinds: seq<LineKind>, k: nat) {
    k < |kinds| && kinds[k] == Body && (k > 0 ==> kinds[k - 1] != Body)
  }

  /** Where the block or blank line at line k ends. */
  function LineEnd(kinds: seq<LineKind>, k: nat): (m: nat)
    requires k < |kinds|
    ensures k < m <= |kinds| && IsRun(kinds, k + 1, m) && (m == k + 1 || kinds[k] == Body)
    ensures m < |kinds| && kinds[m] == Body ==> Begins(kinds, m)
  {
    if kinds[k] == Body then RunEnd(kinds, k + 1) else k + 1
  }

  /** b is the heading on this line, or the prose of the maximal run of body lines that starts there. */
  predicate StartsAt(doc: Document, b: Block, line: nat)
    requires doc.Shaped() && line < |doc.lines|
  {
    && b.start == doc.offsets[line]
    && if b.isHeading then doc.kinds[line].Title? && b == HeadingBlock(doc, line)
       else Begins(doc.kinds, line) && [b] == ProseBlocks(doc, line, RunEnd(doc.kinds, line + 1))
  }

  /** Every parsed block starts at a line. */
  lemma {:induction false} BlockOrigin(doc: Document, k: nat, b: Block) returns (line: nat)
    requires doc.Shaped() && k <= |doc.lines| && b in BlocksFrom(doc, k)
    requires k < |doc.lines| && doc.kinds[k] == Body ==> Begins(doc.kinds, k)
    ensures k <= line < |doc.lines| && StartsAt(doc, b, line)
    decreases |doc.lines| - k
  {
    var later := FirstOrLater(doc, k, b);
    line := k;
    if later > k { line := BlockOrigin(doc, later, b); }
  }

  /** Either the first block from line k on is b, or b is among the blocks from a later line on. */
  lemma FirstOrLater(doc: Document, k: nat, b: Block) returns (later: nat)
    requires doc.Shaped() && k <= |doc.lines| && b in BlocksFrom(doc, k)
    requires k < |doc.lines| && doc.kinds[k] == Body ==> Begins(doc.kinds, k)
    ensures k < |doc.lines| && k <= later <= |doc.lines|
    ensures if later == k then StartsAt(doc, b, k) else b in BlocksFrom(doc, later)
    ensures k < later < |doc.lines| && doc.kinds[later] == Body ==> Begins(doc.kinds, later)
  {
    match doc.kinds[k]
    case Blank => later := k + 1;
    case Title(_, _) => later := if b == HeadingBlock(doc, k) then k else k + 1;
    case Body =>
      var m := RunEnd(doc.kinds, k + 1);
      if b in ProseBlocks(doc, k, m) { OneProse(doc, k, m, b); }
      later := if b in ProseBlocks(doc, k, m) then k else m;
  }

  // ---- Sizing -------------------------------------------------------------------

  lemma InkOfPiece(b: Block, i: nat, j: nat)
    requires i <= j <= |b.text|
    ensures Ink(PieceOf(b, i, j)) == NonSpace(b.text[i..j])
  {
    NonSpaceStrip(b.text[i..j]);
    if PieceOf(b, i, j) != [] { InkSingle(PieceOf(b, i, j)[0]); }
  }

  lemma InkOfCut(text: string, pos: nat, end: nat)
    requires pos <= end <= |text|
    ensures NonSpace(text[pos..]) == NonSpace(text[pos..end]) + NonSpace(text[SkipSpace(text, end)..])
  {
    var rest := SkipSpace(text, end);
    SkipSpaceMeaning(text, end);
    CutAt(text, pos, end);
    CutAt(text, end, rest);
    NonSpaceConcat(text[pos..end], text[end..]);
    NonSpaceConcat(text[end..rest], text[rest..]);
    NonSpaceOfSpaces(text[end..rest]);
  }

  lemma {:induction false} PiecesKeepInk(b: Block, spans: seq<Span>, pos: nat, size: nat)
    requires Chain(b.text, spans, pos, size)
    ensures Ink(Pieces(b, spans)) == NonSpace(b.text[pos..])
    decreases |spans|
  {
    var hi := spans[0].hi;
    InkOfPiece(b, pos, hi);
    FirstPiece(b, spans);
    InkConcat(PieceOf(b, pos, hi), Pieces(b, spans[1..]));
    if |spans| == 1 {
      assert b.text[pos..] == b.text[pos..|b.text|];
    } else {
      PiecesKeepInk(b, spans[1..], SkipSpace(b.text, hi), size);
      InkOfCut(b.text, pos, hi);
    }
  }

  /** Splitting loses and invents no non-space character. */
  lemma {:induction false} SizingKeepsInk(blocks: seq<Block>, size: nat)
    requires size >= 1
    ensures Ink(Sized(blocks, size)) == Ink(blocks)
  {
    if blocks == [] {
    } else {
      var b, rest := blocks[0], blocks[1..];
      assert blocks == [b] + rest;
      InkConcat([b], rest);
      InkConcat(Split(b, size), Sized(rest, size));
      InkSingle(b);
      SizingKeepsInk(rest, size);
      if |b.text| > size {
        SpansChain(b.text, size, 0);
        PiecesKeepInk(b, Spans(b.text, size, 0), 0, size);
        assert b.text[0..] == b.text;
      }
    }
  }

  predicate AllFit(blocks: seq<Block>, size: nat) { forall i :: 0 <= i < |blocks| ==> |blocks[i].text| <= size }

  lemma PieceShape(b: Block, i: nat, j: nat)
    requires i <= j <= |b.text|
    ensures forall p :: p in PieceOf(b, i, j) ==>
      Trimmed(p.text) && |p.text| <= j - i && !p.isHeading && p.path == b.path && p.start == b.start + i
  {
    StripEnds(b.text[i..j]);
  }

  lemma {:induction false} PiecesShape(b: Block, spans: seq<Span>, pos: nat, size: nat)
    requires Chain(b.text, spans, pos, size)
    ensures forall p :: p in Pieces(b, spans) ==>
      Trimmed(p.text) && |p.text| <= size && !p.isHeading && p.path == b.path
    decreases |spans|
  {
    PieceShape(b, pos, spans[0].hi);
    FirstPiece(b, spans);
    if |spans| > 1 { PiecesShape(b, spans[1..], SkipSpace(b.text, spans[0].hi), size); }
  }

  lemma SplitShape(b: Block, size: nat)
    requires size >= 1 && |b.text| > size
    ensures forall p :: p in Split(b, size) ==> Trimmed(p.text) && |p.text| <= size && !p.isHeading && p.path == b.path
  {
    SpansChain(b.text, size, 0);
    PiecesShape(b, Spans(b.text, size, 0), 0, size);
  }

  /** A block stays as it is exactly if it fits. */
  lemma FittingStays(b: Block, size: nat)
    requires size >= 1 && Trimmed(b.text)
    ensures Split(b, size) == [b] <==> |b.text| <= size
  {
    if |b.text| > size {
      SplitShape(b, size);
      assert b in [b];
    }
  }

  /** After sizing every block fits, and is still trimmed. */
  lemma {:induction false} SizedShape(blocks: seq<Block>, size: nat)
    requires size >= 1 && AllTrimmed(blocks)
    ensures AllFit(Sized(blocks, size), size) && AllTrimmed(Sized(blocks, size))
  {
    if blocks == [] {
    } else {
      if |blocks[0].text| > size { SplitShape(blocks[0], size); }
      SizedShape(blocks[1..], size);
    }
  }

  // ---- Paths ----------------------------------------------------------------------

  /** Only headings change the path: any other block repeats the path of the block before it, `prior` at first. */
  predicate Steady(prior: seq<string>, blocks: seq<Block>)
    decreases |blocks|
  {
    |blocks| == 0 || ((!blocks[0].isHeading ==> blocks[0].path == prior) && Steady(blocks[0].path, blocks[1..]))
  }

  lemma SteadyCons(prior: seq<string>, b: Block, rest: seq<Block>)
    ensures Steady(prior, [b] + rest) <==> (b.isHeading || b.path == prior) && Steady(b.path, rest)
  {
    assert ([b] + rest)[1..] == rest;
  }

  lemma {:induction false} SteadyRun(prior: seq<string>, run: seq<Block>, rest: seq<Block>)
    requires forall b :: b in run ==> !b.isHeading && b.path == prior
    ensures Steady(prior, run + rest) <==> Steady(prior, rest)
  {
    if run == [] {
      assert run + rest == rest;
    } else {
      assert (run + rest)[1..] == run[1..] + rest;
      assert run[0] in run;
      SteadyRun(prior, run[1..], rest);
    }
  }

  lemma {:induction false} OpenThroughRun(doc: Document, k: nat, m: nat)
    requires doc.Shaped() && k <= m <= |doc.lines| && IsRun(doc.kinds, k, m)
    requires forall i :: 0 <= i < |doc.lines| ==> doc.Moves(i)
    ensures doc.open[m] == doc.open[k]
    decreases m
  {
    if k == m {
    } else {
      assert doc.Moves(m - 1);
      OpenThroughRun(doc, k, m - 1);
    }
  }

  lemma TitleIsSteady(doc: Document, k: nat, rest: seq<Block>)
    requires doc.Shaped() && k < |doc.lines| && doc.kinds[k].Title?
    requires Steady(Titles(doc.open[k + 1]), rest)
    ensures Steady(Titles(doc.open[k]), [HeadingBlock(doc, k)] + rest)
  {
    SteadyCons(Titles(doc.open[k]), HeadingBlock(doc, k), rest);
  }

  lemma ProseIsSteady(doc: Document, k: nat, m: nat, rest: seq<Block>)
    requires doc.Shaped() && k <= m <= |doc.lines|
    ensures Steady(Titles(doc.open[k]), ProseBlocks(doc, k, m) + rest) <==> Steady(Titles(doc.open[k]), rest)
  {
    SteadyRun(Titles(doc.open[k]), ProseBlocks(doc, k, m), rest);
  }

  /** If the blocks behind line k's block are steady, so are those from line k on. */
  lemma SteadyFrom(doc: Document, k: nat, m: nat)
    requires doc.Shaped() && k < |doc.lines| && m == (if doc.kinds[k] == Body then RunEnd(doc.kinds, k + 1) else k + 1)
    requires Steady(Titles(doc.open[m]), BlocksFrom(doc, m)) && (doc.kinds[k].Title? || doc.open[m] == doc.open[k])
    ensures Steady(Titles(doc.open[k]), BlocksFrom(doc, k))
  {
    match doc.kinds[k]
    case Blank =>
    case Title(_, _) => TitleIsSteady(doc, k, BlocksFrom(doc, k + 1));
    case Body => ProseIsSteady(doc, k, m, BlocksFrom(doc, m));
  }

  lemma {:induction false} ParsedSteady(doc: Document, k: nat)
    requires doc.Shaped() && k <= |doc.lines|
    requires forall i :: 0 <= i < |doc.lines| ==> doc.Moves(i)
    ensures Steady(Titles(doc.open[k]), BlocksFrom(doc, k))
    decreases |doc.lines| - k
  {
    if k == |doc.lines| {
    } else {
      var m := if doc.kinds[k] == Body then RunEnd(doc.kinds, k + 1) else k + 1;
      assert doc.Moves(k);
      if doc.kinds[k] == Body { OpenThroughRun(doc, k, m); }
      ParsedSteady(doc, m);
      SteadyFrom(doc, k, m);
    }
  }

  /** A heading too long to stay whole is harmless only if it repeats the path in force before it. */
  predicate HeadingsSafe(prior: seq<string>, blocks: seq<Block>, size: nat)
    decreases |blocks|
  {
    |blocks| == 0
    || ((blocks[0].isHeading && |blocks[0].text| > size ==> blocks[0].path == prior)
        && HeadingsSafe(blocks[0].path, blocks[1..], size))
  }

  lemma {:induction false} PiecesExist(b: Block, size: nat)
    requires size >= 1 && Trimmed(b.text) && |b.text| > size
    ensures Split(b, size) != []
  {
    SpansChain(b.text, size, 0);
    PiecesKeepInk(b, Spans(b.text, size, 0), 0, size);
    assert b.text == b.text[0..];
    assert NonSpace(b.text) != "";
  }

  /** Splitting keeps the path steady exactly when every heading that has to be split is safe. */
  lemma {:induction false} SizedSteady(prior: seq<string>, blocks: seq<Block>, size: nat)
    requires size >= 1 && AllTrimmed(blocks) && Steady(prior, blocks)
    ensures Steady(prior, Sized(blocks, size)) <==> HeadingsSafe(prior, blocks, size)
    decreases |blocks|
  {
    if blocks == [] {
    } else {
      var b, rest := blocks[0], blocks[1..];
      SizedSteady(b.path, rest, size);
      if |b.text| <= size {
        SteadyCons(prior, b, Sized(rest, size));
      } else {
        var pieces := Split(b, size);
        SplitShape(b, size);
        PiecesExist(b, size);
        assert pieces[0] in pieces;
        if b.path == prior {
          SteadyRun(prior, pieces, Sized(rest, size));
        } else {
          assert !Steady(prior, pieces + Sized(rest, size));
        }
      }
    }
  }
}
