/**
 * What the lines of a document are, read off the lines themselves: a line is a heading, part of a paragraph, or a blank
 * between paragraphs, and inside a fence everything is part of a paragraph.
 */
module Markup {
  import opened Basics
  import opened Text
  import opened Blocks
  import opened BlockFacts

  // ---- Single lines -----------------------------------------------------------------------

  lemma FenceMeaning(bare: string)
    ensures IsFence(bare) <==> "```" <= bare || "~~~" <= bare
  {
  }

  predicate AllHashes(s: string) { forall i :: 0 <= i < |s| ==> s[i] == '#' }

  predicate AllSpaces(s: string) { forall i :: 0 <= i < |s| ==> IsSpace(s[i]) }

  predicate AllGlyphs(s: string) { forall i :: 0 <= i < |s| ==> IsGlyph(s[i]) }

  /**
   * n times '#', whitespace up to i, text from i to e that does not begin with whitespace, and the longest run of
   * permalink glyphs and whitespace behind it.
   */
  predicate HeadingShape(bare: string, n: nat, i: nat, e: nat) {
    && n < i < |bare| && i <= e <= |bare|
    && AllHashes(bare[..n]) && AllSpaces(bare[n..i]) && !IsSpace(bare[i]) && AllGlyphs(bare[e..])
    && (e > i ==> !IsGlyph(bare[e - 1]))
  }

  lemma {:induction false} HashRunIs(s: string, n: nat)
    requires n <= |s| && AllHashes(s[..n]) && (n < |s| ==> s[n] != '#')
    ensures HashRun(s) == n
    decreases n
  {
    if n == 0 {
    } else {
      assert s[..n][0] == '#' && s[1..][..n - 1] == s[..n][1..];
      HashRunIs(s[1..], n - 1);
    }
  }

  lemma {:induction false} HashRunMeaning(s: string)
    ensures AllHashes(s[..HashRun(s)])
  {
    if s == "" || s[0] != '#' {
    } else {
      HashRunMeaning(s[1..]);
      var n := HashRun(s[1..]);
      forall i | 0 <= i < n + 1 ensures s[i] == '#' { if i > 0 { assert s[1..][..n][i - 1] == s[i]; } }
    }
  }

  lemma {:induction false} DropGlyphsIs(s: string, e: nat)
    requires e <= |s| && AllGlyphs(s[e..]) && (e > 0 ==> !IsGlyph(s[e - 1]))
    ensures DropGlyphs(s) == s[..e]
    decreases |s|
  {
    if e == |s| {
      assert s[..e] == s;
    } else {
      var front := s[..|s| - 1];
      assert s[e..][|s| - 1 - e] == s[|s| - 1];
      assert front[e..] == s[e..][..|s| - 1 - e] && front[..e] == s[..e];
      DropGlyphsIs(front, e);
    }
  }

  lemma {:induction false} GlyphsBehind(s: string) returns (e: nat)
    ensures e <= |s| && AllGlyphs(s[e..]) && (e > 0 ==> !IsGlyph(s[e - 1]))
  {
    e := |s|;
    if s != "" && IsGlyph(s[|s| - 1]) {
      var front := s[..|s| - 1];
      e := GlyphsBehind(front);
      assert s[e..] == front[e..] + [s[|s| - 1]];
    }
  }

  lemma TitleStart(bare: string, n: nat, i: nat)
    requires n < i < |bare| && AllSpaces(bare[n..i]) && !IsSpace(bare[i])
    ensures IsSpace(bare[n]) && n + Indent(bare[n..]) == i
  {
    var rest := bare[n..];
    assert bare[n..i][0] == bare[n];
    forall j | 0 <= j < i - n ensures IsSpace(rest[j]) { assert rest[j] == bare[n..i][j]; }
    SkipSpaceIs(rest, 0, i - n);
  }

  lemma TitleEnd(bare: string, i: nat, e: nat)
    requires i <= e <= |bare| && AllGlyphs(bare[e..]) && (e > i ==> !IsGlyph(bare[e - 1]))
    ensures DropGlyphs(bare[i..]) == bare[i..e]
  {
    var title := bare[i..];
    assert title[e - i..] == bare[e..] && title[..e - i] == bare[i..e];
    DropGlyphsIs(title, e - i);
  }

  lemma ShapeStart(bare: string, n: nat, i: nat, e: nat)
    requires HeadingShape(bare, n, i, e)
    ensures HashRun(bare) == n && IsSpace(bare[n]) && n + Indent(bare[n..]) == i
  {
    TitleStart(bare, n, i);
    HashRunIs(bare, n);
  }

  lemma ShapeIsHeading(bare: string, n: nat, i: nat, e: nat)
    requires HeadingShape(bare, n, i, e) && 1 <= n <= 6
    ensures ParseHeading(bare) == Some(Heading(n, Strip(bare[i..e])))
  {
    ShapeStart(bare, n, i, e);
    TitleEnd(bare, i, e);
    assert ParseHeading(bare) == Some(Heading(n, Strip(DropGlyphs(bare[i..]))));
  }

  lemma HeadingIsShape(bare: string) returns (n: nat, i: nat, e: nat)
    requires ParseHeading(bare).Some?
    ensures HeadingShape(bare, n, i, e) && 1 <= n <= 6
  {
    n := HashRun(bare);
    var rest := bare[n..];
    HashRunMeaning(bare);
    SkipSpaceMeaning(rest, 0);
    i := n + Indent(rest);
    assert bare[n..i] == rest[..Indent(rest)] && bare[i] == rest[Indent(rest)];
    assert rest[0] == bare[n];
    var behind := GlyphsBehind(bare[i..]);
    e := i + behind;
    assert bare[e..] == bare[i..][behind..];
  }

  /** A heading is one to six '#', whitespace and a text, its title the text without permalink glyphs at its end. */
  lemma HeadingMeaning(bare: string, h: Heading)
    ensures ParseHeading(bare) == Some(h) <==>
      1 <= h.level <= 6 && exists i: nat, e: nat :: HeadingShape(bare, h.level, i, e) && h.title == Strip(bare[i..e])
  {
    if ParseHeading(bare) == Some(h) {
      var n, i, e := HeadingIsShape(bare);
      ShapeIsHeading(bare, n, i, e);
    }
    if 1 <= h.level <= 6 && exists i: nat, e: nat :: HeadingShape(bare, h.level, i, e) && h.title == Strip(bare[i..e]) {
      var i: nat, e: nat :| HeadingShape(bare, h.level, i, e) && h.title == Strip(bare[i..e]);
      ShapeIsHeading(bare, h.level, i, e);
    }
  }

  // ---- Lines in their document ---------------------------------------------------------------

  /** An odd number of fence lines precede the line. */
  predicate Fenced(marks: seq<Mark>, k: nat)
    requires k <= |marks|
  {
    FenceCount(marks, k) % 2 == 1
  }

  predicate HeadingLine(marks: seq<Mark>, k: nat)
    requires k < |marks|
  {
    !marks[k].isFence && !Fenced(marks, k) && marks[k].heading.Some?
  }

  /** Fence lines, whatever lies between two of them, and other text that is no heading. */
  predicate ProseLine(marks: seq<Mark>, k: nat)
    requires k < |marks|
  {
    marks[k].isFence || Fenced(marks, k) || (marks[k].heading.None? && marks[k].bare != "")
  }

  /** Lines k..m are prose, and the lines around them are not. */
  predicate ProseRun(marks: seq<Mark>, k: nat, m: nat) {
    && k < m <= |marks| && (forall i :: k <= i < m ==> ProseLine(marks, i))
    && (k > 0 ==> !ProseLine(marks, k - 1)) && (m < |marks| ==> !ProseLine(marks, m))
  }

  /** The headings among the first k lines. */
  function HeadingsAbove(marks: seq<Mark>, k: nat): seq<Heading>
    requires k <= |marks|
  {
    if k == 0 then []
    else HeadingsAbove(marks, k - 1) + if HeadingLine(marks, k - 1) then [marks[k - 1].heading.value] else []
  }

  lemma KindIs(marks: seq<Mark>, k: nat)
    requires k < |marks|
    ensures Kind(marks, k).Title? <==> HeadingLine(marks, k)
    ensures HeadingLine(marks, k) ==> Kind(marks, k) == Title(marks[k].heading.value, marks[k].bare)
    ensures Kind(marks, k) == Body <==> ProseLine(marks, k)
  {
    FenceParity(marks, k);
  }

  lemma {:induction false} HeadingsAgree(marks: seq<Mark>, k: nat)
    requires k <= |marks|
    ensures HeadingsBefore(Kinds(marks), k) == HeadingsAbove(marks, k)
  {
    if k == 0 {
    } else {
      HeadingsAgree(marks, k - 1);
      KindIs(marks, k - 1);
    }
  }

  /** From an opening fence through its closing one every line is prose, blank lines and apparent headings included. */
  lemma {:induction false} FencedIsProse(marks: seq<Mark>, i: nat, j: nat)
    requires i <= j < |marks| && marks[i].isFence && !Fenced(marks, i)
    requires forall l :: i < l < j ==> !marks[l].isFence
    ensures ProseLine(marks, j) && (j > i ==> FenceCount(marks, j) == FenceCount(marks, i) + 1)
    decreases j
  {
    if j == i {
    } else {
      FencedIsProse(marks, i, j - 1);
    }
  }

  /** Every prose line lies in a run. */
  lemma {:induction false} RunAround(marks: seq<Mark>, i: nat, j: nat) returns (k: nat, m: nat)
    requires i < j <= |marks| && forall l :: i <= l < j ==> ProseLine(marks, l)
    ensures ProseRun(marks, k, m) && k <= i && j <= m
    decreases i + (|marks| - j)
  {
    if i > 0 && ProseLine(marks, i - 1) {
      k, m := RunAround(marks, i - 1, j);
    } else if j < |marks| && ProseLine(marks, j) {
      k, m := RunAround(marks, i, j + 1);
    } else {
      k, m := i, j;
    }
  }

  // ---- Every such line is a block ---------------------------------------------------------------

  lemma NextBlocks(doc: Document, k: nat)
    requires doc.Shaped() && k < |doc.lines|
    ensures forall b :: b in BlocksFrom(doc, LineEnd(doc.kinds, k)) ==> b in BlocksFrom(doc, k)
    ensures doc.kinds[k].Title? ==> HeadingBlock(doc, k) in BlocksFrom(doc, k)
    ensures doc.kinds[k] == Body ==>
      forall b :: b in ProseBlocks(doc, k, LineEnd(doc.kinds, k)) ==> b in BlocksFrom(doc, k)
  {
  }

  /** A heading line, and a line on which a paragraph begins, is a block of every stretch before it. */
  lemma {:induction false} LineIsBlock(doc: Document, from: nat, k: nat)
    requires doc.Shaped() && from <= k < |doc.lines| && (doc.kinds[k].Title? || Begins(doc.kinds, k))
    ensures doc.kinds[k].Title? ==> HeadingBlock(doc, k) in BlocksFrom(doc, from)
    ensures Begins(doc.kinds, k) ==>
      forall b :: b in ProseBlocks(doc, k, RunEnd(doc.kinds, k + 1)) ==> b in BlocksFrom(doc, from)
    decreases |doc.lines| - from
  {
    NextBlocks(doc, from);
    if from < k {
      assert LineEnd(doc.kinds, from) <= k;
      LineIsBlock(doc, LineEnd(doc.kinds, from), k);
    }
  }
}
