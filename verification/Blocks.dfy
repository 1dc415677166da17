/** Stage one of the chunker: Markdown text to paragraph and heading blocks with their heading paths. */
module Blocks {
  import opened Basics
  import opened Text

  /** A heading line: its level (number of '#') and its title. */
  datatype Heading = Heading(level: nat, title: string)

  datatype Block = Block(text: string, start: nat, path: seq<string>, isHeading: bool)

  function Texts(blocks: seq<Block>): seq<string> {
    seq(|blocks|, i requires 0 <= i < |blocks| => blocks[i].text)
  }

  // ---- Line scanners -------------------------------------------------------

  function HashRun(s: string): (n: nat)
    ensures n <= |s|
    ensures n < |s| ==> s[n] != '#'
  {
    if s != "" && s[0] == '#' then 1 + HashRun(s[1..]) else 0
  }

  predicate IsGlyph(c: char) { IsSpace(c) || c == '\U{00B6}' || c == '#' || c == '\U{00A7}' }

  /** The title without a trailing run of permalink glyphs and whitespace. */
  function DropGlyphs(s: string): string {
    if s != "" && IsGlyph(s[|s| - 1]) then DropGlyphs(s[..|s| - 1]) else s
  }

  /** One to six '#', whitespace, then a non-empty rest. */
  function ParseHeading(bare: string): Option<Heading> {
    var n := HashRun(bare);
    if 1 <= n <= 6 && n < |bare| && IsSpace(bare[n]) && n + Indent(bare[n..]) < |bare|
    then Some(Heading(n, Strip(DropGlyphs(bare[n + Indent(bare[n..])..]))))
    else None
  }

  /** Three backticks or three tildes open or close a fence. */
  predicate IsFence(bare: string) {
    |bare| >= 3 && bare[0] == bare[1] == bare[2] && (bare[0] == '`' || bare[0] == '~')
  }

  /** A line as the scanner reads it: its stripped text and the markup that text would be outside a fence. */
  datatype Mark = Mark(bare: string, isFence: bool, heading: Option<Heading>)

  function Read(line: string): Mark {
    var bare := Strip(line);
    Mark(bare, IsFence(bare), ParseHeading(bare))
  }

  function Marks(lines: seq<string>): (marks: seq<Mark>)
    ensures |marks| == |lines|
  {
    seq(|lines|, i requires 0 <= i < |lines| => Read(lines[i]))
  }

  // ---- What the lines of a document mean -----------------------------------

  datatype LineKind = Blank | Title(heading: Heading, text: string) | Body

  /** Whether line k lies inside a fenced code block. */
  predicate InFence(marks: seq<Mark>, k: nat)
    requires k <= |marks|
  {
    k > 0 && if marks[k - 1].isFence then !InFence(marks, k - 1) else InFence(marks, k - 1)
  }

  function FenceCount(marks: seq<Mark>, k: nat): nat
    requires k <= |marks|
  {
    if k == 0 then 0 else FenceCount(marks, k - 1) + if marks[k - 1].isFence then 1 else 0
  }

  /** A line lies inside a fence exactly when an odd number of fence lines precede it. */
  lemma {:induction false} FenceParity(marks: seq<Mark>, k: nat)
    requires k <= |marks|
    ensures InFence(marks, k) <==> FenceCount(marks, k) % 2 == 1
  {
    if k == 0 {
    } else {
      FenceParity(marks, k - 1);
    }
  }

  function Kind(marks: seq<Mark>, k: nat): LineKind
    requires k < |marks|
  {
    var mark := marks[k];
    if mark.isFence || InFence(marks, k) then Body
    else if mark.heading.Some? then Title(mark.heading.value, mark.bare)
    else if mark.bare == "" then Blank
    else Body
  }

  function Kinds(marks: seq<Mark>): (kinds: seq<LineKind>)
    ensures |kinds| == |marks|
  {
    seq(|marks|, i requires 0 <= i < |marks| => Kind(marks, i))
  }

  /** All headings among the first k lines, in order. */
  function HeadingsBefore(kinds: seq<LineKind>, k: nat): seq<Heading>
    requires k <= |kinds|
  {
    if k == 0 then []
    else HeadingsBefore(kinds, k - 1) + if kinds[k - 1].Title? then [kinds[k - 1].heading] else []
  }

  /** Heading i is still open: no later heading has an equal or smaller level. */
  predicate IsOpen(headings: seq<Heading>, i: nat)
    requires i < |headings|
  {
    forall j :: i < j < |headings| ==> headings[j].level > headings[i].level
  }

  /** The open headings from index i on, in document order. */
  function OpenFrom(headings: seq<Heading>, i: nat): seq<Heading>
    requires i <= |headings|
    decreases |headings| - i
  {
    if i == |headings| then []
    else (if IsOpen(headings, i) then [headings[i]] else []) + OpenFrom(headings, i + 1)
  }

  function Titles(stack: seq<Heading>): seq<string> {
    seq(|stack|, i requires 0 <= i < |stack| => stack[i].title)
  }

  // ---- The heading stack ----------------------------------------------------

  predicate Increasing(stack: seq<Heading>) {
    forall i, j :: 0 <= i < j < |stack| ==> stack[i].level < stack[j].level
  }

  /** Pops every heading of an equal or deeper level, as the scanner does before pushing. */
  function PopTo(stack: seq<Heading>, level: nat): seq<Heading> {
    if stack != [] && stack[|stack| - 1].level >= level then PopTo(stack[..|stack| - 1], level) else stack
  }

  /** Every open heading before index i has a smaller level than h. */
  predicate BelowOpen(headings: seq<Heading>, i: nat, h: Heading)
    requires i <= |headings|
  {
    forall k :: 0 <= k < i && IsOpen(headings, k) ==> headings[k].level < h.level
  }

  /** Open headings keep the levels rising when they are put in front. */
  lemma HeadingInFront(headings: seq<Heading>, i: nat, rest: seq<Heading>)
    requires i < |headings| && IsOpen(headings, i) && Increasing(rest)
    requires forall h :: h in rest ==> BelowOpen(headings, i + 1, h)
    ensures Increasing([headings[i]] + rest) && BelowOpen(headings, i, headings[i])
  {
    forall k | 0 <= k < |rest| ensures headings[i].level < rest[k].level {
      assert rest[k] in rest && BelowOpen(headings, i + 1, rest[k]);
    }
  }

  lemma {:induction false} OpenFromLevels(headings: seq<Heading>, i: nat)
    requires i <= |headings|
    ensures Increasing(OpenFrom(headings, i))
    ensures forall h :: h in OpenFrom(headings, i) ==> BelowOpen(headings, i, h)
    decreases |headings| - i
  {
    if i == |headings| {
    } else {
      OpenFromLevels(headings, i + 1);
      if IsOpen(headings, i) { HeadingInFront(headings, i, OpenFrom(headings, i + 1)); }
    }
  }

  lemma {:induction false} PopToConcat(h: Heading, rest: seq<Heading>, level: nat)
    requires Increasing([h] + rest)
    ensures PopTo([h] + rest, level) == if h.level < level then [h] + PopTo(rest, level) else []
    ensures h.level >= level ==> PopTo(rest, level) == []
  {
    if rest == [] {
      assert [h] + rest == [h] && [h][..0] == [];
    } else {
      var s := [h] + rest;
      var front := rest[..|rest| - 1];
      assert s[..|s| - 1] == [h] + front;
      assert forall i :: 0 <= i < |rest| ==> s[i + 1] == rest[i];
      assert s[0].level < s[|s| - 1].level;
      assert Increasing([h] + front);
      if rest[|rest| - 1].level >= level { PopToConcat(h, front, level); }
    }
  }

  /** Popping and pushing a heading keeps the stack equal to the open headings. */
  lemma {:induction false} PushKeepsOpen(headings: seq<Heading>, h: Heading, i: nat)
    requires i <= |headings|
    ensures OpenFrom(headings + [h], i) == PopTo(OpenFrom(headings, i), h.level) + [h]
    decreases |headings| - i
  {
    if i == |headings| {
      assert OpenFrom(headings + [h], i + 1) == [];
    } else {
      PushKeepsOpen(headings, h, i + 1);
      OpenFromLevels(headings, i);
      OpenAfterPush(headings, h, i);
      var rest := OpenFrom(headings, i + 1);
      if IsOpen(headings, i) {
        PopToConcat(headings[i], rest, h.level);
        assert OpenFrom(headings, i) == [headings[i]] + rest;
      } else {
        assert OpenFrom(headings, i) == rest;
      }
    }
  }

  lemma OpenAfterPush(headings: seq<Heading>, h: Heading, i: nat)
    requires i < |headings|
    ensures IsOpen(headings + [h], i) <==> IsOpen(headings, i) && headings[i].level < h.level
  {
    var all := headings + [h];
    assert all[|headings|] == h;
    assert forall j :: i <= j < |headings| ==> all[j] == headings[j];
  }

  lemma {:induction false} OpenFromMembers(headings: seq<Heading>, i: nat)
    requires i <= |headings|
    ensures forall h :: h in OpenFrom(headings, i) <==>
      exists k :: i <= k < |headings| && headings[k] == h && IsOpen(headings, k)
    decreases |headings| - i
  {
    if i == |headings| {
    } else {
      OpenFromMembers(headings, i + 1);
    }
  }

  // ---- The reference partition of a document into blocks --------------------

  /** A document with what its lines mean: their kinds, and before each line the open headings and the source offset. */
  datatype Document = Document(lines: seq<string>, kinds: seq<LineKind>, open: seq<seq<Heading>>, offsets: seq<nat>) {
    predicate Shaped() { |kinds| == |lines| && |open| == |lines| + 1 && |offsets| == |lines| + 1 }

    /** How line i moves the stack and the offset. */
    ghost predicate Moves(i: nat)
      requires Shaped() && i < |lines|
    {
      && offsets[i + 1] == offsets[i] + |lines[i]|
      && open[i + 1] == if kinds[i].Title? then PopTo(open[i], kinds[i].heading.level) + [kinds[i].heading] else open[i]
    }

    /** What the kind of line i says about its text. */
    ghost predicate Reads(i: nat)
      requires Shaped() && i < |lines|
    {
      && (kinds[i].Title? ==> kinds[i].text == Strip(lines[i]) != "")
      && (kinds[i].Blank? ==> Strip(lines[i]) == "")
    }
  }

  /** Every line of k..m belongs to the body of a paragraph. */
  predicate IsRun(kinds: seq<LineKind>, k: nat, m: nat)
    requires k <= m <= |kinds|
  {
    forall i :: k <= i < m ==> kinds[i] == Body
  }

  /** The end of the maximal run of body lines that starts at k. */
  function RunEnd(kinds: seq<LineKind>, k: nat): (m: nat)
    requires k <= |kinds|
    ensures k <= m <= |kinds| && IsRun(kinds, k, m)
    ensures m < |kinds| ==> kinds[m] != Body
    decreases |kinds| - k
  {
    if k < |kinds| && kinds[k] == Body then RunEnd(kinds, k + 1) else k
  }

  function Chopped(lines: seq<string>): seq<string> {
    seq(|lines|, i requires 0 <= i < |lines| => Chop(lines[i]))
  }

  function ParagraphOf(lines: seq<string>): string { Strip(Join("\n", Chopped(lines))) }

  function Paragraph(lines: seq<string>, k: nat, m: nat): string
    requires k <= m <= |lines|
  {
    ParagraphOf(lines[k..m])
  }

  function ProseBlocks(doc: Document, k: nat, m: nat): seq<Block>
    requires doc.Shaped() && k <= m <= |doc.lines|
  {
    var text := Paragraph(doc.lines, k, m);
    if text == "" then [] else [Block(text, doc.offsets[k], Titles(doc.open[k]), false)]
  }

  function HeadingBlock(doc: Document, k: nat): Block
    requires doc.Shaped() && k < |doc.lines| && doc.kinds[k].Title?
  {
    Block(doc.kinds[k].text, doc.offsets[k], Titles(doc.open[k + 1]), true)
  }

  /** The blocks of lines k..: one per heading line and one per maximal run of body lines. */
  function BlocksFrom(doc: Document, k: nat): seq<Block>
    requires doc.Shaped() && k <= |doc.lines|
    decreases |doc.lines| - k
  {
    if k == |doc.lines| then []
    else match doc.kinds[k]
      case Blank => BlocksFrom(doc, k + 1)
      case Title(_, _) => [HeadingBlock(doc, k)] + BlocksFrom(doc, k + 1)
      case Body => var m := RunEnd(doc.kinds, k + 1); ProseBlocks(doc, k, m) + BlocksFrom(doc, m)
  }

  /** The document that a text is: each line's kind, the headings open before it, and its source offset. */
  function Parse(text: string): (doc: Document)
    ensures doc.Shaped()
  {
    var lines := SplitLines(text);
    var kinds := Kinds(Marks(lines));
    Document(lines, kinds,
             seq(|lines| + 1, k requires 0 <= k <= |kinds| => OpenFrom(HeadingsBefore(kinds, k), 0)),
             seq(|lines| + 1, k requires 0 <= k <= |lines| => Offset(lines, k)))
  }

  lemma ParseMoves(text: string, i: nat)
    requires i < |Parse(text).lines|
    ensures Parse(text).Moves(i)
  {
    var doc := Parse(text);
    OffsetStep(doc.lines, i);
    if doc.kinds[i].Title? {
      PushKeepsOpen(HeadingsBefore(doc.kinds, i), doc.kinds[i].heading, 0);
    } else {
      assert HeadingsBefore(doc.kinds, i + 1) == HeadingsBefore(doc.kinds, i);
    }
  }

  lemma ParseReads(text: string, i: nat)
    requires i < |Parse(text).lines|
    ensures Parse(text).Reads(i)
  {
    var marks := Marks(Parse(text).lines);
    assert Parse(text).kinds[i] == Kind(marks, i);
    assert marks[i] == Read(Parse(text).lines[i]);
  }

  /**
   * The heading path means what it says: at every line the open headings are, in document order, exactly the
   * headings seen so far outside fences that no later heading has closed, and their levels strictly increase.
   */
  lemma PathMeaning(text: string, k: nat)
    requires k <= |Parse(text).lines|
    ensures var doc := Parse(text); var hs := HeadingsBefore(doc.kinds, k);
      && doc.open[k] == OpenFrom(hs, 0)
      && Increasing(doc.open[k])
      && (forall h :: h in doc.open[k] <==> exists i :: 0 <= i < |hs| && hs[i] == h && IsOpen(hs, i))
  {
    var hs := HeadingsBefore(Parse(text).kinds, k);
    OpenFromLevels(hs, 0);
    OpenFromMembers(hs, 0);
  }

  // ---- The scanner ------------------------------------------------------------

  lemma {:induction false} RunEndIs(kinds: seq<LineKind>, k: nat, m: nat)
    requires k <= m <= |kinds| && IsRun(kinds, k, m)
    requires m < |kinds| ==> kinds[m] != Body
    ensures RunEnd(kinds, k) == m
    decreases m - k
  {
    if k == m {
    } else {
      RunEndIs(kinds, k + 1, m);
    }
  }

  /** What closing the paragraph that spans lines k..m contributes to the reference partition. */
  lemma CloseRun(doc: Document, k: nat, m: nat)
    requires doc.Shaped() && k <= m <= |doc.lines| && IsRun(doc.kinds, k, m)
    requires m < |doc.lines| ==> doc.kinds[m] != Body
    ensures BlocksFrom(doc, k) == ProseBlocks(doc, k, m) + BlocksFrom(doc, m)
  {
    if k == m {
      assert Chopped(doc.lines[k..m]) == [];
    } else {
      RunEndIs(doc.kinds, k + 1, m);
    }
  }

  /** The local state of the line loop, shared with its flush step. */
  datatype Scan = Scan(blocks: seq<Block>, stack: seq<Heading>, buffer: seq<string>, bufferStart: nat, offset: nat,
                       inFence: bool)

  /** The state after i lines, the pending paragraph having begun at line `from`. */
  ghost predicate Scanned(doc: Document, s: Scan, i: nat, from: nat)
    requires doc.Shaped() && from <= i <= |doc.lines|
  {
    && s.stack == doc.open[i] && s.offset == doc.offsets[i]
    && s.buffer == Chopped(doc.lines[from..i]) && IsRun(doc.kinds, from, i)
    && (from < i ==> s.bufferStart == doc.offsets[from] && doc.open[from] == doc.open[i])
    && BlocksFrom(doc, 0) == s.blocks + BlocksFrom(doc, from)
  }

  /** Closes the pending paragraph, if any. */
  method Flush(s: Scan, ghost doc: Document, ghost i: nat, ghost from: nat) returns (t: Scan)
    requires doc.Shaped() && from <= i <= |doc.lines| && Scanned(doc, s, i, from)
    requires i < |doc.lines| ==> doc.kinds[i] != Body
    ensures t.inFence == s.inFence && Scanned(doc, t, i, i)
  {
    t := s;
    CloseRun(doc, from, i);
    Associative(s.blocks, ProseBlocks(doc, from, i), BlocksFrom(doc, i));
    if s.buffer != [] {
      var joined := Strip(Join("\n", s.buffer));
      if joined != "" {
        t := t.(blocks := t.blocks + [Block(joined, s.bufferStart, Titles(s.stack), false)]);
      }
      t := t.(buffer := []);
    }
  }

  method Append(s: Scan, line: string, ghost doc: Document, ghost i: nat, ghost from: nat) returns (t: Scan)
    requires doc.Shaped() && from <= i < |doc.lines| && line == doc.lines[i] && doc.kinds[i] == Body && doc.Moves(i)
    requires Scanned(doc, s, i, from)
    ensures t.inFence == s.inFence && Scanned(doc, t, i + 1, from)
  {
    t := s;
    if s.buffer == [] { t := t.(bufferStart := s.offset); }
    t := t.(buffer := s.buffer + [Chop(line)], offset := s.offset + |line|);
    assert doc.lines[from..i + 1] == doc.lines[from..i] + [line];
  }

  /** Pops the headings that h closes, then pushes it. */
  method Push(stack: seq<Heading>, h: Heading) returns (out: seq<Heading>)
    ensures out == PopTo(stack, h.level) + [h]
  {
    out := stack;
    while out != [] && out[|out| - 1].level >= h.level
      invariant PopTo(out, h.level) == PopTo(stack, h.level)
    {
      out := out[..|out| - 1];
    }
    out := out + [h];
  }

  /** A heading line is a block of its own, under its own path. */
  method AddHeading(s: Scan, line: string, bare: string, h: Heading, ghost doc: Document, ghost i: nat)
    returns (t: Scan)
    requires doc.Shaped() && i < |doc.lines| && line == doc.lines[i] && doc.kinds[i] == Title(h, bare) && doc.Moves(i)
    requires Scanned(doc, s, i, i)
    ensures t.inFence == s.inFence && Scanned(doc, t, i + 1, i + 1)
  {
    var stack := Push(s.stack, h);
    var block := Block(bare, s.offset, Titles(stack), true);
    Associative(s.blocks, [block], BlocksFrom(doc, i + 1));
    t := s.(stack := stack, blocks := s.blocks + [block], offset := s.offset + |line|);
  }

  /** One turn of the line loop. */
  method Feed(s: Scan, line: string, mark: Mark, ghost doc: Document, ghost marks: seq<Mark>, ghost i: nat,
              ghost from: nat)
    returns (t: Scan, ghost next: nat)
    requires doc.Shaped() && from <= i < |doc.lines| == |marks| && doc.Moves(i)
    requires line == doc.lines[i] && mark == marks[i] && doc.kinds[i] == Kind(marks, i)
    requires Scanned(doc, s, i, from) && s.inFence == InFence(marks, i)
    ensures next <= i + 1 && Scanned(doc, t, i + 1, next) && t.inFence == InFence(marks, i + 1)
  {
    next := from;
    if mark.isFence {
      t := Append(s, line, doc, i, from);
      t := t.(inFence := !t.inFence);
    } else if s.inFence {
      t := Append(s, line, doc, i, from);
    } else if mark.heading.Some? {
      t := Flush(s, doc, i, from);
      t := AddHeading(t, line, mark.bare, mark.heading.value, doc, i);
      next := i + 1;
    } else if mark.bare == "" {
      t := Flush(s, doc, i, from);
      t := t.(offset := t.offset + |line|);
      next := i + 1;
    } else {
      t := Append(s, line, doc, i, from);
    }
  }

  /** The line-at-a-time scanner yields exactly the reference partition of the document. */
  method ParseBlocks(text: string) returns (blocks: seq<Block>)
    ensures blocks == BlocksFrom(Parse(text), 0)
  {
    var lines := SplitLines(text);
    ghost var doc, marks := Parse(text), Marks(lines);
    var s := Scan([], [], [], 0, 0, false);
    ghost var from: nat := 0;
    for i := 0 to |lines|
      invariant from <= i && Scanned(doc, s, i, from)
      invariant s.inFence == InFence(marks, i)
    {
      ParseMoves(text, i);
      s, from := Feed(s, lines[i], Read(lines[i]), doc, marks, i, from);
    }
    s := Flush(s, doc, |lines|, from);
    blocks := s.blocks;
  }
}
