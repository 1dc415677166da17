/** Character classes, trimming, line splitting and joining: the string operations the chunker is built on. */
module Text {

  lemma DropDrop(s: string, a: nat, b: nat)
    requires a + b <= |s|
    ensures s[a..][b..] == s[a + b..]
  {
    assert s[a..][b..] == s[a + b..];
  }

  lemma CutAt(s: string, a: nat, b: nat)
    requires a <= b <= |s|
    ensures s[a..] == s[a..b] + s[b..]
  {
    assert s[a..] == s[a..b] + s[b..];
  }

  /** A slice of a slice is a slice. */
  lemma SliceOfSlice(s: string, a: nat, b: nat, c: nat, d: nat)
    requires a <= b <= |s| && c <= d <= b - a
    ensures s[a..b][c..d] == s[a + c..a + d]
  {
    var inner, outer := s[a..b][c..d], s[a + c..a + d];
    forall k | 0 <= k < d - c ensures inner[k] == outer[k] {
      assert s[a..b][c + k] == s[a + (c + k)];
    }
    assert inner == outer;
  }

  /** The characters Python's str.isspace and the regex class \s agree on. */
  predicate IsSpace(c: char) {
    var n := c as int;
    || n == 0x20 || 0x09 <= n <= 0x0D || 0x1C <= n <= 0x1F || n == 0x85 || n == 0xA0 || n == 0x1680
    || 0x2000 <= n <= 0x200A || n == 0x2028 || n == 0x2029 || n == 0x202F || n == 0x205F || n == 0x3000
  }

  /** The characters at which str.splitlines ends a line. */
  predicate IsBreak(c: char) {
    var n := c as int;
    0x0A <= n <= 0x0D || 0x1C <= n <= 0x1E || n == 0x85 || n == 0x2028 || n == 0x2029
  }

  /** The first index from i on that holds no whitespace. */
  function SkipSpace(s: string, i: nat): (n: nat)
    requires i <= |s|
    ensures i <= n <= |s|
    decreases |s| - i
  {
    if i < |s| && IsSpace(s[i]) then SkipSpace(s, i + 1) else i
  }

  /** The end of s[..n] without its trailing whitespace. */
  function SolidEnd(s: string, n: nat): (m: nat)
    requires n <= |s|
    ensures m <= n
  {
    if n > 0 && IsSpace(s[n - 1]) then SolidEnd(s, n - 1) else n
  }

  lemma {:induction false} SkipSpaceMeaning(s: string, i: nat)
    requires i <= |s|
    ensures var n := SkipSpace(s, i); (n < |s| ==> !IsSpace(s[n])) && forall j :: i <= j < n ==> IsSpace(s[j])
    decreases |s| - i
  {
    if i < |s| && IsSpace(s[i]) { SkipSpaceMeaning(s, i + 1); }
  }

  /** Skipping stops at the end or at ink, right behind whitespace if it moved. */
  lemma {:induction false} SkipSpaceStops(s: string, i: nat)
    requires i <= |s|
    ensures var n := SkipSpace(s, i); (n < |s| ==> !IsSpace(s[n])) && (i < n ==> IsSpace(s[n - 1]))
    decreases |s| - i
  {
    if i < |s| && IsSpace(s[i]) { SkipSpaceStops(s, i + 1); }
  }

  lemma {:induction false} SkipSpaceIs(s: string, i: nat, n: nat)
    requires i <= n <= |s| && (n < |s| ==> !IsSpace(s[n])) && forall j :: i <= j < n ==> IsSpace(s[j])
    ensures SkipSpace(s, i) == n
    decreases n - i
  {
    if i == n {
    } else {
      SkipSpaceIs(s, i + 1, n);
    }
  }

  lemma {:induction false} SolidEndMeaning(s: string, n: nat)
    requires n <= |s|
    ensures var m := SolidEnd(s, n); (m > 0 ==> !IsSpace(s[m - 1])) && forall j :: m <= j < n ==> IsSpace(s[j])
  {
    if n > 0 && IsSpace(s[n - 1]) { SolidEndMeaning(s, n - 1); }
  }

  /** Length of the leading whitespace. */
  function Indent(s: string): (n: nat)
    ensures n <= |s|
  {
    SkipSpace(s, 0)
  }

  function Strip(s: string): string {
    if Indent(s) < SolidEnd(s, |s|) then s[Indent(s)..SolidEnd(s, |s|)] else ""
  }

  lemma StripMeaning(s: string)
    ensures Strip(s) == "" <==> forall i :: 0 <= i < |s| ==> IsSpace(s[i])
    ensures var t := Strip(s); t != "" ==> !IsSpace(t[0]) && !IsSpace(t[|t| - 1])
  {
    SkipSpaceMeaning(s, 0);
    SolidEndMeaning(s, |s|);
    if Indent(s) < SolidEnd(s, |s|) {
      assert !IsSpace(s[Indent(s)]);
    }
  }

  lemma StripEnds(s: string)
    ensures var t := Strip(s); t != "" ==> !IsSpace(t[0]) && !IsSpace(t[|t| - 1])
  {
    StripMeaning(s);
  }

  lemma StripOfTrimmed(s: string)
    requires s != "" && !IsSpace(s[0]) && !IsSpace(s[|s| - 1])
    ensures Strip(s) == s
  {
  }

  /** The text with all whitespace deleted. */
  function NonSpace(s: string): string {
    if s == "" then "" else (if IsSpace(s[0]) then "" else [s[0]]) + NonSpace(s[1..])
  }

  lemma {:induction false} NonSpaceConcat(a: string, b: string)
    ensures NonSpace(a + b) == NonSpace(a) + NonSpace(b)
  {
    if a == "" {
      assert a + b == b;
    } else {
      assert (a + b)[1..] == a[1..] + b;
      NonSpaceConcat(a[1..], b);
    }
  }

  lemma {:induction false} NonSpaceOfSpaces(s: string)
    requires forall i :: 0 <= i < |s| ==> IsSpace(s[i])
    ensures NonSpace(s) == ""
  {
    if s == "" {
    } else {
      NonSpaceOfSpaces(s[1..]);
    }
  }

  lemma NonSpaceOfSlice(s: string, i: nat, e: nat)
    requires i <= e <= |s|
    requires forall j :: 0 <= j < |s| && !(i <= j < e) ==> IsSpace(s[j])
    ensures NonSpace(s[i..e]) == NonSpace(s)
  {
    var before, slice, behind := s[..i], s[i..e], s[e..];
    assert s == before + s[i..];
    CutAt(s, i, e);
    NonSpaceConcat(before, s[i..]);
    NonSpaceConcat(slice, behind);
    forall j | 0 <= j < |before| ensures IsSpace(before[j]) { assert before[j] == s[j]; }
    forall j | 0 <= j < |behind| ensures IsSpace(behind[j]) { assert behind[j] == s[e + j]; }
    NonSpaceOfSpaces(before);
    NonSpaceOfSpaces(behind);
  }

  lemma NonSpaceStrip(s: string)
    ensures NonSpace(Strip(s)) == NonSpace(s)
  {
    SkipSpaceMeaning(s, 0);
    SolidEndMeaning(s, |s|);
    if Indent(s) < SolidEnd(s, |s|) {
      NonSpaceOfSlice(s, Indent(s), SolidEnd(s, |s|));
    } else {
      NonSpaceOfSpaces(s);
    }
  }

  /** separator.join(parts) */
  function Join(separator: string, parts: seq<string>): string {
    if |parts| == 0 then "" else if |parts| == 1 then parts[0] else parts[0] + separator + Join(separator, parts[1..])
  }

  function Flatten(parts: seq<string>): string {
    if |parts| == 0 then "" else parts[0] + Flatten(parts[1..])
  }

  lemma {:induction false} FlattenConcat(a: seq<string>, b: seq<string>)
    ensures Flatten(a + b) == Flatten(a) + Flatten(b)
  {
    if a == [] {
      assert a + b == b;
    } else {
      assert (a + b)[1..] == a[1..] + b;
      FlattenConcat(a[1..], b);
    }
  }

  lemma {:induction false} JoinSnoc(separator: string, parts: seq<string>, last: string)
    requires parts != []
    ensures Join(separator, parts + [last]) == Join(separator, parts) + separator + last
  {
    assert (parts + [last])[1..] == parts[1..] + [last];
    if |parts| > 1 { JoinSnoc(separator, parts[1..], last); }
  }

  lemma NonSpaceAround(a: string, separator: string, b: string)
    requires NonSpace(separator) == ""
    ensures NonSpace(a + separator + b) == NonSpace(a) + NonSpace(b)
  {
    NonSpaceConcat(a + separator, b);
    NonSpaceConcat(a, separator);
    assert NonSpace(a) + "" == NonSpace(a);
  }

  /** Joining with whitespace adds and loses no non-space character. */
  lemma {:induction false} NonSpaceJoin(separator: string, parts: seq<string>)
    requires NonSpace(separator) == ""
    ensures NonSpace(Join(separator, parts)) == NonSpace(Flatten(parts))
  {
    if |parts| == 0 {
    } else if |parts| == 1 {
      assert Flatten(parts) == parts[0] + "" == parts[0];
    } else {
      NonSpaceAround(parts[0], separator, Join(separator, parts[1..]));
      NonSpaceConcat(parts[0], Flatten(parts[1..]));
      NonSpaceJoin(separator, parts[1..]);
    }
  }

  /** Length of the first line of s, its line break included; "\r\n" is one break. */
  function LineLength(s: string): (n: nat)
    requires s != ""
    ensures 0 < n <= |s|
    ensures forall i :: 0 <= i < n - 2 ==> !IsBreak(s[i])
    ensures n < |s| ==> IsBreak(s[n - 1])
  {
    if IsBreak(s[0]) then (if s[0] == '\r' && |s| > 1 && s[1] == '\n' then 2 else 1)
    else if |s| == 1 then 1
    else 1 + LineLength(s[1..])
  }

  /** s.splitlines(keepends=True) */
  function SplitLines(s: string): (lines: seq<string>)
    ensures Flatten(lines) == s
    ensures forall k :: 0 <= k < |lines| ==> lines[k] != ""
  {
    if s == "" then [] else
      var n := LineLength(s);
      assert s == s[..n] + s[n..];
      [s[..n]] + SplitLines(s[n..])
  }

  /** A line has no break before its end, where "\r\n" counts as one; only the last line may have none there. */
  predicate IsLine(line: string, isLast: bool) {
    && line != ""
    && (forall i :: 0 <= i < |line| - 1 && IsBreak(line[i]) ==>
          i == |line| - 2 && line[i] == '\r' && line[i + 1] == '\n')
    && (isLast || IsBreak(line[|line| - 1]))
  }

  lemma {:induction false} FirstLineMeaning(s: string)
    requires s != ""
    ensures var n := LineLength(s); IsLine(s[..n], n == |s|) && (n < |s| && s[n] == '\n' ==> s[n - 1] != '\r')
  {
    var n := LineLength(s);
    if IsBreak(s[0]) || |s| == 1 {
    } else {
      FirstLineMeaning(s[1..]);
      var rest := s[1..][..n - 1];
      assert s[..n] == [s[0]] + rest;
    }
  }

  /** No "\r\n" is divided between the two. */
  predicate Apart(line: string, next: string) {
    line != "" && next != "" && next[0] == '\n' ==> line[|line| - 1] != '\r'
  }

  lemma SplitLinesNext(s: string)
    requires s != ""
    ensures var n := LineLength(s); SplitLines(s) == [s[..n]] + SplitLines(s[n..])
  {
  }

  lemma FirstLineApart(s: string)
    requires s != "" && SplitLines(s[LineLength(s)..]) != []
    ensures Apart(s[..LineLength(s)], SplitLines(s[LineLength(s)..])[0])
  {
    var n := LineLength(s);
    var rest := s[n..];
    FirstLineMeaning(s);
    SplitLinesNext(rest);
    assert rest[..LineLength(rest)][0] == s[n];
  }

  /** The lines are lines, and no "\r\n" is divided between two of them; with their concatenation this fixes them. */
  lemma {:induction false} SplitLinesMeaning(s: string, k: nat)
    requires k < |SplitLines(s)|
    ensures var lines := SplitLines(s);
      IsLine(lines[k], k == |lines| - 1) && (k + 1 < |lines| ==> Apart(lines[k], lines[k + 1]))
    decreases k
  {
    var n := LineLength(s);
    var lines, rest := SplitLines(s), SplitLines(s[n..]);
    SplitLinesNext(s);
    if k == 0 {
      FirstLineMeaning(s);
      if rest != [] { FirstLineApart(s); }
    } else {
      SplitLinesMeaning(s[n..], k - 1);
      assert lines[k] == rest[k - 1] && (k + 1 < |lines| ==> lines[k + 1] == rest[k]);
    }
  }

  /** line.rstrip("\n") */
  function Chop(line: string): string {
    if line != "" && line[|line| - 1] == '\n' then Chop(line[..|line| - 1]) else line
  }

  lemma {:induction false} NonSpaceChop(line: string)
    ensures NonSpace(Chop(line)) == NonSpace(line)
  {
    if line != "" && line[|line| - 1] == '\n' {
      var rest := line[..|line| - 1];
      assert line == rest + "\n";
      NonSpaceConcat(rest, "\n");
      NonSpaceOfSpaces("\n");
      NonSpaceChop(rest);
    }
  }

  /** Source offset at which line k begins. */
  function Offset(lines: seq<string>, k: nat): nat
    requires k <= |lines|
  {
    |Flatten(lines[..k])|
  }

  lemma OffsetStep(lines: seq<string>, k: nat)
    requires k < |lines|
    ensures Offset(lines, k + 1) == Offset(lines, k) + |lines[k]|
  {
    assert lines[..k + 1] == lines[..k] + [lines[k]];
    FlattenConcat(lines[..k], [lines[k]]);
  }

  /** Lines i..j are the source between the offsets of i and j. */
  lemma SourceSlice(lines: seq<string>, i: nat, j: nat)
    requires i <= j <= |lines|
    ensures Offset(lines, i) <= Offset(lines, j) <= |Flatten(lines)|
    ensures Flatten(lines)[Offset(lines, i)..Offset(lines, j)] == Flatten(lines[i..j])
  {
    assert lines[..j] == lines[..i] + lines[i..j];
    FlattenConcat(lines[..i], lines[i..j]);
    assert lines == lines[..j] + lines[j..];
    FlattenConcat(lines[..j], lines[j..]);
  }
}
