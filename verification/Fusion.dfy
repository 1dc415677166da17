/** What the fused ranking guarantees: its order, what it respects of the two rankings, and where agreement wins. */
module Fusion {
  import opened Basics
  import opened Retrieval

  ghost predicate DistinctIds(list: seq<Hit>) {
    forall i, j :: 0 <= i < j < |list| ==> list[i].row.id != list[j].row.id
  }

  ghost predicate NoRepeats(s: seq<nat>) { forall i, j :: 0 <= i < j < |s| ==> s[i] != s[j] }

  ghost predicate Earlier(s: seq<nat>, a: nat, b: nat) { exists i, j :: 0 <= i < j < |s| && s[i] == a && s[j] == b }

  /** a goes before b: it scores higher, or as high and was seen first. */
  ghost predicate Better(ids: seq<nat>, score: nat -> real, a: nat, b: nat) {
    score(a) > score(b) || (score(a) == score(b) && Earlier(ids, a, b))
  }

  ghost predicate Sorted(ids: seq<nat>, score: nat -> real, ranked: seq<nat>) {
    forall i, j :: 0 <= i < j < |ranked| ==> Better(ids, score, ranked[i], ranked[j])
  }

  // ---- The stable sort --------------------------------------------------------------------

  lemma {:induction false} InsertPlace(id: nat, ranked: seq<nat>, score: nat -> real) returns (k: nat)
    ensures k <= |ranked| && Insert(id, ranked, score) == ranked[..k] + [id] + ranked[k..]
    ensures k > 0 ==> score(ranked[k - 1]) >= score(id)
    ensures forall m :: k <= m < |ranked| ==> score(ranked[m]) < score(id)
  {
    k := |ranked|;
    if k > 0 && score(ranked[k - 1]) < score(id) {
      var shorter, last := ranked[..k - 1], ranked[k - 1];
      k := InsertPlace(id, shorter, score);
      assert ranked == shorter + [last];
      Snoc(shorter, last, k);
      Associative(shorter[..k] + [id], shorter[k..], [last]);
    }
  }

  lemma Snoc(s: seq<nat>, last: nat, k: nat)
    requires k <= |s|
    ensures (s + [last])[..k] == s[..k] && (s + [last])[k..] == s[k..] + [last]
  {
  }

  lemma EarlierGrows(ids: seq<nat>, id: nat, a: nat, b: nat)
    requires Earlier(ids, a, b)
    ensures Earlier(ids + [id], a, b)
  {
    var i, j :| 0 <= i < j < |ids| && ids[i] == a && ids[j] == b;
    assert (ids + [id])[i] == a && (ids + [id])[j] == b;
  }

  lemma InsertKeepsSorted(ids: seq<nat>, id: nat, ranked: seq<nat>, score: nat -> real)
    requires Sorted(ids, score, ranked) && forall x :: x in ranked ==> x in ids
    ensures Sorted(ids + [id], score, Insert(id, ranked, score))
  {
    var k := InsertPlace(id, ranked, score);
    var out := Insert(id, ranked, score);
    forall i, j | 0 <= i < j < |out| ensures Better(ids + [id], score, out[i], out[j]) {
      if i != k && j != k {
        var a, b := if i < k then i else i - 1, if j < k then j else j - 1;
        assert out[i] == ranked[a] && out[j] == ranked[b];
        assert Better(ids, score, ranked[a], ranked[b]);
        if Earlier(ids, out[i], out[j]) { EarlierGrows(ids, id, out[i], out[j]); }
      } else if j == k {
        assert out[i] == ranked[i] && ranked[i] in ids;
        assert i < k - 1 ==> Better(ids, score, ranked[i], ranked[k - 1]);
        var m :| 0 <= m < |ids| && ids[m] == ranked[i];
        assert (ids + [id])[m] == ranked[i] && (ids + [id])[|ids|] == id;
      }
    }
  }

  lemma RankedAreIds(ids: seq<nat>, score: nat -> real)
    ensures forall x :: x in Ranked(ids, score) ==> x in ids
  {
    RankedIds(ids, score);
    forall x | x in Ranked(ids, score) ensures x in ids { assert x in multiset(Ranked(ids, score)); }
  }

  lemma RankedNext(front: seq<nat>, id: nat, score: nat -> real)
    ensures Ranked(front + [id], score) == Insert(id, Ranked(front, score), score)
  {
    assert (front + [id])[..|front|] == front;
  }

  /** The sort puts every pair in order: by falling score, ties as first seen. */
  lemma {:induction false} RankedIsSorted(ids: seq<nat>, score: nat -> real)
    ensures Sorted(ids, score, Ranked(ids, score))
  {
    if |ids| == 0 {
    } else {
      var front, id := ids[..|ids| - 1], ids[|ids| - 1];
      RankedIsSorted(front, score);
      RankedAreIds(front, score);
      InsertKeepsSorted(front, id, Ranked(front, score), score);
      RankedNext(front, id, score);
      assert front + [id] == ids;
    }
  }

  lemma {:induction false} SeenOnce(list: seq<Hit>)
    ensures NoRepeats(FirstSeen(list))
  {
    if |list| == 0 {
    } else {
      SeenOnce(list[..|list| - 1]);
    }
  }

  lemma NoRepeatsCount(s: seq<nat>, i: nat, j: nat)
    requires i < j < |s| && s[i] == s[j]
    ensures multiset(s)[s[i]] >= 2
  {
    assert s == s[..i] + [s[i]] + s[i + 1..j] + [s[j]] + s[j + 1..];
  }

  lemma {:induction false} OnceEach(s: seq<nat>, x: nat)
    requires NoRepeats(s)
    ensures multiset(s)[x] <= 1
  {
    if |s| == 0 {
    } else {
      OnceEach(s[..|s| - 1], x);
      assert s == s[..|s| - 1] + [s[|s| - 1]];
    }
  }

  lemma PermutedOnce(a: seq<nat>, b: seq<nat>)
    requires NoRepeats(a) && multiset(a) == multiset(b)
    ensures NoRepeats(b) && |a| == |b|
  {
    forall i, j | 0 <= i < j < |b| ensures b[i] != b[j] {
      if b[i] == b[j] {
        NoRepeatsCount(b, i, j);
        OnceEach(a, b[i]);
      }
    }
    assert |multiset(a)| == |a| && |multiset(b)| == |b|;
  }

  /** Found by either search. */
  predicate Listed(vector: seq<Hit>, keyword: seq<Hit>, id: nat) { id in RowMap(vector + keyword) }

  /** All that is seen but not in `top` goes behind all of `top`. */
  ghost predicate BeatsTheRest(seen: seq<nat>, score: nat -> real, top: seq<nat>) {
    forall i, id | 0 <= i < |top| && id in seen && id !in top :: Better(seen, score, top[i], id)
  }

  lemma PrefixBeatsTheRest(seen: seq<nat>, score: nat -> real, ranked: seq<nat>, n: nat)
    requires n <= |ranked| && Sorted(seen, score, ranked) && multiset(ranked) == multiset(seen)
    ensures BeatsTheRest(seen, score, ranked[..n]) && Sorted(seen, score, ranked[..n])
  {
    assert forall k :: 0 <= k < n ==> ranked[..n][k] == ranked[k];
    forall i, id | 0 <= i < n && id in seen && id !in ranked[..n] ensures Better(seen, score, ranked[..n][i], id) {
      assert id in multiset(seen) && id in multiset(ranked);
      var j :| 0 <= j < |ranked| && ranked[j] == id;
    }
  }

  lemma FusedIsPrefix(vector: seq<Hit>, keyword: seq<Hit>, limit: nat) returns (n: nat)
    ensures var seen := FirstSeen(vector + keyword); var ranked := Ranked(seen, ScoreOf(vector, keyword));
      && n == (if limit < |seen| then limit else |seen|) && |ranked| == |seen| && NoRepeats(ranked)
      && Fused(vector, keyword, limit) == ranked[..n]
  {
    var seen, score := FirstSeen(vector + keyword), ScoreOf(vector, keyword);
    n := if limit < |seen| then limit else |seen|;
    SeenOnce(vector + keyword);
    RankedIds(seen, score);
    PermutedOnce(seen, Ranked(seen, score));
    assert Ranked(seen, score)[..|seen|] == Ranked(seen, score);
  }

  /**
   * The fusion returns no chunk twice, as many as the limit and the two lists allow, in order of score with ties as
   * first seen, and everything it leaves out goes behind everything it returns.
   */
  lemma FusedIsTopOfRanking(vector: seq<Hit>, keyword: seq<Hit>, limit: nat)
    ensures var seen, fused, score := FirstSeen(vector + keyword), Fused(vector, keyword, limit),
      ScoreOf(vector, keyword);
            && NoRepeats(fused) && |fused| == (if limit < |seen| then limit else |seen|)
            && Sorted(seen, score, fused)
            && (forall i :: 0 <= i < |fused| ==> Listed(vector, keyword, fused[i]))
            && (forall id :: id in seen <==> Listed(vector, keyword, id))
            && BeatsTheRest(seen, score, fused)
  {
    var seen, score := FirstSeen(vector + keyword), ScoreOf(vector, keyword);
    var n := FusedIsPrefix(vector, keyword, limit);
    RankedIds(seen, score);
    RankedIsSorted(seen, score);
    PrefixBeatsTheRest(seen, score, Ranked(seen, score), n);
    SeenAreMapped(vector + keyword);
    FusedAreMapped(vector, keyword, limit);
  }

  /** The first row of a stands before every row of b. */
  ghost predicate SeenBefore(list: seq<Hit>, a: nat, b: nat) {
    exists i: nat :: FirstOf(list, i, a) && forall j :: 0 <= j <= i ==> list[j].row.id != b
  }

  predicate FirstOf(list: seq<Hit>, i: nat, id: nat) {
    i < |list| && list[i].row.id == id && forall j :: 0 <= j < i ==> list[j].row.id != id
  }

  lemma {:induction false} SeenHasFirst(list: seq<Hit>, id: nat) returns (i: nat)
    requires id in FirstSeen(list)
    ensures FirstOf(list, i, id)
  {
    var n := |list| - 1;
    if id in FirstSeen(list[..n]) {
      i := SeenHasFirst(list[..n], id);
    } else {
      i := n;
      forall j | 0 <= j < n ensures list[j].row.id != id { ListedIsSeen(list[..n], j); }
    }
  }

  lemma {:induction false} ListedIsSeen(list: seq<Hit>, k: nat)
    requires k < |list|
    ensures list[k].row.id in FirstSeen(list)
  {
    if k == |list| - 1 {
    } else {
      ListedIsSeen(list[..|list| - 1], k);
    }
  }

  lemma {:induction false} EarlierIsSeenBefore(list: seq<Hit>, a: nat, b: nat)
    requires Earlier(FirstSeen(list), a, b)
    ensures SeenBefore(list, a, b)
  {
    var front, seen := list[..|list| - 1], FirstSeen(list);
    var i, j :| 0 <= i < j < |seen| && seen[i] == a && seen[j] == b;
    if j < |FirstSeen(front)| {
      assert FirstSeen(front)[i] == a && FirstSeen(front)[j] == b;
      EarlierIsSeenBefore(front, a, b);
      var k: nat :| FirstOf(front, k, a) && forall m :: 0 <= m <= k ==> front[m].row.id != b;
      assert FirstOf(list, k, a);
    } else {
      assert FirstSeen(front)[i] == a;
      var k := SeenHasFirst(front, a);
      forall m | 0 <= m <= k ensures list[m].row.id != b { ListedIsSeen(front, m); }
      assert FirstOf(list, k, a);
    }
  }

  /** a goes before b on its score, or on a tie because the searches gave it first. */
  ghost predicate Leads(vector: seq<Hit>, keyword: seq<Hit>, a: nat, b: nat) {
    || Score(vector, keyword, a) > Score(vector, keyword, b)
    || (Score(vector, keyword, a) == Score(vector, keyword, b) && SeenBefore(vector + keyword, a, b))
  }

  lemma BetterLeads(vector: seq<Hit>, keyword: seq<Hit>, a: nat, b: nat)
    requires Better(FirstSeen(vector + keyword), ScoreOf(vector, keyword), a, b)
    ensures Leads(vector, keyword, a, b)
  {
    if Earlier(FirstSeen(vector + keyword), a, b) { EarlierIsSeenBefore(vector + keyword, a, b); }
  }

  lemma AllAreFused(vector: seq<Hit>, keyword: seq<Hit>, limit: nat, id: nat)
    requires |Fused(vector, keyword, limit)| < limit && id in FirstSeen(vector + keyword)
    ensures id in Fused(vector, keyword, limit)
  {
    var seen, score := FirstSeen(vector + keyword), ScoreOf(vector, keyword);
    var n := FusedIsPrefix(vector, keyword, limit);
    RankedIds(seen, score);
    assert Ranked(seen, score)[..n] == Ranked(seen, score);
    assert id in multiset(seen);
    assert id in multiset(Ranked(seen, score));
  }

  /**
   * So the returned rows come best first: no chunk twice, each leading all behind it, and leading every chunk that is
   * left out; and none is left out unless the limit is reached.
   */
  lemma RowsComeBestFirst(vector: seq<Hit>, keyword: seq<Hit>, limit: nat)
    ensures var rows, list := Merged(vector, keyword, limit), vector + keyword;
      && |rows| <= limit
      && (forall i, j :: 0 <= i < j < |rows| ==>
            rows[i].id != rows[j].id && Leads(vector, keyword, rows[i].id, rows[j].id))
      && (forall k :: 0 <= k < |list| && list[k].row.id !in RowIds(rows) ==>
            |rows| == limit && forall i :: 0 <= i < |rows| ==> Leads(vector, keyword, rows[i].id, list[k].row.id))
  {
    var rows, list, fused := Merged(vector, keyword, limit), vector + keyword, Fused(vector, keyword, limit);
    var seen, score := FirstSeen(list), ScoreOf(vector, keyword);
    FusedIsTopOfRanking(vector, keyword, limit);
    MergedMeaning(vector, keyword, limit);
    assert forall i :: 0 <= i < |rows| ==> rows[i].id == RowIds(rows)[i] == fused[i];
    forall i, j | 0 <= i < j < |rows|
      ensures rows[i].id != rows[j].id && Leads(vector, keyword, rows[i].id, rows[j].id)
    {
      assert Better(seen, score, fused[i], fused[j]);
      BetterLeads(vector, keyword, fused[i], fused[j]);
    }
    forall k | 0 <= k < |list| && list[k].row.id !in RowIds(rows)
      ensures |rows| == limit && forall i :: 0 <= i < |rows| ==> Leads(vector, keyword, rows[i].id, list[k].row.id)
    {
      ListedIsSeen(list, k);
      if |fused| < limit { AllAreFused(vector, keyword, limit, list[k].row.id); }
      forall i | 0 <= i < |rows| ensures Leads(vector, keyword, rows[i].id, list[k].row.id) {
        BetterLeads(vector, keyword, fused[i], list[k].row.id);
      }
    }
  }

  // ---- Scores -----------------------------------------------------------------------------

  /** The rank of a chunk in a list that has it once, counted from 1. */
  lemma {:induction false} ShareOfRank(list: seq<Hit>, id: nat)
    requires DistinctIds(list)
    ensures Contribution(list, id) == if id in RankMap(list) then Share(RankMap(list)[id]) else 0.0
    ensures id in RankMap(list) ==> 1 <= RankMap(list)[id] <= |list| && list[RankMap(list)[id] - 1].row.id == id
  {
    if |list| == 0 {
    } else {
      ShareOfRank(list[..|list| - 1], id);
    }
  }

  lemma ShareFalls(a: nat, b: nat)
    requires a < b
    ensures Share(a) > Share(b) > 0.0
  {
    Reciprocal((RRF_K + a) as real, (RRF_K + b) as real);
  }

  lemma Reciprocal(x: real, y: real)
    requires 0.0 < x < y
    ensures 1.0 / x > 1.0 / y > 0.0
  {
    var p, q := 1.0 / x, 1.0 / y;
    assert p * x == 1.0 && q * y == 1.0;
    assert q > 0.0;
    assert q * x < q * y;
  }

  lemma {:induction false} RankedIffListed(vector: seq<Hit>, keyword: seq<Hit>, id: nat)
    ensures Listed(vector, keyword, id) <==> id in RankMap(vector) || id in RankMap(keyword)
  {
    if |keyword| > 0 {
      RankedIffListed(vector, keyword[..|keyword| - 1], id);
      assert (vector + keyword)[..|vector + keyword| - 1] == vector + keyword[..|keyword| - 1];
    } else {
      assert vector + keyword == vector;
      RowsAndRanks(vector, id);
    }
  }

  lemma {:induction false} RowsAndRanks(list: seq<Hit>, id: nat)
    ensures id in RowMap(list) <==> id in RankMap(list)
  {
    if |list| == 0 {
    } else {
      RowsAndRanks(list[..|list| - 1], id);
    }
  }

  /** c ranks ahead of d in every list that has d. */
  predicate AheadOf(list: seq<Hit>, c: nat, d: nat) {
    d in RankMap(list) ==> c in RankMap(list) && RankMap(list)[c] < RankMap(list)[d]
  }

  /** Both fused chunks are in place, the first before the second. */
  ghost predicate Before(s: seq<nat>, a: nat, b: nat) { b in s ==> Earlier(s, a, b) }

  /** A higher score means an earlier place. */
  lemma HigherGoesFirst(vector: seq<Hit>, keyword: seq<Hit>, limit: nat, c: nat, d: nat)
    requires Listed(vector, keyword, c) && Score(vector, keyword, c) > Score(vector, keyword, d)
    ensures Before(Fused(vector, keyword, limit), c, d)
  {
    var seen, fused, score := FirstSeen(vector + keyword), Fused(vector, keyword, limit), ScoreOf(vector, keyword);
    FusedIsTopOfRanking(vector, keyword, limit);
    assert score(c) > score(d);
    if d in fused {
      var j :| 0 <= j < |fused| && fused[j] == d;
      assert !Better(seen, score, fused[j], c);
      assert c in fused;
      var i :| 0 <= i < |fused| && fused[i] == c;
    }
  }

  /** Pareto: a chunk ahead of another in every list that has the other stays ahead of it among the rows returned. */
  lemma DominanceIsKept(vector: seq<Hit>, keyword: seq<Hit>, limit: nat, c: nat, d: nat)
    requires DistinctIds(vector) && DistinctIds(keyword) && Listed(vector, keyword, d)
    requires AheadOf(vector, c, d) && AheadOf(keyword, c, d)
    ensures Before(RowIds(Merged(vector, keyword, limit)), c, d)
  {
    MergedMeaning(vector, keyword, limit);
    ShareOfRank(vector, c);
    ShareOfRank(vector, d);
    ShareOfRank(keyword, c);
    ShareOfRank(keyword, d);
    RankedIffListed(vector, keyword, c);
    RankedIffListed(vector, keyword, d);
    if d in RankMap(vector) { ShareFalls(RankMap(vector)[c], RankMap(vector)[d]); }
    if d in RankMap(keyword) { ShareFalls(RankMap(keyword)[c], RankMap(keyword)[d]); }
    if c in RankMap(vector) { ShareFalls(RankMap(vector)[c], RankMap(vector)[c] + 1); }
    if c in RankMap(keyword) { ShareFalls(RankMap(keyword)[c], RankMap(keyword)[c] + 1); }
    HigherGoesFirst(vector, keyword, limit, c, d);
  }

  // ---- Agreement ----------------------------------------------------------------------------

  /** Every chunk both searches found goes before every chunk only one of them found, wherever the merge is cut. */
  ghost predicate AgreementWins(vector: seq<Hit>, keyword: seq<Hit>) {
    forall c, d, limit: nat | InBoth(vector, keyword, c) && InOne(vector, keyword, d) ::
      Before(RowIds(Merged(vector, keyword, limit)), c, d)
  }

  predicate InBoth(vector: seq<Hit>, keyword: seq<Hit>, id: nat) { id in RankMap(vector) && id in RankMap(keyword) }

  predicate InOne(vector: seq<Hit>, keyword: seq<Hit>, id: nat) { (id in RankMap(vector)) != (id in RankMap(keyword)) }

  lemma TwoSharesWin(a: nat, b: nat, c: nat)
    requires 1 <= a <= 61 && 1 <= b <= 61 && 1 <= c
    ensures Share(a) + Share(b) > Share(c)
  {
    assert Share(61) == 1.0 / 121.0 && Share(1) == 1.0 / 61.0;
    if a < 61 { ShareFalls(a, 61); }
    if b < 61 { ShareFalls(b, 61); }
    if c > 1 { ShareFalls(1, c); }
  }

  lemma ShortListsAgree(vector: seq<Hit>, keyword: seq<Hit>)
    requires DistinctIds(vector) && DistinctIds(keyword) && |vector| <= 61 && |keyword| <= 61
    ensures AgreementWins(vector, keyword)
  {
    forall c, d, limit: nat | InBoth(vector, keyword, c) && InOne(vector, keyword, d)
      ensures Before(RowIds(Merged(vector, keyword, limit)), c, d)
    {
      MergedMeaning(vector, keyword, limit);
      ShareOfRank(vector, c);
      ShareOfRank(keyword, c);
      ShareOfRank(vector, d);
      ShareOfRank(keyword, d);
      TwoSharesWin(RankMap(vector)[c], RankMap(keyword)[c],
        if d in RankMap(vector) then RankMap(vector)[d] else RankMap(keyword)[d]);
      RankedIffListed(vector, keyword, c);
      HigherGoesFirst(vector, keyword, limit, c, d);
    }
  }

  lemma {:induction false} RankAt(list: seq<Hit>, i: nat)
    requires DistinctIds(list) && i < |list|
    ensures list[i].row.id in RankMap(list) && RankMap(list)[list[i].row.id] == i + 1
  {
    if i < |list| - 1 { RankAt(list[..|list| - 1], i); }
  }

  lemma {:induction false} FirstIsSeenFirst(list: seq<Hit>)
    requires |list| > 0
    ensures |FirstSeen(list)| > 0 && FirstSeen(list)[0] == list[0].row.id
  {
    if |list| > 1 { FirstIsSeenFirst(list[..|list| - 1]); }
  }

  function Placeholder(id: nat): Hit { Hit(Row(id, "", id), 0.5) }

  /** Two rankings of 62 chunks that share only the last one of each. */
  function LeftRanking(): seq<Hit> { seq(62, i requires 0 <= i < 62 => Placeholder(i)) }

  function RightRanking(): seq<Hit> { seq(61, i requires 0 <= i < 61 => Placeholder(62 + i)) + [Placeholder(61)] }

  lemma RankingsShareLast() returns (vector: seq<Hit>, keyword: seq<Hit>)
    ensures vector == LeftRanking() && keyword == RightRanking() && |vector| == |keyword| == 62
    ensures DistinctIds(vector) && DistinctIds(keyword)
    ensures vector[0].row.id == 0 && vector[61].row.id == keyword[61].row.id == 61
    ensures forall i :: 0 <= i < 62 ==> keyword[i].row.id != 0
  {
    vector, keyword := LeftRanking(), RightRanking();
    assert forall i :: 0 <= i < 62 ==> vector[i].row.id == i;
    assert forall i :: 0 <= i < 61 ==> keyword[i].row.id == 62 + i;
  }

  /** The shared last chunk of both lists scores 1/122 twice, as much as the first of either list. */
  lemma LastOnlyTies(vector: seq<Hit>, keyword: seq<Hit>)
    requires DistinctIds(vector) && DistinctIds(keyword) && |vector| == |keyword| == 62
    requires vector[0].row.id == 0 && vector[61].row.id == keyword[61].row.id == 61
    requires forall i :: 0 <= i < 62 ==> keyword[i].row.id != 0
    ensures InBoth(vector, keyword, 61) && InOne(vector, keyword, 0)
    ensures Score(vector, keyword, 61) == Score(vector, keyword, 0)
  {
    RankAt(vector, 61);
    RankAt(keyword, 61);
    RankAt(vector, 0);
    ShareOfRank(vector, 61);
    ShareOfRank(keyword, 61);
    ShareOfRank(vector, 0);
    ShareOfRank(keyword, 0);
  }

  /** At 62 rows that tie goes to the chunk seen first. */
  lemma LongerListsMayNot()
    ensures |LeftRanking()| == |RightRanking()| == 62 && DistinctIds(LeftRanking()) && DistinctIds(RightRanking())
    ensures !AgreementWins(LeftRanking(), RightRanking())
  {
    var vector, keyword := RankingsShareLast();
    LastOnlyTies(vector, keyword);
    var seen, fused, score := FirstSeen(vector + keyword), Fused(vector, keyword, 124), ScoreOf(vector, keyword);
    FirstIsSeenFirst(vector + keyword);
    SeenOnce(vector + keyword);
    assert score(61) == score(0);
    assert !Better(seen, score, 61, 0);
    FirstIsFused(vector, keyword, 0);
    FusedIsTopOfRanking(vector, keyword, 124);
    MergedMeaning(vector, keyword, 124);
    assert !Before(RowIds(Merged(vector, keyword, 124)), 61, 0);
  }

  lemma {:induction false} SeenCount(list: seq<Hit>)
    ensures |FirstSeen(list)| <= |list|
  {
    if |list| == 0 {
    } else {
      SeenCount(list[..|list| - 1]);
    }
  }

  /** Nothing is cut when the limit is the length of both lists. */
  lemma FirstIsFused(vector: seq<Hit>, keyword: seq<Hit>, id: nat)
    requires id in FirstSeen(vector + keyword)
    ensures id in Fused(vector, keyword, |vector| + |keyword|)
  {
    var seen := FirstSeen(vector + keyword);
    SeenCount(vector + keyword);
    RankedIds(seen, ScoreOf(vector, keyword));
    assert |multiset(Ranked(seen, ScoreOf(vector, keyword)))| == |multiset(seen)|;
    assert id in multiset(seen);
    assert id in multiset(Ranked(seen, ScoreOf(vector, keyword)));
  }

  /** Rankings of at most n rows always put agreement first exactly when n is at most 61. */
  lemma AgreementWinsExactlyTo61(n: nat)
    ensures (forall v, k | DistinctIds(v) && DistinctIds(k) && |v| <= n && |k| <= n :: AgreementWins(v, k)) <==> n <= 61
  {
    if n <= 61 {
      forall v, k | DistinctIds(v) && DistinctIds(k) && |v| <= n && |k| <= n ensures AgreementWins(v, k) {
        ShortListsAgree(v, k);
      }
    } else {
      LongerListsMayNot();
    }
  }
}
