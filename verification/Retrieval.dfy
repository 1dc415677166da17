/**
 * Hybrid retrieval after the two searches: fusing their rankings, reranking, and pulling each hit's neighbours back in.
 * Scores are exact rationals.
 */
module Retrieval {
  import opened Basics

  /** A stored chunk of one model. */
  datatype Row = Row(id: nat, source: string, position: int)

  /** A search result: a row and the score the search gave it. */
  datatype Hit = Hit(row: Row, score: real)

  const RRF_K: nat := 60

  /** Python's s[:limit]. */
  function Take<T>(s: seq<T>, limit: int): seq<T> {
    if limit >= |s| then s
    else if limit >= 0 then s[..limit]
    else if -limit >= |s| then []
    else s[..|s| + limit]
  }

  // ---- Reciprocal Rank Fusion ----------------------------------------------------------

  /** What appearing at a rank, counted from 1, adds to a score. */
  function Share(rank: nat): real { 1.0 / (RRF_K + rank) as real }

  /** What one ranking adds to the score of a chunk. */
  function Contribution(list: seq<Hit>, id: nat): real {
    if |list| == 0 then 0.0
    else Contribution(list[..|list| - 1], id) + (if list[|list| - 1].row.id == id then Share(|list|) else 0.0)
  }

  function Score(vector: seq<Hit>, keyword: seq<Hit>,
                 id: nat): real { Contribution(vector, id) + Contribution(keyword, id) }

  function ScoreOf(vector: seq<Hit>, keyword: seq<Hit>): nat -> real { (id: nat) => Score(vector, keyword, id) }

  /** The ids of a list in the order in which they are first seen. */
  function FirstSeen(list: seq<Hit>): seq<nat> {
    if |list| == 0 then [] else
      var before, id := FirstSeen(list[..|list| - 1]), list[|list| - 1].row.id;
      if id in before then before else before + [id]
  }

  function RowMap(list: seq<Hit>): map<nat, Row> {
    if |list| == 0 then map[] else RowMap(list[..|list| - 1])[list[|list| - 1].row.id := list[|list| - 1].row]
  }

  function RankMap(list: seq<Hit>): map<nat, nat> {
    if |list| == 0 then map[] else RankMap(list[..|list| - 1])[list[|list| - 1].row.id := |list|]
  }

  function DistanceMap(list: seq<Hit>): map<nat, real> {
    if |list| == 0 then map[] else DistanceMap(list[..|list| - 1])[list[|list| - 1].row.id := list[|list| - 1].score]
  }

  /** The distance of a chunk: what the vector search gave it, or 1 when only the keyword search found it. */
  function Distance(vector: seq<Hit>, keyword: seq<Hit>, id: nat): Option<real> {
    if id in DistanceMap(vector) then Some(DistanceMap(vector)[id])
    else if id in RowMap(keyword) then Some(1.0)
    else None
  }

  /** Puts an id behind every one that scores at least as well. */
  function Insert(id: nat, ranked: seq<nat>, score: nat -> real): seq<nat> {
    if |ranked| == 0 || score(ranked[|ranked| - 1]) >= score(id) then ranked + [id]
    else Insert(id, ranked[..|ranked| - 1], score) + [ranked[|ranked| - 1]]
  }

  /** The stable sort by falling score. */
  function Ranked(ids: seq<nat>, score: nat -> real): seq<nat> {
    if |ids| == 0 then [] else Insert(ids[|ids| - 1], Ranked(ids[..|ids| - 1], score), score)
  }

  /** The ids the fusion keeps. */
  function Fused(vector: seq<Hit>, keyword: seq<Hit>, limit: int): seq<nat> {
    Take(Ranked(FirstSeen(vector + keyword), ScoreOf(vector, keyword)), limit)
  }

  lemma {:induction false} SeenAreMapped(list: seq<Hit>)
    ensures forall id :: id in FirstSeen(list) <==> id in RowMap(list)
  {
    if |list| == 0 {
    } else {
      SeenAreMapped(list[..|list| - 1]);
    }
  }

  lemma {:induction false} RankedIds(ids: seq<nat>, score: nat -> real)
    ensures multiset(Ranked(ids, score)) == multiset(ids)
  {
    if |ids| == 0 {
    } else {
      var n := |ids| - 1;
      assert ids == ids[..n] + [ids[n]];
      RankedIds(ids[..n], score);
      InsertedIds(ids[n], Ranked(ids[..n], score), score);
    }
  }

  lemma {:induction false} InsertedIds(id: nat, ranked: seq<nat>, score: nat -> real)
    ensures multiset(Insert(id, ranked, score)) == multiset(ranked) + multiset{id}
  {
    if |ranked| == 0 {
    } else {
      assert ranked == ranked[..|ranked| - 1] + [ranked[|ranked| - 1]];
      InsertedIds(id, ranked[..|ranked| - 1], score);
    }
  }

  lemma {:induction false} SameRanking(ids: seq<nat>, f: nat -> real, g: nat -> real)
    requires forall id :: f(id) == g(id)
    ensures Ranked(ids, f) == Ranked(ids, g)
  {
    if |ids| == 0 {
    } else {
      SameRanking(ids[..|ids| - 1], f, g);
      SameInsert(ids[|ids| - 1], Ranked(ids[..|ids| - 1], g), f, g);
    }
  }

  lemma {:induction false} SameInsert(id: nat, ranked: seq<nat>, f: nat -> real, g: nat -> real)
    requires forall id :: f(id) == g(id)
    ensures Insert(id, ranked, f) == Insert(id, ranked, g)
  {
    if |ranked| == 0 {
    } else {
      SameInsert(id, ranked[..|ranked| - 1], f, g);
    }
  }

  lemma TakeIsPrefix<T>(s: seq<T>, limit: int)
    ensures Take(s, limit) <= s
  {
  }

  lemma {:induction false} RowsOfList(list: seq<Hit>, id: nat)
    requires id in RowMap(list)
    ensures RowMap(list)[id].id == id && exists i :: 0 <= i < |list| && list[i].row == RowMap(list)[id]
  {
    var n := |list| - 1;
    if list[n].row.id != id {
      RowsOfList(list[..n], id);
      var i :| 0 <= i < n && list[..n][i].row == RowMap(list[..n])[id];
      assert list[i].row == RowMap(list)[id];
    }
  }

  lemma FusedAreMapped(vector: seq<Hit>, keyword: seq<Hit>, limit: int)
    ensures forall i :: 0 <= i < |Fused(vector, keyword, limit)| ==>
      Fused(vector, keyword, limit)[i] in RowMap(vector + keyword)
  {
    var score := ScoreOf(vector, keyword);
    var seen := FirstSeen(vector + keyword);
    SeenAreMapped(vector + keyword);
    RankedIds(seen, score);
    TakeIsPrefix(Ranked(seen, score), limit);
    forall i | 0 <= i < |Fused(vector, keyword, limit)|
      ensures Fused(vector, keyword, limit)[i] in RowMap(vector + keyword)
    {
      assert Ranked(seen, score)[i] in multiset(Ranked(seen, score));
      assert Ranked(seen, score)[i] in seen;
    }
  }

  /** The rows the fusion keeps, best first. */
  function Merged(vector: seq<Hit>, keyword: seq<Hit>, limit: int): (rows: seq<Row>)
    ensures |rows| == |Fused(vector, keyword, limit)|
  {
    var ids, byId := Fused(vector, keyword, limit), RowMap(vector + keyword);
    FusedAreMapped(vector, keyword, limit);
    seq(|ids|, i requires 0 <= i < |ids| && ids[i] in byId => byId[ids[i]])
  }

  function RowIds(rows: seq<Row>): seq<nat> { seq(|rows|, i requires 0 <= i < |rows| => rows[i].id) }

  /** The rows are those of the fused ids, in their order, and each comes from one of the rankings. */
  lemma MergedMeaning(vector: seq<Hit>, keyword: seq<Hit>, limit: int)
    ensures RowIds(Merged(vector, keyword, limit)) == Fused(vector, keyword, limit)
    ensures forall row :: row in Merged(vector, keyword, limit) ==>
      exists k :: 0 <= k < |vector + keyword| && (vector + keyword)[k].row == row
  {
    var ids, rows := Fused(vector, keyword, limit), Merged(vector, keyword, limit);
    FusedAreMapped(vector, keyword, limit);
    forall i | 0 <= i < |rows|
      ensures rows[i].id == ids[i] && exists k :: 0 <= k < |vector + keyword| && (vector + keyword)[k].row == rows[i]
    {
      RowsOfList(vector + keyword, ids[i]);
    }
  }

  // ---- The merge ------------------------------------------------------------------------

  /** The four dictionaries of the merge; `order` is the insertion order of `scores`. */
  datatype Tally = Tally(order: seq<nat>, scores: map<nat, real>, rows: map<nat, Row>, distances: map<nat, real>,
                         ranks: map<nat, nat>)

  function Add(scores: map<nat, real>, id: nat, rank: nat): map<nat, real> {
    scores[id := (if id in scores then scores[id] else 0.0) + Share(rank)]
  }

  /** What one row of the vector ranking adds. */
  function VectorStep(t: Tally, hit: Hit, rank: nat): Tally {
    Tally(if hit.row.id in t.scores then t.order else t.order + [hit.row.id], Add(t.scores, hit.row.id, rank),
          t.rows[hit.row.id := hit.row], t.distances[hit.row.id := hit.score], t.ranks)
  }

  function VectorTally(list: seq<Hit>): Tally {
    if |list| == 0 then Tally([], map[], map[], map[], map[])
    else VectorStep(VectorTally(list[..|list| - 1]), list[|list| - 1], |list|)
  }

  /** What one row of the keyword ranking adds; a chunk that vector search did not find has distance 1. */
  function KeywordStep(t: Tally, hit: Hit, rank: nat): Tally {
    Tally(if hit.row.id in t.scores then t.order else t.order + [hit.row.id], Add(t.scores, hit.row.id, rank),
          t.rows[hit.row.id := hit.row],
          if hit.row.id in t.distances then t.distances else t.distances[hit.row.id := 1.0],
          t.ranks[hit.row.id := rank])
  }

  function FullTally(vector: seq<Hit>, list: seq<Hit>): Tally {
    if |list| == 0 then VectorTally(vector)
    else KeywordStep(FullTally(vector, list[..|list| - 1]), list[|list| - 1], |list|)
  }

  lemma NextTally(vector: seq<Hit>, list: seq<Hit>, i: nat)
    requires i < |list|
    ensures VectorTally(list[..i + 1]) == VectorStep(VectorTally(list[..i]), list[i], i + 1)
    ensures FullTally(vector, list[..i + 1]) == KeywordStep(FullTally(vector, list[..i]), list[i], i + 1)
  {
    assert list[..i + 1][..i] == list[..i];
  }

  /**
   * The dictionaries are what they should be: ids in first-seen order, each chunk's row, distance, keyword rank and
   * score.
   */
  lemma {:induction false} TallyMeaning(vector: seq<Hit>, keyword: seq<Hit>)
    ensures var t := FullTally(vector, keyword);
            t.order == FirstSeen(vector + keyword) && t.rows == RowMap(vector + keyword)
    ensures forall id: nat :: id in FullTally(vector, keyword).scores <==> id in FirstSeen(vector + keyword)
  {
    if |keyword| > 0 {
      var n := |keyword| - 1;
      TallyMeaning(vector, keyword[..n]);
      assert (vector + keyword)[..|vector + keyword| - 1] == vector + keyword[..n];
    } else {
      assert vector + keyword == vector;
      VectorMeaning(vector);
    }
  }

  lemma {:induction false} DistanceMeaning(vector: seq<Hit>, keyword: seq<Hit>, id: nat)
    ensures Found(FullTally(vector, keyword).distances, id) == Distance(vector, keyword, id)
  {
    if |keyword| > 0 {
      DistanceMeaning(vector, keyword[..|keyword| - 1], id);
    } else {
      VectorMeaning(vector);
    }
  }

  lemma {:induction false} RankMeaning(vector: seq<Hit>, keyword: seq<Hit>)
    ensures FullTally(vector, keyword).ranks == RankMap(keyword)
  {
    if |keyword| > 0 {
      RankMeaning(vector, keyword[..|keyword| - 1]);
    } else {
      VectorMeaning(vector);
    }
  }

  lemma {:induction false} VectorMeaning(vector: seq<Hit>)
    ensures var t := VectorTally(vector);
            && t.order == FirstSeen(vector) && t.rows == RowMap(vector)
            && t.distances == DistanceMap(vector) && t.ranks == map[]
    ensures forall id: nat :: id in VectorTally(vector).scores <==> id in FirstSeen(vector)
  {
    if |vector| == 0 {
    } else {
      VectorMeaning(vector[..|vector| - 1]);
    }
  }

  function Found(distances: map<nat, real>, id: nat): Option<real> {
    if id in distances then Some(distances[id]) else None
  }

  function At(scores: map<nat, real>, id: nat): real { if id in scores then scores[id] else 0.0 }

  lemma {:induction false} ScoreMeaning(vector: seq<Hit>, keyword: seq<Hit>, id: nat)
    ensures At(FullTally(vector, keyword).scores, id) == Score(vector, keyword, id)
  {
    if |keyword| > 0 {
      ScoreMeaning(vector, keyword[..|keyword| - 1], id);
    } else {
      VectorScore(vector, id);
    }
  }

  lemma {:induction false} VectorScore(vector: seq<Hit>, id: nat)
    ensures At(VectorTally(vector).scores, id) == Contribution(vector, id)
  {
    if |vector| == 0 {
    } else {
      VectorScore(vector[..|vector| - 1], id);
    }
  }

  /** What the two passes have gathered when they are done. */
  lemma FullMeaning(vector: seq<Hit>, keyword: seq<Hit>)
    ensures var t := FullTally(vector, keyword);
      && t.order == FirstSeen(vector + keyword) && t.rows == RowMap(vector + keyword) && t.ranks == RankMap(keyword)
      && forall id: nat :: Found(t.distances, id) == Distance(vector, keyword, id)
  {
    TallyMeaning(vector, keyword);
    RankMeaning(vector, keyword);
    forall id: nat ensures Found(FullTally(vector, keyword).distances, id) == Distance(vector, keyword, id) {
      DistanceMeaning(vector, keyword, id);
    }
  }

  /** The pass over the vector ranking. */
  method VectorPass(vector: seq<Hit>)
    returns (order: seq<nat>, scores: map<nat, real>, rows: map<nat, Row>, distances: map<nat, real>)
    ensures Tally(order, scores, rows, distances, map[]) == VectorTally(vector)
  {
    order, scores, rows, distances := [], map[], map[], map[];
    for i := 0 to |vector|
      invariant Tally(order, scores, rows, distances, map[]) == VectorTally(vector[..i])
    {
      var id := vector[i].row.id;
      NextTally(vector, vector, i);
      rows := rows[id := vector[i].row];
      distances := distances[id := vector[i].score];
      if id !in scores { order := order + [id]; }
      scores := scores[id := (if id in scores then scores[id] else 0.0) + 1.0 / (RRF_K + i + 1) as real];
    }
    assert vector[..|vector|] == vector;
  }

  /** The pass over the keyword ranking, behind the other. */
  method KeywordPass(ghost vector: seq<Hit>, keyword: seq<Hit>, order: seq<nat>, scores: map<nat, real>,
                     rows: map<nat, Row>, distances: map<nat, real>)
    returns (order': seq<nat>, scores': map<nat, real>, rows': map<nat, Row>, distances': map<nat, real>,
             ranks: map<nat, nat>)
    requires Tally(order, scores, rows, distances, map[]) == VectorTally(vector)
    ensures Tally(order', scores', rows', distances', ranks) == FullTally(vector, keyword)
  {
    order', scores', rows', distances', ranks := order, scores, rows, distances, map[];
    for i := 0 to |keyword|
      invariant Tally(order', scores', rows', distances', ranks) == FullTally(vector, keyword[..i])
    {
      var id := keyword[i].row.id;
      NextTally(vector, keyword, i);
      rows' := rows'[id := keyword[i].row];
      ranks := ranks[id := i + 1];
      if id !in distances' { distances' := distances'[id := 1.0]; }
      if id !in scores' { order' := order' + [id]; }
      scores' := scores'[id := (if id in scores' then scores'[id] else 0.0) + 1.0 / (RRF_K + i + 1) as real];
    }
    assert keyword[..|keyword|] == keyword;
  }

  /** The merge: a pass over each ranking, filling four dictionaries, then a stable sort cut at the limit. */
  method RrfMerge(vector: seq<Hit>, keyword: seq<Hit>, limit: int)
    returns (chunks: seq<Row>, distances: map<nat, real>, ranks: map<nat, nat>)
    ensures chunks == Merged(vector, keyword, limit) && RowIds(chunks) == Fused(vector, keyword, limit)
    ensures ranks == RankMap(keyword) && forall id: nat :: Found(distances, id) == Distance(vector, keyword, id)
  {
    var order: seq<nat>, scores: map<nat, real>, rows: map<nat, Row>;
    order, scores, rows, distances := VectorPass(vector);
    order, scores, rows, distances, ranks := KeywordPass(vector, keyword, order, scores, rows, distances);
    FullMeaning(vector, keyword);
    MergedMeaning(vector, keyword, limit);
    chunks := Best(vector, keyword, limit, order, scores, rows);
  }

  /** The ids sorted by falling score, cut, and turned into rows. */
  method Best(ghost vector: seq<Hit>, ghost keyword: seq<Hit>, limit: int, order: seq<nat>, scores: map<nat, real>,
              rows: map<nat, Row>)
    returns (chunks: seq<Row>)
    requires order == FirstSeen(vector + keyword) && rows == RowMap(vector + keyword)
    requires scores == FullTally(vector, keyword).scores
    ensures chunks == Merged(vector, keyword, limit)
  {
    var byScore := (id: nat) => At(scores, id);
    forall id: nat ensures byScore(id) == ScoreOf(vector, keyword)(id) { ScoreMeaning(vector, keyword, id); }
    SameRanking(order, byScore, ScoreOf(vector, keyword));
    var best := Take(Ranked(order, byScore), limit);
    FusedAreMapped(vector, keyword, limit);
    assert best == Fused(vector, keyword, limit);
    chunks := seq(|best|, i requires 0 <= i < |best| && best[i] in rows => rows[best[i]]);
  }
}
