/**
 * The steps after the two searches put together: what reranking keeps, what the caller receives, and how it is
 * labelled.
 */
module RetrievalFacts {
  import opened Basics
  import opened Retrieval
  import opened Neighbours
  import opened NeighbourFacts
  import opened Fusion

  // ---- Reranking ------------------------------------------------------------------------

  predicate Passes(scores: map<nat, real>, floor: real, row: Row) {
    (if row.id in scores then scores[row.id] else 0.0) >= floor
  }

  lemma {:induction false} AtLeastMeaning(rows: seq<Row>, scores: map<nat, real>, floor: real)
    requires DistinctRows(rows)
    ensures DistinctRows(AtLeast(rows, scores, floor))
    ensures forall row :: row in AtLeast(rows, scores, floor) <==> row in rows && Passes(scores, floor, row)
  {
    if |rows| == 0 {
    } else {
      var before, last := rows[..|rows| - 1], rows[|rows| - 1];
      AtLeastMeaning(before, scores, floor);
      assert rows == before + [last];
      assert forall row :: row in AtLeast(before, scores, floor) ==> row in before && row.id != last.id;
    }
  }

  lemma {:induction false} ScoreIsKept(chunks: seq<Row>, answer: Answer, k: nat, i: nat)
    requires answer.Scored? && WellFormed(answer, |chunks|) && DistinctRows(chunks)
    requires i < k <= |answer.indices|
    ensures var scores := ScoresOf(chunks, answer, k);
            chunks[answer.indices[i]].id in scores && scores[chunks[answer.indices[i]].id] == answer.scores[i]
  {
    if i < k - 1 {
      ScoreIsKept(chunks, answer, k - 1, i);
      assert answer.indices[i] != answer.indices[k - 1];
    }
  }

  /** Reranking returns chunks it was given, none twice. */
  lemma RerankedAreChunks(chunks: seq<Row>, answer: Answer, topK: int, threshold: Option<real>)
    requires WellFormed(answer, |chunks|) && DistinctRows(chunks)
    ensures var out := Reranked(chunks, answer, topK, threshold);
            DistinctRows(out) && forall row :: row in out ==> row in chunks
  {
    TakeIsPrefix(chunks, topK);
    if |chunks| > 1 && answer.Scored? {
      var rows := seq(|answer.indices|, i requires 0 <= i < |answer.indices| => chunks[answer.indices[i]]);
      assert DistinctRows(rows);
      if threshold.Some? && threshold.value > 0.0 {
        AtLeastMeaning(rows, ScoresOf(chunks, answer, |answer.indices|), threshold.value);
      }
    }
  }

  /** With a positive threshold a reranked chunk is kept exactly when its score reaches it; without one all are kept. */
  lemma ThresholdDecides(chunks: seq<Row>, answer: Answer, topK: int, threshold: Option<real>, i: nat)
    requires WellFormed(answer, |chunks|) && DistinctRows(chunks) && |chunks| > 1
    requires answer.Scored? && i < |answer.indices|
    ensures chunks[answer.indices[i]] in Reranked(chunks, answer, topK, threshold)
            <==> (threshold.Some? && threshold.value > 0.0 ==> answer.scores[i] >= threshold.value)
  {
    var rows := seq(|answer.indices|, k requires 0 <= k < |answer.indices| => chunks[answer.indices[k]]);
    assert rows[i] in rows && DistinctRows(rows);
    if threshold.Some? && threshold.value > 0.0 {
      AtLeastMeaning(rows, ScoresOf(chunks, answer, |answer.indices|), threshold.value);
      ScoreIsKept(chunks, answer, |answer.indices|, i);
    }
  }

  /** The rows at these positions, in this order. */
  predicate Picks(rows: seq<Row>, at: seq<nat>, out: seq<Row>) {
    && |at| == |out|
    && (forall a :: 0 <= a < |at| ==> at[a] < |rows| && out[a] == rows[at[a]])
    && (forall a, b :: 0 <= a < b < |at| ==> at[a] < at[b])
  }

  /** One more row is picked, or passed over. */
  lemma PickNext(rows: seq<Row>, at: seq<nat>, out: seq<Row>, row: Row)
    requires Picks(rows, at, out)
    ensures Picks(rows + [row], at, out) && Picks(rows + [row], at + [|rows|], out + [row])
    ensures |rows| !in at && forall i: nat :: i in at + [|rows|] <==> i in at || i == |rows|
  {
  }

  lemma {:induction false} AtLeastPicks(rows: seq<Row>, scores: map<nat, real>, floor: real) returns (at: seq<nat>)
    ensures Picks(rows, at, AtLeast(rows, scores, floor))
    ensures forall i: nat :: i < |rows| ==> (i in at <==> Passes(scores, floor, rows[i]))
  {
    if |rows| == 0 {
      at := [];
    } else {
      var n := |rows| - 1;
      var before := AtLeastPicks(rows[..n], scores, floor);
      assert rows == rows[..n] + [rows[n]];
      PickNext(rows[..n], before, AtLeast(rows[..n], scores, floor), rows[n]);
      if Passes(scores, floor, rows[n]) {
        at := before + [n];
      } else {
        at := before;
        assert AtLeast(rows[..n], scores, floor) + [] == AtLeast(rows[..n], scores, floor);
      }
    }
  }

  /** The answered position passes the threshold, if there is a positive one. */
  predicate Kept(answer: Answer, threshold: Option<real>, i: nat)
    requires answer.Scored? && i < |answer.scores|
  {
    threshold.Some? && threshold.value > 0.0 ==> answer.scores[i] >= threshold.value
  }

  /** Reranking gives the chunks in the order in which the reranker answered them, without those below the threshold. */
  lemma RerankedInOrder(chunks: seq<Row>, answer: Answer, topK: int, threshold: Option<real>) returns (at: seq<nat>)
    requires WellFormed(answer, |chunks|) && DistinctRows(chunks) && |chunks| > 1 && answer.Scored?
    ensures var rows := seq(|answer.indices|, i requires 0 <= i < |answer.indices| => chunks[answer.indices[i]]);
      Picks(rows, at, Reranked(chunks, answer, topK, threshold))
    ensures forall i: nat :: i < |answer.indices| ==> (i in at <==> Kept(answer, threshold, i))
  {
    var n := |answer.indices|;
    var rows := seq(n, i requires 0 <= i < n => chunks[answer.indices[i]]);
    if threshold.Some? && threshold.value > 0.0 {
      var scores := ScoresOf(chunks, answer, n);
      at := AtLeastPicks(rows, scores, threshold.value);
      forall i: nat | i < n ensures Passes(scores, threshold.value, rows[i]) <==> answer.scores[i] >= threshold.value {
        ScoreIsKept(chunks, answer, n, i);
      }
    } else {
      at := seq(n, i requires 0 <= i < n => i);
      forall i: nat | i < n ensures i in at { assert at[i] == i; }
    }
  }

  /** A single chunk is left alone, and a reranker that raises leaves the fused order, cut as Python cuts at top_k. */
  lemma UnrankedStays(chunks: seq<Row>, answer: Answer, topK: int, threshold: Option<real>)
    requires WellFormed(answer, |chunks|) && (|chunks| <= 1 || answer.Raised?)
    ensures IsCut(chunks, if |chunks| <= 1 then None else Some(topK), Reranked(chunks, answer, topK, threshold))
  {
    TakeIsPrefix(chunks, topK);
  }

  /** The first `limit` rows; a negative limit drops that many at the end, and none keeps all. */
  predicate IsCut(rows: seq<Row>, limit: Option<int>, out: seq<Row>) {
    && out <= rows
    && (limit.None? || limit.value >= |rows| ==> |out| == |rows|)
    && (limit.Some? && 0 <= limit.value < |rows| ==> |out| == limit.value)
    && (limit.Some? && limit.value < 0 ==> |rows| - |out| == if -limit.value < |rows| then -limit.value else |rows|)
  }

  // ---- The whole pipeline -----------------------------------------------------------------

  /** The hits a caller asked for: fused, reranked, cut at the caller's limit. */
  function Hits(vector: seq<Hit>, keyword: seq<Hit>, candidates: nat, answer: Answer, topK: int,
                threshold: Option<real>,
                limit: Option<int>): seq<Row>
    requires WellFormed(answer, |Merged(vector, keyword, candidates)|)
  {
    var reranked := Reranked(Merged(vector, keyword, candidates), answer, topK, threshold);
    if limit.Some? then Take(reranked, limit.value) else reranked
  }

  /** The merged rows are stored rows, none twice. */
  lemma MergedAreStored(stored: seq<Row>, vector: seq<Hit>, keyword: seq<Hit>, candidates: nat)
    requires forall i :: 0 <= i < |vector| ==> vector[i].row in stored
    requires forall i :: 0 <= i < |keyword| ==> keyword[i].row in stored
    ensures HitsOk(stored, Merged(vector, keyword, candidates))
  {
    var ids, rows := Fused(vector, keyword, candidates), Merged(vector, keyword, candidates);
    FusedIsTopOfRanking(vector, keyword, candidates);
    FusedAreMapped(vector, keyword, candidates);
    forall i | 0 <= i < |rows| ensures rows[i].id == ids[i] && rows[i] in stored {
      RowsOfList(vector + keyword, ids[i]);
    }
  }

  /**
   * Whatever the searches and the reranker answer, the caller receives every hit it asked for, in order, each chunk
   * once and at most 2 * radius + 1 for each hit: expanding after the cut displaces no hit.
   */
  lemma NoHitIsLost(stored: seq<Row>, vector: seq<Hit>, keyword: seq<Hit>, candidates: nat, answer: Answer, topK: int,
                    threshold: Option<real>, limit: Option<int>, radius: int)
    requires IdsOk(stored)
    requires forall i :: 0 <= i < |vector| ==> vector[i].row in stored
    requires forall i :: 0 <= i < |keyword| ==> keyword[i].row in stored
    requires WellFormed(answer, |Merged(vector, keyword, candidates)|)
    ensures var hits := Hits(vector, keyword, candidates, answer, topK, threshold, limit);
            var out := Expansion(stored, hits, radius);
            && HitsOk(stored, hits) && Keep(out, Ids(hits)) == hits && DistinctRows(out)
            && IsCut(Reranked(Merged(vector, keyword, candidates), answer, topK, threshold), limit, hits)
            && (radius >= 0 ==> |out| <= (2 * radius + 1) * |hits|)
  {
    var merged := Merged(vector, keyword, candidates);
    MergedAreStored(stored, vector, keyword, candidates);
    RerankedAreChunks(merged, answer, topK, threshold);
    var hits := Hits(vector, keyword, candidates, answer, topK, threshold, limit);
    if limit.Some? { TakeIsPrefix(Reranked(merged, answer, topK, threshold), limit.value); }
    HitsKeepTheirOrder(stored, hits, radius);
    if radius >= 0 { ExpansionIsBounded(stored, hits, radius); }
    ExpansionIs(stored, hits, radius, Row(0, "", 0));
  }

  /**
   * What surrounds them is exactly the stored chunks near them, if and only if no two rows near a hit share a place
   * without both being hits; so it is where a place names one row.
   */
  lemma NothingElseIsReturned(stored: seq<Row>, vector: seq<Hit>, keyword: seq<Hit>, candidates: nat, answer: Answer,
                              topK: int, threshold: Option<real>, limit: Option<int>, radius: int)
    requires IdsOk(stored)
    requires forall i :: 0 <= i < |vector| ==> vector[i].row in stored
    requires forall i :: 0 <= i < |keyword| ==> keyword[i].row in stored
    requires WellFormed(answer, |Merged(vector, keyword, candidates)|)
    ensures var hits := Hits(vector, keyword, candidates, answer, topK, threshold, limit);
            && (Complete(stored, hits, radius) <==> Apart(stored, hits, radius))
            && (PlacesOk(stored) ==> Complete(stored, hits, radius))
  {
    NoHitIsLost(stored, vector, keyword, candidates, answer, topK, threshold, limit, radius);
    ExpansionIsExact(stored, Hits(vector, keyword, candidates, answer, topK, threshold, limit), radius);
  }

  // ---- Labels --------------------------------------------------------------------------------

  datatype Method = Neighbour | Hybrid | KeywordOnly | VectorOnly

  /** What a returned chunk carries about how it was found. */
  datatype ChunkScore = ChunkScore(distance: real, keywordRank: Option<nat>, isNeighbour: bool)

  /** Rounding to a whole number, a half to the even one. */
  function RoundHalfEven(x: real): int {
    var below := x.Floor;
    var rest := x - below as real;
    if rest < 0.5 || (rest == 0.5 && below % 2 == 0) then below else below + 1
  }

  function Round4(x: real): real { RoundHalfEven(x * 10000.0) as real / 10000.0 }

  /** The score of a returned chunk: its distance rounded to four digits, or 1 if it has none. */
  function ScoreFor(distance: Option<real>, keywordRank: Option<nat>, isNeighbour: bool): ChunkScore {
    ChunkScore(if distance.Some? then Round4(distance.value) else 1.0, keywordRank, isNeighbour)
  }

  /** How a returned chunk says it was found. */
  function RetrievalMethod(score: ChunkScore): Method {
    if score.isNeighbour then Neighbour
    else if score.distance < 1.0 && score.keywordRank.Some? then Hybrid
    else if score.keywordRank.Some? then KeywordOnly
    else VectorOnly
  }

  lemma RoundsBelowOne(x: real)
    ensures Round4(x) < 1.0 <==> x < 0.99995
  {
    var n, scaled := RoundHalfEven(x * 10000.0), x * 10000.0;
    assert n < 10000 <==> scaled < 9999.5;
    assert Round4(x) * 10000.0 == n as real;
  }

  /** The last row of this id in the list is at i; a list that repeats no id has no other. */
  predicate LastOf(list: seq<Hit>, i: nat, id: nat) {
    i < |list| && list[i].row.id == id && forall j :: i < j < |list| ==> list[j].row.id != id
  }

  predicate Holds(list: seq<Hit>, id: nat) { exists i :: 0 <= i < |list| && list[i].row.id == id }

  lemma {:induction false} LastIsMapped(list: seq<Hit>, i: nat, id: nat)
    requires LastOf(list, i, id)
    ensures id in RankMap(list) && RankMap(list)[id] == i + 1
    ensures id in RowMap(list) && RowMap(list)[id] == list[i].row
    ensures id in DistanceMap(list) && DistanceMap(list)[id] == list[i].score
  {
    if i < |list| - 1 { LastIsMapped(list[..|list| - 1], i, id); }
  }

  lemma {:induction false} MappedIsHeld(list: seq<Hit>, id: nat) returns (i: nat)
    ensures Holds(list, id) ==> LastOf(list, i, id)
    ensures !Holds(list, id) ==> id !in RankMap(list) && id !in RowMap(list) && id !in DistanceMap(list)
  {
    i := 0;
    if |list| == 0 {
    } else if list[|list| - 1].row.id == id {
      i := |list| - 1;
    } else {
      var front := list[..|list| - 1];
      i := MappedIsHeld(front, id);
      assert list == front + [list[|list| - 1]];
      assert Holds(front, id) <==> Holds(list, id);
    }
  }

  /** The distance is what the vector search gave the chunk, and 1 if only the keyword search found it. */
  lemma DistanceTells(vector: seq<Hit>, keyword: seq<Hit>, id: nat)
    ensures forall i: nat :: LastOf(vector, i, id) ==> Distance(vector, keyword, id) == Some(vector[i].score)
    ensures !Holds(vector, id) && Holds(keyword, id) ==> Distance(vector, keyword, id) == Some(1.0)
    ensures !Holds(vector, id) && !Holds(keyword, id) ==> Distance(vector, keyword, id) == None
  {
    forall i: nat | LastOf(vector, i, id) ensures Distance(vector, keyword, id) == Some(vector[i].score) {
      LastIsMapped(vector, i, id);
    }
    var v := MappedIsHeld(vector, id);
    var k := MappedIsHeld(keyword, id);
    if Holds(keyword, id) { LastIsMapped(keyword, k, id); }
  }

  /**
   * A hit is labelled hybrid exactly when both searches found it and its vector distance is below 0.99995: a larger one
   * is rounded to 1, and the hit is then labelled as a keyword hit. It is a vector hit exactly when the keyword search
   * did not find it.
   */
  lemma LabelTellsBothSearches(vector: seq<Hit>, keyword: seq<Hit>, id: nat)
    requires Holds(vector, id) || Holds(keyword, id)
    ensures var rank := if id in RankMap(keyword) then Some(RankMap(keyword)[id]) else None;
            var said := RetrievalMethod(ScoreFor(Distance(vector, keyword, id), rank, false));
            && (said == Hybrid <==>
                Holds(keyword, id) && exists i: nat :: LastOf(vector, i, id) && vector[i].score < 0.99995)
            && (said == VectorOnly <==> !Holds(keyword, id))
            && said != Neighbour
  {
    var v := MappedIsHeld(vector, id);
    var k := MappedIsHeld(keyword, id);
    DistanceTells(vector, keyword, id);
    if Holds(keyword, id) { LastIsMapped(keyword, k, id); }
    if Holds(vector, id) { RoundsBelowOne(vector[v].score); }
  }
}
