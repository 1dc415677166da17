/** After the fusion: reranking with its fallback and threshold, the caller's cutoff, and neighbour expansion. */
module Neighbours {
  import opened Basics
  import opened Retrieval

  // ---- Reranking ------------------------------------------------------------------------

  /** What the reranker answers: positions in the list it was given, best first, with their scores; or it raised. */
  datatype Answer = Raised | Scored(indices: seq<nat>, scores: seq<real>)

  /** Positions are in range and distinct, and each has a score. */
  ghost predicate WellFormed(answer: Answer, n: nat) {
    answer.Scored? ==>
      && |answer.scores| == |answer.indices|
      && (forall i :: 0 <= i < |answer.indices| ==> answer.indices[i] < n)
      && (forall i, j :: 0 <= i < j < |answer.indices| ==> answer.indices[i] != answer.indices[j])
  }

  function ScoresOf(chunks: seq<Row>, answer: Answer, k: nat): map<nat, real>
    requires answer.Scored? && k <= |answer.indices| && k <= |answer.scores|
    requires forall i :: 0 <= i < |answer.indices| ==> answer.indices[i] < |chunks|
  {
    if k == 0 then map[] else ScoresOf(chunks, answer, k - 1)[chunks[answer.indices[k - 1]].id := answer.scores[k - 1]]
  }

  function AtLeast(rows: seq<Row>, scores: map<nat, real>, floor: real): seq<Row> {
    if |rows| == 0 then [] else
      var last := rows[|rows| - 1];
      AtLeast(rows[..|rows| - 1], scores, floor) +
        (if (if last.id in scores then scores[last.id] else 0.0) >= floor then [last] else [])
  }

  /** A list of one is not reranked; a reranker that raises leaves the fused order, cut at top_k. */
  function Reranked(chunks: seq<Row>, answer: Answer, topK: int, threshold: Option<real>): seq<Row>
    requires WellFormed(answer, |chunks|)
  {
    if |chunks| <= 1 then chunks
    else if answer.Raised? then Take(chunks, topK)
    else
      var rows := seq(|answer.indices|, i requires 0 <= i < |answer.indices| => chunks[answer.indices[i]]);
      if threshold.Some? && threshold.value > 0.0
      then AtLeast(rows, ScoresOf(chunks, answer, |answer.indices|), threshold.value)
      else rows
  }

  // ---- Neighbour expansion ----------------------------------------------------------------

  type Place = (string, int)

  function PlaceOf(row: Row): Place { (row.source, row.position) }

  function Beside(row: Row, offset: int): Place { (row.source, row.position + offset) }

  function Ids(rows: seq<Row>): set<nat> { set row | row in rows :: row.id }

  function Places(rows: seq<Row>): set<Place> { set row | row in rows :: PlaceOf(row) }

  /** The places to look up: those near a hit that no hit is at. */
  function Wanted(hits: seq<Row>, radius: int): set<Place> {
    (set row, offset | row in hits && -radius <= offset <= radius && offset != 0 :: Beside(row, offset)) - Places(hits)
  }

  /** The stored rows at some places. */
  function Fetch(stored: seq<Row>, places: set<Place>): seq<Row> {
    if |stored| == 0 then [] else
      var last := stored[|stored| - 1];
      Fetch(stored[..|stored| - 1], places) + (if PlaceOf(last) in places then [last] else [])
  }

  function ByPlace(rows: seq<Row>): map<Place, Row> {
    if |rows| == 0 then map[] else ByPlace(rows[..|rows| - 1])[PlaceOf(rows[|rows| - 1]) := rows[|rows| - 1]]
  }

  /** What stands at an offset from a hit: the hit itself, a neighbour, or nothing. */
  function AtOffset(places: map<Place, Row>, hit: Row, offset: int): seq<Row> {
    if offset == 0 then [hit]
    else if Beside(hit, offset) in places then [places[Beside(hit, offset)]]
    else []
  }

  /** The first k places of a hit's window, from the lowest offset up. */
  function Window(places: map<Place, Row>, hit: Row, radius: int, k: nat): seq<Row> {
    if k == 0 then [] else Window(places, hit, radius, k - 1) + AtOffset(places, hit, k - 1 - radius)
  }

  function Visited(places: map<Place, Row>, hits: seq<Row>, radius: nat): seq<Row> {
    if |hits| == 0 then []
    else Visited(places, hits[..|hits| - 1], radius) + Window(places, hits[|hits| - 1], radius, 2 * radius + 1)
  }

  /** The rows without those whose id came before. */
  function Unique(rows: seq<Row>): seq<Row> {
    if |rows| == 0 then [] else
      var before, last := Unique(rows[..|rows| - 1]), rows[|rows| - 1];
      if last.id in Ids(before) then before else before + [last]
  }

  function Expansion(stored: seq<Row>, hits: seq<Row>, radius: int): seq<Row> {
    if radius <= 0 || |hits| == 0 || Wanted(hits, radius) == {} then hits
    else Unique(Visited(ByPlace(Fetch(stored, Wanted(hits, radius))), hits, radius))
  }

  lemma UniqueNext(before: seq<Row>, row: Row)
    ensures Unique(before + [row]) == if row.id in Ids(Unique(before)) then Unique(before) else Unique(before) + [row]
    ensures Ids(Unique(before) + [row]) == Ids(Unique(before)) + {row.id}
  {
    assert (before + [row])[..|before|] == before;
    var rows := Unique(before);
    assert row in rows + [row] && forall r :: r in rows ==> r in rows + [row];
  }

  /** Marks a count of offsets, so that what they have gathered is looked up only where it is needed. */
  predicate Counted(k: nat) { true }

  /** gathered(k) is what is held once k offsets of the window have been added to what was visited. */
  ghost predicate Gathers(gathered: nat -> seq<Row>, places: map<Place, Row>, hit: Row, radius: nat,
                          visited: seq<Row>) {
    forall k: nat {:trigger Counted(k)} :: gathered(k) == Unique(visited + Window(places, hit, radius, k))
  }

  /** The next offset adds nothing, or the row there if its id is new. */
  lemma WindowNext(gathered: nat -> seq<Row>, places: map<Place, Row>, hit: Row, radius: nat, visited: seq<Row>, k: nat)
    requires Gathers(gathered, places, hit, radius, visited)
    ensures var found, now := AtOffset(places, hit, k - radius), gathered(k);
            && |found| <= 1
            && gathered(k + 1) == (if found == [] || found[0].id in Ids(now) then now else now + found)
            && (found != [] ==> Ids(now + found) == Ids(now) + {found[0].id})
  {
    assert Counted(k) && Counted(k + 1);
    var before, found := visited + Window(places, hit, radius, k), AtOffset(places, hit, k - radius);
    assert visited + Window(places, hit, radius, k + 1) == before + found;
    if found == [] {
      assert before + found == before;
    } else {
      assert found == [found[0]];
      UniqueNext(before, found[0]);
    }
  }

  /** Adds a hit's window to what has been gathered, skipping what has been seen. */
  method AddWindow(places: map<Place, Row>, hit: Row, radius: nat, expanded: seq<Row>, seen: set<nat>,
                   ghost visited: seq<Row>,
                   ghost gathered: nat -> seq<Row>)
    returns (all: seq<Row>, nowSeen: set<nat>)
    requires Gathers(gathered, places, hit, radius, visited) && expanded == gathered(0) && seen == Ids(expanded)
    ensures all == gathered(2 * radius + 1) && nowSeen == Ids(all)
  {
    all, nowSeen := expanded, seen;
    for k := 0 to 2 * radius + 1
      invariant all == gathered(k) && nowSeen == Ids(all)
    {
      var offset := k - radius;
      WindowNext(gathered, places, hit, radius, visited, k);
      if offset == 0 || Beside(hit, offset) in places {
        var neighbour := if offset == 0 then hit else places[Beside(hit, offset)];
        if neighbour.id !in nowSeen {
          nowSeen := nowSeen + {neighbour.id};
          all := all + [neighbour];
        }
      }
    }
  }

  method ExpandNeighbours(stored: seq<Row>, hits: seq<Row>, radius: int) returns (expanded: seq<Row>, added: set<nat>)
    ensures expanded == Expansion(stored, hits, radius)
    ensures added == Ids(expanded) - Ids(hits)
  {
    if radius <= 0 || |hits| == 0 { return hits, {}; }
    var wanted := Wanted(hits, radius);
    if wanted == {} { return hits, {}; }
    var places := ByPlace(Fetch(stored, wanted));
    expanded := [];
    var seen: set<nat> := {};
    for i := 0 to |hits|
      invariant expanded == Unique(Visited(places, hits[..i], radius)) && seen == Ids(expanded)
    {
      assert hits[..i + 1][..i] == hits[..i];
      ghost var visited := Visited(places, hits[..i], radius);
      ghost var gathered := (k: nat) => Unique(visited + Window(places, hits[i], radius, k));
      assert visited + Window(places, hits[i], radius, 0) == visited;
      expanded, seen := AddWindow(places, hits[i], radius, expanded, seen, visited, gathered);
    }
    assert hits[..|hits|] == hits;
    added := Ids(expanded) - Ids(hits);
  }
}
