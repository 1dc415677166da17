/** The order of an expansion: what a hit pulls in stands around it, by position, before what later hits pull in. */
module NeighbourOrder {
  import opened Retrieval
  import opened Neighbours
  import opened NeighbourFacts

  /** Hit i is the row, or lies near it while the row is no hit. */
  predicate Pulls(hits: seq<Row>, radius: int, i: nat, row: Row) {
    i < |hits| && (hits[i] == row || (row !in hits && Near(hits[i], row, radius)))
  }

  /** Hit i is the first one that pulls the row in. */
  predicate PulledBy(hits: seq<Row>, radius: int, i: nat, row: Row) {
    Pulls(hits, radius, i, row) && forall j: nat :: j < i ==> !Pulls(hits, radius, j, row)
  }

  /** a goes before b: an earlier hit pulls it in, or the same hit and it has the lower position. */
  ghost predicate GoesBefore(hits: seq<Row>, radius: int, a: Row, b: Row) {
    exists i: nat, j: nat :: PulledBy(hits, radius, i, a) && PulledBy(hits, radius, j, b)
      && (i < j || (i == j && a.position < b.position))
  }

  ghost predicate InOrder(hits: seq<Row>, radius: int, rows: seq<Row>) {
    forall a, b :: 0 <= a < b < |rows| ==> GoesBefore(hits, radius, rows[a], rows[b])
  }

  /** A looked-up row stands at its own place, and no hit stands there. */
  ghost predicate Placed(hits: seq<Row>, places: map<Place, Row>) {
    forall p :: p in places ==> PlaceOf(places[p]) == p && p !in Places(hits)
  }

  /** The row is pulled in by a hit before hit n, or by hit n with a position below `bound`. */
  ghost predicate Reached(hits: seq<Row>, radius: int, n: nat, bound: int, row: Row) {
    exists i: nat :: PulledBy(hits, radius, i, row) && (i < n || (i == n && row.position < bound))
  }

  /** What an earlier hit pulls in has been visited already. */
  lemma PulledIsVisited(hits: seq<Row>, radius: nat, places: map<Place, Row>, n: nat, i: nat, row: Row)
    requires i < n <= |hits| && Placed(hits, places) && Pulls(hits, radius, i, row)
    requires row in hits || (PlaceOf(row) in places && places[PlaceOf(row)] == row)
    ensures row in Visited(places, hits[..n], radius)
  {
    var hit, offset := hits[..n][i], row.position - hits[i].position;
    assert hit in hits[..n] && hit in hits && PlaceOf(hit) in Places(hits);
    if row == hit {
      OffsetIsVisited(hits[..n], radius, places, hit, 0, row);
    } else {
      assert PlaceOf(row) == Beside(hit, offset);
      OffsetIsVisited(hits[..n], radius, places, hit, offset, row);
    }
  }

  /** What stands at an offset of hit n is pulled in by it, at that offset. */
  lemma FoundIsPulled(hits: seq<Row>, radius: nat, places: map<Place, Row>, n: nat, offset: int, row: Row)
    requires n < |hits| && Placed(hits, places) && 0 <= offset + radius <= 2 * radius
    requires row in AtOffset(places, hits[n], offset)
    ensures Pulls(hits, radius, n, row) && row.position == hits[n].position + offset
    ensures row in hits || (PlaceOf(row) in places && places[PlaceOf(row)] == row)
  {
    if offset != 0 {
      assert PlaceOf(row) == Beside(hits[n], offset);
      assert row in hits ==> PlaceOf(row) in Places(hits);
    }
  }

  /** A row that is new at an offset of hit n is pulled in by no earlier hit. */
  lemma NewIsPulledBy(hits: seq<Row>, radius: nat, places: map<Place, Row>, n: nat, offset: int, row: Row)
    requires n < |hits| && Placed(hits, places) && 0 <= offset + radius <= 2 * radius
    requires row in AtOffset(places, hits[n], offset) && row !in Visited(places, hits[..n], radius)
    ensures PulledBy(hits, radius, n, row) && row.position == hits[n].position + offset
  {
    FoundIsPulled(hits, radius, places, n, offset, row);
    forall j: nat | j < n ensures !Pulls(hits, radius, j, row) {
      if Pulls(hits, radius, j, row) { PulledIsVisited(hits, radius, places, n, j, row); }
    }
  }

  lemma AppendInOrder(hits: seq<Row>, radius: int, rows: seq<Row>, n: nat, row: Row)
    requires InOrder(hits, radius, rows) && PulledBy(hits, radius, n, row)
    requires forall r :: r in rows ==> Reached(hits, radius, n, row.position, r)
    ensures InOrder(hits, radius, rows + [row])
  {
    forall a, b | 0 <= a < b < |rows + [row]| ensures GoesBefore(hits, radius, (rows + [row])[a], (rows + [row])[b]) {
      if b < |rows| {
        assert GoesBefore(hits, radius, rows[a], rows[b]);
      } else {
        assert rows[a] in rows;
        var i: nat :| PulledBy(hits, radius, i, rows[a]) && (i < n || (i == n && rows[a].position < row.position));
      }
    }
  }

  /** The rows gathered so far are in order, all of them pulled in below the next offset of hit n. */
  ghost predicate GatheredInOrder(hits: seq<Row>, radius: nat, n: nat, offset: int, rows: seq<Row>)
    requires n < |hits|
  {
    InOrder(hits, radius, rows) && forall r :: r in rows ==> Reached(hits, radius, n, hits[n].position + offset, r)
  }

  lemma FurtherReached(hits: seq<Row>, radius: nat, n: nat, bound: int, row: Row)
    requires Reached(hits, radius, n, bound, row)
    ensures Reached(hits, radius, n, bound + 1, row)
  {
    var i: nat :| PulledBy(hits, radius, i, row) && (i < n || (i == n && row.position < bound));
  }

  lemma NothingNew(hits: seq<Row>, radius: nat, n: nat, offset: int, rows: seq<Row>)
    requires n < |hits| && GatheredInOrder(hits, radius, n, offset, rows)
    ensures GatheredInOrder(hits, radius, n, offset + 1, rows)
  {
    forall r | r in rows ensures Reached(hits, radius, n, hits[n].position + offset + 1, r) {
      FurtherReached(hits, radius, n, hits[n].position + offset, r);
    }
  }

  lemma OneMoreInOrder(hits: seq<Row>, radius: nat, places: map<Place, Row>, n: nat, offset: int, rows: seq<Row>,
                       row: Row)
    requires n < |hits| && Placed(hits, places) && 0 <= offset + radius <= 2 * radius
    requires GatheredInOrder(hits, radius, n, offset, rows)
    requires row in AtOffset(places, hits[n], offset) && row !in Visited(places, hits[..n], radius)
    ensures GatheredInOrder(hits, radius, n, offset + 1, rows + [row])
  {
    NewIsPulledBy(hits, radius, places, n, offset, row);
    AppendInOrder(hits, radius, rows, n, row);
    NothingNew(hits, radius, n, offset, rows);
    assert Reached(hits, radius, n, hits[n].position + offset + 1, row);
  }

  lemma AddedInOrder(hits: seq<Row>, radius: nat, places: map<Place, Row>, n: nat, offset: int, rows: seq<Row>,
                     added: seq<Row>)
    requires n < |hits| && Placed(hits, places) && 0 <= offset + radius <= 2 * radius && |added| <= 1
    requires GatheredInOrder(hits, radius, n, offset, rows)
    requires added != [] ==>
      added[0] in AtOffset(places, hits[n], offset) && added[0] !in Visited(places, hits[..n], radius)
    ensures GatheredInOrder(hits, radius, n, offset + 1, rows + added)
  {
    if added == [] {
      assert rows + added == rows;
      NothingNew(hits, radius, n, offset, rows);
    } else {
      assert added == [added[0]];
      OneMoreInOrder(hits, radius, places, n, offset, rows, added[0]);
    }
  }

  lemma UnseenIsUnvisited(visited: seq<Row>, window: seq<Row>, row: Row)
    requires row.id !in Ids(Unique(visited + window))
    ensures row !in visited
  {
    UniqueMeaning(visited + window);
    assert row in visited ==> row in visited + window;
  }

  /** The next offset of a window adds at most one row, and that one was not visited before. */
  lemma WindowGrows(gathered: nat -> seq<Row>, places: map<Place, Row>, hit: Row, radius: nat, visited: seq<Row>,
                    k: nat)
    returns (added: seq<Row>)
    requires Gathers(gathered, places, hit, radius, visited)
    ensures |added| <= 1 && gathered(k + 1) == gathered(k) + added
    ensures added != [] ==> added[0] in AtOffset(places, hit, k - radius) && added[0] !in visited
  {
    var found, now := AtOffset(places, hit, k - radius), gathered(k);
    WindowNext(gathered, places, hit, radius, visited, k);
    if found == [] || found[0].id in Ids(now) {
      added := [];
      assert now + [] == now;
    } else {
      added := found;
      assert Counted(k);
      UnseenIsUnvisited(visited, Window(places, hit, radius, k), found[0]);
    }
  }

  /** ok(k) says that what is held once k offsets have been added is in order. */
  ghost predicate Orders(ok: nat -> bool, hits: seq<Row>, radius: nat, n: nat, gathered: nat -> seq<Row>)
    requires n < |hits|
  {
    forall k: nat {:trigger Counted(k)} :: ok(k) == GatheredInOrder(hits, radius, n, k - radius, gathered(k))
  }

  lemma NextInOrder(ok: nat -> bool, hits: seq<Row>, radius: nat, places: map<Place, Row>, n: nat, visited: seq<Row>,
                    gathered: nat -> seq<Row>, k: nat)
    requires n < |hits| && Placed(hits, places) && k <= 2 * radius
    requires visited == Visited(places, hits[..n], radius) && Gathers(gathered, places, hits[n], radius, visited)
    requires Orders(ok, hits, radius, n, gathered) && ok(k)
    ensures ok(k + 1)
  {
    assert Counted(k) && Counted(k + 1);
    var added := WindowGrows(gathered, places, hits[n], radius, visited, k);
    AddedInOrder(hits, radius, places, n, k - radius, gathered(k), added);
  }

  lemma {:induction false} WindowInOrder(ok: nat -> bool, hits: seq<Row>, radius: nat, places: map<Place, Row>, n: nat,
                                         visited: seq<Row>, gathered: nat -> seq<Row>, k: nat)
    requires n < |hits| && Placed(hits, places) && k <= 2 * radius + 1
    requires visited == Visited(places, hits[..n], radius) && Gathers(gathered, places, hits[n], radius, visited)
    requires Orders(ok, hits, radius, n, gathered) && ok(0)
    ensures ok(k)
    decreases k
  {
    if k == 0 {
    } else {
      WindowInOrder(ok, hits, radius, places, n, visited, gathered, k - 1);
      NextInOrder(ok, hits, radius, places, n, visited, gathered, k - 1);
    }
  }

  /** A whole window, added to what was visited before. */
  lemma WholeWindowInOrder(hits: seq<Row>, radius: nat, places: map<Place, Row>, n: nat, visited: seq<Row>,
                           gathered: nat -> seq<Row>)
    requires n < |hits| && Placed(hits, places) && visited == Visited(places, hits[..n], radius)
    requires Gathers(gathered, places, hits[n], radius, visited)
    requires GatheredInOrder(hits, radius, n, 0 - radius, gathered(0))
    ensures GatheredInOrder(hits, radius, n, radius + 1, gathered(2 * radius + 1))
  {
    var ok := (k: nat) => GatheredInOrder(hits, radius, n, k - radius, gathered(k));
    WindowInOrder(ok, hits, radius, places, n, visited, gathered, 2 * radius + 1);
  }

  lemma ReachedNext(hits: seq<Row>, radius: nat, n: nat, bound: int, next: int, row: Row)
    requires Reached(hits, radius, n, bound, row)
    ensures Reached(hits, radius, n + 1, next, row)
  {
    var i: nat :| PulledBy(hits, radius, i, row) && (i < n || (i == n && row.position < bound));
  }

  lemma AllReachedNext(hits: seq<Row>, radius: nat, n: nat, rows: seq<Row>)
    requires n + 1 < |hits| && GatheredInOrder(hits, radius, n, radius + 1, rows)
    ensures GatheredInOrder(hits, radius, n + 1, 0 - radius, rows)
  {
    forall r | r in rows ensures Reached(hits, radius, n + 1, hits[n + 1].position - radius, r) {
      ReachedNext(hits, radius, n, hits[n].position + radius + 1, hits[n + 1].position - radius, r);
    }
  }

  /** The windows of the hits up to hit n, added one after the other. */
  lemma {:induction false} VisitedInOrder(hits: seq<Row>, radius: nat, places: map<Place, Row>, n: nat)
    requires n < |hits| && Placed(hits, places)
    ensures GatheredInOrder(hits, radius, n, radius + 1, Unique(Visited(places, hits[..n + 1], radius)))
  {
    var visited := Visited(places, hits[..n], radius);
    var gathered := (k: nat) => Unique(visited + Window(places, hits[n], radius, k));
    assert hits[..n + 1][..n] == hits[..n];
    assert visited + Window(places, hits[n], radius, 0) == visited;
    if n == 0 {
      assert gathered(0) == [];
    } else {
      VisitedInOrder(hits, radius, places, n - 1);
      AllReachedNext(hits, radius, n - 1, Unique(visited));
    }
    WholeWindowInOrder(hits, radius, places, n, visited, gathered);
  }

  lemma HitsInOrder(hits: seq<Row>, radius: int)
    requires DistinctRows(hits)
    ensures InOrder(hits, radius, hits)
  {
    forall a, b | 0 <= a < b < |hits| ensures GoesBefore(hits, radius, hits[a], hits[b]) {
      assert hits[a] in hits && hits[b] in hits;
      assert PulledBy(hits, radius, a, hits[a]) && PulledBy(hits, radius, b, hits[b]);
    }
  }

  /**
   * The expansion is ordered by the hit that pulls each row in first, and for one hit by position: its neighbours stand
   * around it as they do in their source.
   */
  lemma ExpansionInOrder(stored: seq<Row>, hits: seq<Row>, radius: int)
    requires IdsOk(stored) && HitsOk(stored, hits)
    ensures InOrder(hits, radius, Expansion(stored, hits, radius))
  {
    if radius <= 0 || |hits| == 0 || Wanted(hits, radius) == {} {
      HitsInOrder(hits, radius);
    } else {
      var places := ByPlace(Fetch(stored, Wanted(hits, radius)));
      FetchedIsLooked(stored, hits, radius);
      forall p | p in places ensures PlaceOf(places[p]) == p && p !in Places(hits) { ByPlaceMeaning(stored, p); }
      VisitedInOrder(hits, radius, places, |hits| - 1);
      assert hits[..|hits|] == hits;
    }
  }
}
