/** Neighbour expansion returns the hits as they were, with exactly the chunks around them, each once. */
module NeighbourFacts {
  import opened Retrieval
  import opened Neighbours

  /** An id names one stored row. */
  ghost predicate IdsOk(stored: seq<Row>) {
    forall a, b :: a in stored && b in stored && a.id == b.id ==> a == b
  }

  /** So does a source and a position; rows stored before positions existed all have position 0 and do not obey this. */
  ghost predicate PlacesOk(stored: seq<Row>) {
    forall a, b :: a in stored && b in stored && PlaceOf(a) == PlaceOf(b) ==> a == b
  }

  ghost predicate StoredOk(stored: seq<Row>) { IdsOk(stored) && PlacesOk(stored) }

  ghost predicate DistinctRows(rows: seq<Row>) { forall i, j :: 0 <= i < j < |rows| ==> rows[i].id != rows[j].id }

  ghost predicate HitsOk(stored: seq<Row>, hits: seq<Row>) {
    DistinctRows(hits) && forall row :: row in hits ==> row in stored
  }

  /** The rows whose id is among some. */
  function Keep(rows: seq<Row>, ids: set<nat>): seq<Row> {
    if |rows| == 0 then [] else
      Keep(rows[..|rows| - 1], ids) + (if rows[|rows| - 1].id in ids then [rows[|rows| - 1]] else [])
  }

  predicate Near(hit: Row, row: Row, radius: int) {
    row.source == hit.source && -radius <= row.position - hit.position <= radius
  }

  // ---- What the steps gather ------------------------------------------------------------

  lemma {:induction false} FetchMeaning(stored: seq<Row>, places: set<Place>, row: Row)
    ensures row in Fetch(stored, places) <==> row in stored && PlaceOf(row) in places
  {
    if |stored| == 0 {
    } else {
      FetchMeaning(stored[..|stored| - 1], places, row);
      assert stored == stored[..|stored| - 1] + [stored[|stored| - 1]];
    }
  }

  lemma {:induction false} ByPlaceMeaning(rows: seq<Row>, p: Place)
    ensures p in ByPlace(rows) ==> ByPlace(rows)[p] in rows && PlaceOf(ByPlace(rows)[p]) == p
    ensures p in ByPlace(rows) <==> p in Places(rows)
  {
    if |rows| == 0 {
    } else {
      var n := |rows| - 1;
      ByPlaceMeaning(rows[..n], p);
      assert rows == rows[..n] + [rows[n]];
      assert Places(rows) == Places(rows[..n]) + {PlaceOf(rows[n])};
    }
  }

  lemma ByPlaceNext(rows: seq<Row>, row: Row)
    ensures ByPlace(rows + [row]) == ByPlace(rows)[PlaceOf(row) := row]
  {
    assert (rows + [row])[..|rows|] == rows;
  }

  /**
   * Looking up the fetched rows is looking up all rows at the fetched places: of several at one place the last counts.
   */
  lemma {:induction false} FetchedLookup(stored: seq<Row>, wanted: set<Place>, p: Place)
    ensures p in ByPlace(Fetch(stored, wanted)) <==> p in wanted && p in ByPlace(stored)
    ensures p in ByPlace(Fetch(stored, wanted)) ==> ByPlace(Fetch(stored, wanted))[p] == ByPlace(stored)[p]
  {
    if |stored| == 0 {
    } else {
      var before, last := stored[..|stored| - 1], stored[|stored| - 1];
      FetchedLookup(before, wanted, p);
      if PlaceOf(last) in wanted {
        ByPlaceNext(Fetch(before, wanted), last);
      } else {
        assert Fetch(stored, wanted) == Fetch(before, wanted) + [] == Fetch(before, wanted);
      }
    }
  }

  lemma {:induction false} WindowMeaning(places: map<Place, Row>, hit: Row, radius: nat, k: nat, row: Row)
    ensures row in Window(places, hit, radius, k) <==>
      exists offset: int :: 0 <= offset + radius < k && row in AtOffset(places, hit, offset)
  {
    if k == 0 {
    } else {
      WindowMeaning(places, hit, radius, k - 1, row);
      assert row in AtOffset(places, hit, k - 1 - radius) ==> row in Window(places, hit, radius, k);
    }
  }

  ghost predicate InSomeWindow(places: map<Place, Row>, hits: seq<Row>, radius: nat, row: Row) {
    exists hit :: hit in hits && row in Window(places, hit, radius, 2 * radius + 1)
  }

  lemma {:induction false} VisitedMeaning(places: map<Place, Row>, hits: seq<Row>, radius: nat, row: Row)
    ensures row in Visited(places, hits, radius) <==> InSomeWindow(places, hits, radius, row)
  {
    if |hits| == 0 {
    } else {
      var n := |hits| - 1;
      VisitedMeaning(places, hits[..n], radius, row);
      assert hits[n] in hits && forall hit :: hit in hits ==> hit in hits[..n] || hit == hits[n];
      if InSomeWindow(places, hits[..n], radius, row) {
        var hit :| hit in hits[..n] && row in Window(places, hit, radius, 2 * radius + 1);
        assert hit in hits;
      }
    }
  }

  lemma {:induction false} UniqueMeaning(rows: seq<Row>)
    ensures DistinctRows(Unique(rows)) && Ids(Unique(rows)) == Ids(rows) && |Unique(rows)| <= |rows|
    ensures forall row :: row in Unique(rows) ==> row in rows
  {
    if |rows| == 0 {
    } else {
      var before, last := rows[..|rows| - 1], rows[|rows| - 1];
      UniqueMeaning(before);
      assert rows == before + [last];
      KeptIds(before, last);
      UniqueNext(before, last);
      AddedDistinct(Unique(before), last);
    }
  }

  lemma AddedDistinct(rows: seq<Row>, row: Row)
    requires DistinctRows(rows)
    ensures row.id !in Ids(rows) ==> DistinctRows(rows + [row])
  {
    if row.id !in Ids(rows) {
      forall i, j | 0 <= i < j < |rows + [row]| ensures (rows + [row])[i].id != (rows + [row])[j].id {
        assert rows[i] in rows;
      }
    }
  }

  lemma KeptIds(rows: seq<Row>, row: Row)
    ensures Ids(rows + [row]) == Ids(rows) + {row.id}
  {
    assert row in rows + [row] && forall r :: r in rows ==> r in rows + [row];
  }

  // ---- The hits stay as they were -----------------------------------------------------------

  lemma {:induction false} KeepConcat(a: seq<Row>, b: seq<Row>, ids: set<nat>)
    ensures Keep(a + b, ids) == Keep(a, ids) + Keep(b, ids)
  {
    if |b| == 0 {
      assert a + b == a;
    } else {
      assert (a + b)[..|a + b| - 1] == a + b[..|b| - 1];
      KeepConcat(a, b[..|b| - 1], ids);
    }
  }

  lemma {:induction false} KeepIds(rows: seq<Row>, ids: set<nat>)
    ensures Ids(Keep(rows, ids)) == Ids(rows) * ids
  {
    if |rows| == 0 {
    } else {
      var before, last := rows[..|rows| - 1], rows[|rows| - 1];
      KeepIds(before, ids);
      assert rows == before + [last];
      KeptIds(before, last);
      KeptIds(Keep(before, ids), last);
      KeepNext(before, last, ids);
    }
  }

  lemma KeepNext(rows: seq<Row>, row: Row, ids: set<nat>)
    ensures Keep(rows + [row], ids) == if row.id in ids then Keep(rows, ids) + [row] else Keep(rows, ids)
  {
    assert (rows + [row])[..|rows|] == rows;
  }

  lemma SeenAmongKept(rows: seq<Row>, ids: set<nat>, id: nat)
    requires id in ids
    ensures id in Ids(Unique(Keep(rows, ids))) <==> id in Ids(Unique(rows))
  {
    UniqueMeaning(rows);
    UniqueMeaning(Keep(rows, ids));
    KeepIds(rows, ids);
  }

  lemma KeepUniqueNext(before: seq<Row>, last: Row, ids: set<nat>)
    requires Keep(Unique(before), ids) == Unique(Keep(before, ids))
    ensures Keep(Unique(before + [last]), ids) == Unique(Keep(before + [last], ids))
  {
    UniqueNext(before, last);
    KeepNext(before, last, ids);
    if last.id !in ids {
      KeepNext(Unique(before), last, ids);
    } else {
      SeenAmongKept(before, ids, last.id);
      UniqueNext(Keep(before, ids), last);
      if last.id !in Ids(Unique(before)) { KeepNext(Unique(before), last, ids); }
    }
  }

  /** Dropping repeats and keeping some ids can be done in either order. */
  lemma {:induction false} KeepUnique(rows: seq<Row>, ids: set<nat>)
    ensures Keep(Unique(rows), ids) == Unique(Keep(rows, ids))
  {
    if |rows| == 0 {
    } else {
      var n := |rows| - 1;
      KeepUnique(rows[..n], ids);
      KeepUniqueNext(rows[..n], rows[n], ids);
      assert rows[..n] + [rows[n]] == rows;
    }
  }

  lemma {:induction false} UniqueOfDistinct(rows: seq<Row>)
    requires DistinctRows(rows)
    ensures Unique(rows) == rows
  {
    if |rows| == 0 {
    } else {
      UniqueOfDistinct(rows[..|rows| - 1]);
    }
  }

  lemma KeepAtOffset(places: map<Place, Row>, hit: Row, offset: int, ids: set<nat>)
    requires hit.id in ids && forall p :: p in places ==> places[p].id !in ids
    ensures Keep(AtOffset(places, hit, offset), ids) == if offset == 0 then [hit] else []
  {
    var found := AtOffset(places, hit, offset);
    if found != [] { assert found == [found[0]] && found[..0] == []; }
  }

  /** The next offset of a window adds nothing that is kept, but for the hit itself. */
  lemma KeepNextOffset(places: map<Place, Row>, hit: Row, radius: nat, k: nat, ids: set<nat>)
    requires hit.id in ids && forall p :: p in places ==> places[p].id !in ids
    ensures Keep(Window(places, hit, radius, k + 1), ids) ==
      Keep(Window(places, hit, radius, k), ids) + if k == radius then [hit] else []
  {
    KeepAtOffset(places, hit, k - radius, ids);
    KeepConcat(Window(places, hit, radius, k), AtOffset(places, hit, k - radius), ids);
  }

  /** kept(k) is what is kept of the first k offsets of a window. */
  ghost predicate Keeps(kept: nat -> seq<Row>, places: map<Place, Row>, hit: Row, radius: nat, ids: set<nat>) {
    forall k: nat {:trigger Counted(k)} :: kept(k) == Keep(Window(places, hit, radius, k), ids)
  }

  lemma KeptNext(kept: nat -> seq<Row>, places: map<Place, Row>, hit: Row, radius: nat, k: nat, ids: set<nat>)
    requires hit.id in ids && forall p :: p in places ==> places[p].id !in ids
    requires Keeps(kept, places, hit, radius, ids)
    ensures kept(0) == [] && kept(k + 1) == kept(k) + if k == radius then [hit] else []
  {
    assert Counted(0) && Counted(k) && Counted(k + 1);
    KeepNextOffset(places, hit, radius, k, ids);
  }

  lemma {:induction false} KeptOnce(kept: nat -> seq<Row>, places: map<Place, Row>, hit: Row, radius: nat, k: nat,
                                    ids: set<nat>)
    requires hit.id in ids && forall p :: p in places ==> places[p].id !in ids
    requires Keeps(kept, places, hit, radius, ids)
    ensures kept(k) == if k > radius then [hit] else []
  {
    if k == 0 {
      KeptNext(kept, places, hit, radius, 0, ids);
    } else {
      KeptOnce(kept, places, hit, radius, k - 1, ids);
      KeptNext(kept, places, hit, radius, k - 1, ids);
    }
  }

  lemma KeepWindow(places: map<Place, Row>, hit: Row, radius: nat, k: nat, ids: set<nat>)
    requires hit.id in ids && forall p :: p in places ==> places[p].id !in ids
    ensures Keep(Window(places, hit, radius, k), ids) == if k > radius then [hit] else []
  {
    var kept := (n: nat) => Keep(Window(places, hit, radius, n), ids);
    KeptOnce(kept, places, hit, radius, k, ids);
  }

  lemma {:induction false} KeepVisited(places: map<Place, Row>, hits: seq<Row>, radius: nat, ids: set<nat>)
    requires forall i :: 0 <= i < |hits| ==> hits[i].id in ids
    requires forall p :: p in places ==> places[p].id !in ids
    ensures Keep(Visited(places, hits, radius), ids) == hits
    decreases |hits|
  {
    if |hits| == 0 {
    } else {
      var n := |hits| - 1;
      KeepVisited(places, hits[..n], radius, ids);
      KeepWindow(places, hits[n], radius, 2 * radius + 1, ids);
      KeepBoth(Visited(places, hits[..n], radius), Window(places, hits[n], radius, 2 * radius + 1), hits, n, ids);
    }
  }

  lemma KeepBoth(before: seq<Row>, window: seq<Row>, hits: seq<Row>, n: nat, ids: set<nat>)
    requires |hits| == n + 1 && Keep(before, ids) == hits[..n] && Keep(window, ids) == [hits[n]]
    ensures Keep(before + window, ids) == hits
  {
    KeepConcat(before, window, ids);
    assert hits[..n] + [hits[n]] == hits;
  }

  lemma {:induction false} KeepAll(rows: seq<Row>, ids: set<nat>)
    requires forall i :: 0 <= i < |rows| ==> rows[i].id in ids
    ensures Keep(rows, ids) == rows
  {
    if |rows| == 0 {
    } else {
      KeepAll(rows[..|rows| - 1], ids);
    }
  }

  /** What the lookup gives at a wanted place: the last stored row there. */
  ghost predicate Looked(stored: seq<Row>, hits: seq<Row>, radius: int, places: map<Place, Row>) {
    && (forall p :: p in places <==> p in Wanted(hits, radius) && p in ByPlace(stored))
    && (forall p :: p in places ==> places[p] == ByPlace(stored)[p])
  }

  lemma FetchedIsLooked(stored: seq<Row>, hits: seq<Row>, radius: int)
    ensures Looked(stored, hits, radius, ByPlace(Fetch(stored, Wanted(hits, radius))))
  {
    var places := ByPlace(Fetch(stored, Wanted(hits, radius)));
    forall p
      ensures p in places <==> p in Wanted(hits, radius) && p in ByPlace(stored)
      ensures p in places ==> places[p] == ByPlace(stored)[p]
    {
      FetchedLookup(stored, Wanted(hits, radius), p);
    }
  }

  /** A looked-up row stands where no hit stands, so it is none of them. */
  lemma NeighboursAreNotHits(stored: seq<Row>, hits: seq<Row>, radius: int, places: map<Place, Row>, p: Place)
    requires IdsOk(stored) && HitsOk(stored, hits) && Looked(stored, hits, radius, places) && p in places
    ensures places[p].id !in Ids(hits)
  {
    ByPlaceMeaning(stored, p);
    forall hit | hit in hits ensures hit.id != places[p].id { assert PlaceOf(hit) in Places(hits); }
  }

  /** The hits come back in their own order, none lost and none moved past another. */
  lemma HitsKeepTheirOrder(stored: seq<Row>, hits: seq<Row>, radius: int)
    requires IdsOk(stored) && HitsOk(stored, hits)
    ensures Keep(Expansion(stored, hits, radius), Ids(hits)) == hits
  {
    if radius <= 0 || |hits| == 0 || Wanted(hits, radius) == {} {
      KeepAll(hits, Ids(hits));
    } else {
      var places := ByPlace(Fetch(stored, Wanted(hits, radius)));
      FetchedIsLooked(stored, hits, radius);
      forall p | p in places ensures places[p].id !in Ids(hits) {
        NeighboursAreNotHits(stored, hits, radius, places, p);
      }
      KeepVisited(places, hits, radius, Ids(hits));
      KeepUnique(Visited(places, hits, radius), Ids(hits));
      UniqueOfDistinct(hits);
    }
  }

  // ---- Exactly the chunks around the hits ------------------------------------------------------

  ghost predicate NearSome(stored: seq<Row>, hits: seq<Row>, radius: int, row: Row) {
    row in stored && exists hit :: hit in hits && Near(hit, row, radius)
  }

  /** No row stored behind it stands at its place. */
  predicate LastThere(stored: seq<Row>, row: Row) {
    exists k :: 0 <= k < |stored| && stored[k] == row && LastAt(stored, k, PlaceOf(row))
  }

  predicate LastAt(stored: seq<Row>, k: nat, p: Place) {
    forall m :: k < m < |stored| ==> PlaceOf(stored[m]) != p
  }

  /** It is what a lookup at its place finds. */
  lemma {:induction false} LookupFindsLast(stored: seq<Row>, row: Row)
    ensures LastThere(stored, row) <==> PlaceOf(row) in ByPlace(stored) && ByPlace(stored)[PlaceOf(row)] == row
  {
    if |stored| == 0 {
    } else {
      var n, p := |stored| - 1, PlaceOf(row);
      var front := stored[..n];
      LookupFindsLast(front, row);
      assert LastAt(stored, n, p);
      if PlaceOf(stored[n]) != p {
        assert forall k: nat :: k < n ==> (LastAt(stored, k, p) <==> LastAt(front, k, p));
      }
    }
  }

  /** A neighbour that is returned: near a hit, where no hit stands, and the last stored row there. */
  ghost predicate Returned(stored: seq<Row>, hits: seq<Row>, radius: int, row: Row) {
    NearSome(stored, hits, radius, row) && PlaceOf(row) !in Places(hits) && LastThere(stored, row)
  }

  /** A place near a hit has a hit at it or is wanted. */
  lemma NearIsWanted(hits: seq<Row>, radius: int, hit: Row, row: Row)
    requires hit in hits && Near(hit, row, radius)
    ensures PlaceOf(row) in Places(hits) || (radius > 0 && PlaceOf(row) in Wanted(hits, radius))
  {
    assert PlaceOf(hit) in Places(hits);
    assert PlaceOf(row) == Beside(hit, row.position - hit.position);
  }

  lemma FoundIsReturned(stored: seq<Row>, hits: seq<Row>, radius: nat, places: map<Place, Row>, hit: Row, offset: int)
    requires Looked(stored, hits, radius, places) && hit in hits
    requires Beside(hit, offset) in places && -1 * radius <= offset <= radius
    ensures Returned(stored, hits, radius, places[Beside(hit, offset)])
  {
    var row := places[Beside(hit, offset)];
    ByPlaceMeaning(stored, Beside(hit, offset));
    LookupFindsLast(stored, row);
    assert PlaceOf(row) == Beside(hit, offset);
    assert Near(hit, row, radius);
  }

  lemma VisitedIsReturned(stored: seq<Row>, hits: seq<Row>, radius: nat, places: map<Place, Row>, row: Row)
    requires Looked(stored, hits, radius, places) && row in Visited(places, hits, radius)
    ensures row in hits || Returned(stored, hits, radius, row)
  {
    var hit, offset := VisitedFrom(places, hits, radius, row);
    if offset != 0 { FoundIsReturned(stored, hits, radius, places, hit, offset); }
  }

  lemma VisitedFrom(places: map<Place, Row>, hits: seq<Row>, radius: nat, row: Row) returns (hit: Row, offset: int)
    requires row in Visited(places, hits, radius)
    ensures hit in hits && 0 <= offset + radius < 2 * radius + 1 && row in AtOffset(places, hit, offset)
  {
    VisitedMeaning(places, hits, radius, row);
    hit :| hit in hits && row in Window(places, hit, radius, 2 * radius + 1);
    WindowMeaning(places, hit, radius, 2 * radius + 1, row);
    offset :| 0 <= offset + radius < 2 * radius + 1 && row in AtOffset(places, hit, offset);
  }

  lemma ReturnedIsVisited(stored: seq<Row>, hits: seq<Row>, radius: nat, places: map<Place, Row>, row: Row)
    requires Looked(stored, hits, radius, places)
    requires row in hits || Returned(stored, hits, radius, row)
    ensures row in Visited(places, hits, radius)
  {
    if row in hits {
      OffsetIsVisited(hits, radius, places, row, 0, row);
    } else {
      var hit :| hit in hits && Near(hit, row, radius);
      NearIsWanted(hits, radius, hit, row);
      LookupFindsLast(stored, row);
      var offset := row.position - hit.position;
      assert Beside(hit, offset) == PlaceOf(row);
      assert PlaceOf(hit) in Places(hits);
      OffsetIsVisited(hits, radius, places, hit, offset, row);
    }
  }

  lemma OffsetIsVisited(hits: seq<Row>, radius: nat, places: map<Place, Row>, hit: Row, offset: int, row: Row)
    requires hit in hits && 0 <= offset + radius < 2 * radius + 1 && row in AtOffset(places, hit, offset)
    ensures row in Visited(places, hits, radius)
  {
    WindowMeaning(places, hit, radius, 2 * radius + 1, row);
    VisitedMeaning(places, hits, radius, row);
  }

  /** The row kept under a visited row's id is that row. */
  lemma SameIdIsSameRow(stored: seq<Row>, hits: seq<Row>, radius: nat, places: map<Place, Row>, row: Row)
    requires IdsOk(stored) && HitsOk(stored, hits) && Looked(stored, hits, radius, places)
    requires row in Visited(places, hits, radius) && row in stored
    ensures row in Unique(Visited(places, hits, radius))
  {
    var visited := Visited(places, hits, radius);
    UniqueMeaning(visited);
    assert row.id in Ids(Unique(visited));
    var same :| same in Unique(visited) && same.id == row.id;
    VisitedIsReturned(stored, hits, radius, places, same);
  }

  /**
   * The expansion is the hits and, for every place within the radius of a hit that no hit stands at, the last stored
   * row there; each once. It says what becomes of rows that share a place, too.
   */
  lemma ExpansionIs(stored: seq<Row>, hits: seq<Row>, radius: int, row: Row)
    requires IdsOk(stored) && HitsOk(stored, hits)
    ensures row in Expansion(stored, hits, radius) <==> row in hits || Returned(stored, hits, radius, row)
    ensures DistinctRows(Expansion(stored, hits, radius))
  {
    if radius <= 0 || |hits| == 0 || Wanted(hits, radius) == {} {
      if Returned(stored, hits, radius, row) {
        var hit :| hit in hits && Near(hit, row, radius);
        NearIsWanted(hits, radius, hit, row);
      }
    } else {
      var places := ByPlace(Fetch(stored, Wanted(hits, radius)));
      var visited := Visited(places, hits, radius);
      FetchedIsLooked(stored, hits, radius);
      UniqueMeaning(visited);
      if row in Unique(visited) { VisitedIsReturned(stored, hits, radius, places, row); }
      if row in hits || Returned(stored, hits, radius, row) {
        ReturnedIsVisited(stored, hits, radius, places, row);
        SameIdIsSameRow(stored, hits, radius, places, row);
      }
    }
  }

  /** The expansion is the hits and every stored chunk of the same source within the radius of one. */
  ghost predicate Complete(stored: seq<Row>, hits: seq<Row>, radius: int) {
    forall row :: row in Expansion(stored, hits, radius) <==> row in hits || NearSome(stored, hits, radius, row)
  }

  /** Two rows near a hit share a place only if both are hits. */
  ghost predicate Apart(stored: seq<Row>, hits: seq<Row>, radius: int) {
    forall a, b ::
      NearSome(stored, hits, radius, a) && NearSome(stored, hits, radius, b) && PlaceOf(a) == PlaceOf(b) && a != b
      ==> a in hits && b in hits
  }

  lemma SharedPlaceLosesOne(stored: seq<Row>, hits: seq<Row>, radius: int, a: Row, b: Row)
    requires IdsOk(stored) && HitsOk(stored, hits) && Complete(stored, hits, radius)
    requires NearSome(stored, hits, radius, a) && NearSome(stored, hits, radius, b)
    requires PlaceOf(a) == PlaceOf(b) && a != b
    ensures a in hits
  {
    ExpansionIs(stored, hits, radius, a);
    ExpansionIs(stored, hits, radius, b);
    assert a in hits || (PlaceOf(a) !in Places(hits) && LastThere(stored, a));
    assert b in hits || (PlaceOf(b) !in Places(hits) && LastThere(stored, b));
    assert b in hits ==> PlaceOf(b) in Places(hits);
  }

  /** The row found at the place of a row near a hit is near that hit too, so it is that row. */
  lemma ApartIsFound(stored: seq<Row>, hits: seq<Row>, radius: int, hit: Row, row: Row)
    requires Apart(stored, hits, radius) && row in stored && row !in hits
    requires hit in hits && Near(hit, row, radius)
    ensures PlaceOf(row) in ByPlace(stored) && ByPlace(stored)[PlaceOf(row)] == row
  {
    ByPlaceMeaning(stored, PlaceOf(row));
    assert PlaceOf(row) in Places(stored);
    var last := ByPlace(stored)[PlaceOf(row)];
    assert Near(hit, last, radius) && NearSome(stored, hits, radius, last) && NearSome(stored, hits, radius, row);
  }

  lemma NotThere(stored: seq<Row>, hits: seq<Row>, radius: int, hit: Row, row: Row, other: Row)
    requires HitsOk(stored, hits) && Apart(stored, hits, radius) && row in stored && row !in hits
    requires hit in hits && Near(hit, row, radius) && other in hits
    ensures PlaceOf(other) != PlaceOf(row)
  {
    if Near(hit, other, radius) {
      assert NearSome(stored, hits, radius, row) && NearSome(stored, hits, radius, other);
    }
  }

  lemma NoHitThere(stored: seq<Row>, hits: seq<Row>, radius: int, hit: Row, row: Row)
    requires HitsOk(stored, hits) && Apart(stored, hits, radius) && row in stored && row !in hits
    requires hit in hits && Near(hit, row, radius)
    ensures PlaceOf(row) !in Places(hits)
  {
    forall other | other in hits ensures PlaceOf(other) != PlaceOf(row) {
      NotThere(stored, hits, radius, hit, row, other);
    }
  }

  lemma ApartIsReturned(stored: seq<Row>, hits: seq<Row>, radius: int, row: Row)
    requires HitsOk(stored, hits) && Apart(stored, hits, radius)
    requires NearSome(stored, hits, radius, row) && row !in hits
    ensures Returned(stored, hits, radius, row)
  {
    var hit :| hit in hits && Near(hit, row, radius);
    ApartIsFound(stored, hits, radius, hit, row);
    NoHitThere(stored, hits, radius, hit, row);
    LookupFindsLast(stored, row);
  }

  lemma CompleteIsApart(stored: seq<Row>, hits: seq<Row>, radius: int)
    requires IdsOk(stored) && HitsOk(stored, hits) && Complete(stored, hits, radius)
    ensures Apart(stored, hits, radius)
  {
    forall a, b |
      NearSome(stored, hits, radius, a) && NearSome(stored, hits, radius, b) && PlaceOf(a) == PlaceOf(b) && a != b
      ensures a in hits && b in hits
    {
      SharedPlaceLosesOne(stored, hits, radius, a, b);
      SharedPlaceLosesOne(stored, hits, radius, b, a);
    }
  }

  lemma ApartIsComplete(stored: seq<Row>, hits: seq<Row>, radius: int)
    requires IdsOk(stored) && HitsOk(stored, hits) && Apart(stored, hits, radius)
    ensures Complete(stored, hits, radius)
  {
    forall row ensures row in Expansion(stored, hits, radius) <==> row in hits || NearSome(stored, hits, radius, row) {
      ExpansionIs(stored, hits, radius, row);
      if NearSome(stored, hits, radius, row) && row !in hits { ApartIsReturned(stored, hits, radius, row); }
    }
  }

  /**
   * That is the hits and every stored chunk of the same source within the radius of one, exactly if no two rows near a
   * hit share a place without both being hits; so it is where a place names one row.
   */
  lemma ExpansionIsExact(stored: seq<Row>, hits: seq<Row>, radius: int)
    requires IdsOk(stored) && HitsOk(stored, hits)
    ensures Complete(stored, hits, radius) <==> Apart(stored, hits, radius)
    ensures PlacesOk(stored) ==> Complete(stored, hits, radius)
  {
    if Complete(stored, hits, radius) { CompleteIsApart(stored, hits, radius); }
    if Apart(stored, hits, radius) { ApartIsComplete(stored, hits, radius); }
  }

  lemma {:induction false} WindowSize(places: map<Place, Row>, hit: Row, radius: nat, k: nat)
    ensures |Window(places, hit, radius, k)| <= k
  {
    if k == 0 {
    } else {
      WindowSize(places, hit, radius, k - 1);
    }
  }

  lemma {:induction false} VisitedSize(places: map<Place, Row>, hits: seq<Row>, radius: nat, width: nat)
    requires width == 2 * radius + 1
    ensures |Visited(places, hits, radius)| <= width * |hits|
  {
    if |hits| == 0 {
    } else {
      VisitedSize(places, hits[..|hits| - 1], radius, width);
      WindowSize(places, hits[|hits| - 1], radius, width);
      assert width * |hits| == width * (|hits| - 1) + width;
    }
  }

  /** At most 2 * radius + 1 chunks for each hit. */
  lemma ExpansionIsBounded(stored: seq<Row>, hits: seq<Row>, radius: nat)
    ensures |Expansion(stored, hits, radius)| <= (2 * radius + 1) * |hits|
  {
    var visited := Visited(ByPlace(Fetch(stored, Wanted(hits, radius))), hits, radius);
    VisitedSize(ByPlace(Fetch(stored, Wanted(hits, radius))), hits, radius, 2 * radius + 1);
    UniqueMeaning(visited);
    AtLeastOnce(2 * radius + 1, |hits|);
    assert Expansion(stored, hits, radius) in [hits, Unique(visited)];
  }

  lemma AtLeastOnce(width: nat, n: nat)
    requires width >= 1
    ensures n <= width * n
  {
  }
}
