/** What ingestion guarantees is what neighbour expansion needs: a source and a position name one chunk of a model. */
module StoredRows {
  import Ingest
  import IngestRuns
  import Retrieval
  import NeighbourFacts

  /** The chunk rows of one model as a search returns them. */
  predicate IsStoredRow<C>(db: Ingest.Db<C>, model: int, row: Retrieval.Row) {
    && row.id in db.chunks && db.chunks[row.id].key == Ingest.Key(model, row.source)
    && db.chunks[row.id].position == row.position
  }

  lemma IngestedRowsAreUnique<C(!new)>(split: Ingest.Splitter<C>, run: seq<Ingest.Label>, model: int,
    stored: seq<Retrieval.Row>)
    requires IngestRuns.IsRun(split, IngestRuns.Initial(), run)
    requires forall row :: row in stored ==>
      IsStoredRow(IngestRuns.After(split, IngestRuns.Initial(), run).db, model, row)
    ensures NeighbourFacts.StoredOk(stored)
  {
    var db := IngestRuns.After(split, IngestRuns.Initial(), run).db;
    forall a, b | a in stored && b in stored &&
      Retrieval.Row(0, a.source, a.position) == Retrieval.Row(0, b.source, b.position)
      ensures a == b
    {
      assert IsStoredRow(db, model, a) && IsStoredRow(db, model, b);
      IngestRuns.PositionsAreUnique(split, run, a.id, b.id);
    }
    assert forall row :: row in stored ==> IsStoredRow(db, model, row);
  }
}
