/** What queueing or ingesting a source leaves in its row, whatever others do before the transaction commits. */
module SourceRuns {
  import opened Basics
  import opened Ingest
  import opened IngestRuns

  /** The step belongs to transaction t. */
  predicate IsOf(l: Label, t: nat) { !l.Delete? && l.t == t }

  predicate NoneOf(run: seq<Label>, t: nat) { forall i :: 0 <= i < |run| ==> !IsOf(run[i], t) }

  /** While t holds the lock of a row, no step of anyone else changes t's pending rows or the committed row. */
  lemma OthersWait<C(!new)>(split: Splitter<C>, s: State<C>, l: Label, t: nat, key: Key)
    requires Inv(split, s) && Enabled(s, l) && !IsOf(l, t)
    requires t in s.txs && key in Writes(s.txs[t])
    ensures var after := Apply(split, s, l);
      && t in after.txs && after.txs[t] == s.txs[t]
      && Lookup(after.db, key) == Lookup(s.db, key)
  {
    if l.Commit? {
      assert Apart(s.txs[t], s.txs[l.t]) && key !in Writes(s.txs[l.t]).Keys;
    } else if l.Delete? {
      assert InFlight(s, key);
    }
  }

  lemma {:induction false} OthersWaitThroughout<C(!new)>(split: Splitter<C>, s: State<C>, run: seq<Label>, t: nat,
                                                         key: Key)
    requires Inv(split, s) && IsRun(split, s, run) && NoneOf(run, t)
    requires t in s.txs && key in Writes(s.txs[t])
    ensures var after := After(split, s, run);
      && t in after.txs && after.txs[t] == s.txs[t]
      && Lookup(after.db, key) == Lookup(s.db, key)
    decreases |run|
  {
    if |run| == 0 {
    } else {
      OthersWait(split, s, run[0], t, key);
      StepKeeps(split, s, run[0]);
      OthersWaitThroughout(split, Apply(split, s, run[0]), run[1..], t, key);
    }
  }

  // ---- Queueing ----------------------------------------------------------------------------

  /** The status that was queued, the text that came with it or else the old one, and hash and count as they were. */
  predicate IsQueued(before: Option<SourceRow>, row: SourceRow, status: Status, raw: Option<string>) {
    && row.status == status
    && (raw.Some? ==> row.raw == raw)
    && (before.Some? ==> row.digest == before.value.digest && row.count == before.value.count)
    && (before.Some? && raw.None? ==> row.raw == before.value.raw)
    && (before.None? ==> row.digest == Blank && row.count == 0 && row.raw == raw)
  }

  /** The row as t saw it when it queued: its own pending one, else the committed one. */
  function Seen<C>(s: State<C>, t: nat, key: Key): Option<SourceRow> {
    if t in s.txs && s.txs[t].Upserting? && key in s.txs[t].rows then Some(s.txs[t].rows[key])
    else if key in s.db.sources then Some(s.db.sources[key])
    else None
  }

  /**
   * A queue statement, then any steps of other transactions, then the commit: the committed row has the status and the
   * text that were queued, its hash and count are those of the last ingest, and the chunks are as they were.
   */
  lemma QueuedIsCommitted<C(!new)>(split: Splitter<C>, s: State<C>, t: nat, key: Key, status: Status,
                                   raw: Option<string>, run: seq<Label>)
    requires Inv(split, s) && Enabled(s, Upsert(t, key, status, raw))
    requires IsRun(split, Apply(split, s, Upsert(t, key, status, raw)), run) && NoneOf(run, t)
    ensures var before := After(split, Apply(split, s, Upsert(t, key, status, raw)), run);
      && Enabled(before, Commit(t))
      && var db := Apply(split, before, Commit(t)).db;
         key in db.sources && IsQueued(Seen(s, t, key), db.sources[key], status, raw) && db.chunks == before.db.chunks
  {
    var queued := Apply(split, s, Upsert(t, key, status, raw));
    StepKeeps(split, s, Upsert(t, key, status, raw));
    OthersWaitThroughout(split, queued, run, t, key);
  }

  // ---- Ingesting ---------------------------------------------------------------------------

  /** Complete with its text if it gave chunks; else failed with no chunks, and with the text it had before. */
  predicate IsIngested(before: Option<SourceRow>, row: SourceRow, content: string, config: Config, chunks: nat) {
    && row.digest == Of(content, config) && row.count == chunks
    && (chunks > 0 ==> row.status == Complete && row.raw == Some(content))
    && (chunks == 0 ==> row.status == Failed && row.raw == (if before.Some? then before.value.raw else None))
  }

  /** The upsert of an ingest, then any steps of other transactions, then the commit. */
  lemma RecordedIsCommitted<C(!new)>(split: Splitter<C>, s: State<C>, t: nat, run: seq<Label>)
    requires Inv(split, s) && Enabled(s, Record(t))
    requires IsRun(split, Apply(split, s, Record(t)), run) && NoneOf(run, t)
    ensures var tx, before := s.txs[t], After(split, Apply(split, s, Record(t)), run);
      && Enabled(before, Commit(t))
      && var db := Apply(split, before, Commit(t)).db;
         && tx.key in db.sources && StoresContent(split, db, tx.key, tx.content, tx.config)
         && IsIngested(Lookup(s.db, tx.key), db.sources[tx.key], tx.content, tx.config,
                       |split(tx.content, tx.config)|)
  {
    var tx, recorded := s.txs[t], Apply(split, s, Record(t));
    StepKeeps(split, s, Record(t));
    OthersWaitThroughout(split, recorded, run, t, tx.key);
    RunKeeps(split, recorded, run);
    StepKeeps(split, After(split, recorded, run), Commit(t));
    assert ConsistentAt(split, Apply(split, After(split, recorded, run), Commit(t)).db, tx.key);
  }

  lemma SkipWrites<C(!new)>(split: Splitter<C>, s: State<C>, t: nat)
    requires Inv(split, s) && Enabled(s, Skip(t))
    ensures var tx := Apply(split, s, Skip(t)).txs[t];
      && tx.Ingesting? && tx.deleted == {} && tx.inserted == map[] && tx.key == s.txs[t].key && tx.key in s.db.sources
      && Writes(tx) == map[tx.key := s.db.sources[tx.key].(status := Complete)]
      && Enabled(Apply(split, s, Skip(t)), Commit(t))
  {
    assert TxOk(split, s.db, s.txs[t]);
  }

  lemma CommitsRow<C(!new)>(split: Splitter<C>, s: State<C>, t: nat, key: Key, row: SourceRow)
    requires Enabled(s, Commit(t)) && s.txs[t].Ingesting? && s.txs[t].deleted == {} && s.txs[t].inserted == map[]
    requires Writes(s.txs[t]) == map[key := row]
    ensures var db := Apply(split, s, Commit(t)).db;
      key in db.sources && db.sources[key] == row && db.chunks == s.db.chunks
  {
    assert s.db.chunks - {} + map[] == s.db.chunks;
  }

  /** A skip marks the row complete; that is all the commit changes of it, and it changes no chunk. */
  lemma SkippedIsCommitted<C(!new)>(split: Splitter<C>, s: State<C>, t: nat, run: seq<Label>)
    requires Inv(split, s) && Enabled(s, Skip(t))
    requires IsRun(split, Apply(split, s, Skip(t)), run) && NoneOf(run, t)
    ensures var key, before := s.txs[t].key, After(split, Apply(split, s, Skip(t)), run);
      && Enabled(before, Commit(t)) && key in s.db.sources
      && var db := Apply(split, before, Commit(t)).db;
         && key in db.sources && db.chunks == before.db.chunks
         && db.sources[key] == s.db.sources[key].(status := Complete)
  {
    var skipped := Apply(split, s, Skip(t));
    SkipWrites(split, s, t);
    StepKeeps(split, s, Skip(t));
    OthersWaitThroughout(split, skipped, run, t, s.txs[t].key);
    CommitsRow(split, After(split, skipped, run), t, s.txs[t].key, s.db.sources[s.txs[t].key].(status := Complete));
  }

  // ---- When others see it ------------------------------------------------------------------

  /**
   * Nothing shows before a commit, and a commit shows at the keys its transaction wrote only; a deletion leaves neither
   * row nor chunks of its key, and everything else as it was.
   */
  lemma ChangesShowAtCommit<C(!new)>(split: Splitter<C>, s: State<C>, l: Label, key: Key)
    requires Inv(split, s) && Enabled(s, l)
    ensures var db, after := s.db, Apply(split, s, l).db;
      && (!l.Commit? && !l.Delete? ==> after == db)
      && (l.Commit? && key !in Writes(s.txs[l.t]) ==>
          Lookup(after, key) == Lookup(db, key) && SameRows(db.chunks, after.chunks, key))
      && (l.Delete? && key != l.key ==>
          Lookup(after, key) == Lookup(db, key) && SameRows(db.chunks, after.chunks, key))
      && (l.Delete? && key == l.key ==> Lookup(after, key) == None && RowsOf(after.chunks, key) == {})
  {
    if l.Commit? && key !in Writes(s.txs[l.t]) {
      var tx := s.txs[l.t];
      assert TxOk(split, s.db, tx) && IdsOk(s.db, s.nextId, tx);
      if tx.Ingesting? {
        CommittedTxShape(split, s.db, tx);
        CommitRows(s.db, tx, key);
      }
    }
  }
}
