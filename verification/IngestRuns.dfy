/** Every interleaving of ingests, queue upserts, rollbacks and deletions keeps the committed database consistent. */
module IngestRuns {
  import opened Basics
  import opened Ingest

  // ---- Chunk rows ---------------------------------------------------------------------

  lemma {:induction false} NewRowsMeaning<C>(key: Key, chunks: seq<C>, nextId: nat)
    returns (rows: map<nat, ChunkRow<C>>)
    ensures rows == NewRows(key, chunks, nextId)
    ensures forall id :: id in rows <==> nextId <= id < nextId + |chunks|
    ensures forall id :: id in rows ==> rows[id] == ChunkRow(key, id - nextId, chunks[id - nextId])
  {
    rows := NewRows(key, chunks, nextId);
    if |chunks| == 0 {
    } else {
      var earlier := NewRowsMeaning(key, chunks[..|chunks| - 1], nextId);
    }
  }

  lemma NewRowsExact<C(!new)>(key: Key, chunks: seq<C>, nextId: nat)
    ensures Exactly(NewRows(key, chunks, nextId), key, chunks) && Only(NewRows(key, chunks, nextId), key)
  {
    var rows := NewRowsMeaning(key, chunks, nextId);
    forall p: nat | p < |chunks| ensures Filled(rows, key, p) {
      assert nextId + p in rows && AtPosition(rows, key, nextId + p, p);
    }
  }

  /** Two chunk tables agree on the rows of a key. */
  ghost predicate SameRows<C>(a: map<nat, ChunkRow<C>>, b: map<nat, ChunkRow<C>>, key: Key) {
    RowsOf(a, key) == RowsOf(b, key) && forall id :: id in RowsOf(a, key) ==> a[id] == b[id]
  }

  lemma SameRowsExact<C(!new)>(a: map<nat, ChunkRow<C>>, b: map<nat, ChunkRow<C>>, key: Key, content: seq<C>)
    requires SameRows(a, b, key) && Exactly(a, key, content)
    ensures Exactly(b, key, content)
  {
    forall id | id in b && b[id].key == key ensures Holds(b[id], content) { assert id in RowsOf(b, key); }
    forall p: nat | p < |content| ensures Filled(b, key, p) {
      assert Filled(a, key, p);
      var id :| id in a && AtPosition(a, key, id, p);
      assert id in RowsOf(a, key);
      assert AtPosition(b, key, id, p);
    }
    forall i, j | i in b && j in b && b[i].key == b[j].key == key && b[i].position == b[j].position ensures i == j {
      assert i in RowsOf(b, key) && j in RowsOf(b, key);
    }
  }

  // ---- What a commit does to the committed database ------------------------------------

  /** Committing an ingest replaces the rows of its key and touches no other key's rows. */
  lemma CommitRows<C(!new)>(db: Db<C>, tx: Tx<C>, key: Key)
    requires tx.Ingesting? && Only(tx.inserted, tx.key) && tx.deleted <= RowsOf(db.chunks, tx.key)
    requires forall id :: id in tx.inserted ==> id !in db.chunks
    ensures key != tx.key ==> SameRows(db.chunks, CommitDb(db, tx).chunks, key)
    ensures tx.deleted == RowsOf(db.chunks, tx.key) ==> SameRows(tx.inserted, CommitDb(db, tx).chunks, tx.key)
    ensures tx.deleted == {} && tx.inserted == map[] ==> CommitDb(db, tx).chunks == db.chunks
  {
    var after := CommitDb(db, tx).chunks;
    if key != tx.key {
      assert RowsOf(db.chunks, key) == RowsOf(after, key);
    }
    if tx.deleted == RowsOf(db.chunks, tx.key) {
      assert RowsOf(tx.inserted, tx.key) == RowsOf(after, tx.key);
    }
  }

  lemma CommittedTxShape<C(!new)>(split: Splitter<C>, db: Db<C>, tx: Tx<C>)
    requires tx.Ingesting? && tx.phase == Recorded && IngestOk(split, db, tx)
    ensures Only(tx.inserted, tx.key) && tx.deleted <= RowsOf(db.chunks, tx.key)
    ensures Writes(tx) == map[tx.key := tx.row.value]
  {
  }

  lemma CommitUpsertKeeps<C(!new)>(split: Splitter<C>, db: Db<C>, tx: Tx<C>)
    requires Consistent(split, db) && tx.Upserting? && TxOk(split, db, tx)
    ensures Consistent(split, CommitDb(db, tx))
  {
    forall key ensures ConsistentAt(split, CommitDb(db, tx), key) {
      assert ConsistentAt(split, db, key);
    }
  }

  lemma CommitIngestKeeps<C(!new)>(split: Splitter<C>, db: Db<C>, nextId: nat, tx: Tx<C>)
    requires Consistent(split, db) && tx.Ingesting? && tx.phase == Recorded
    requires IngestOk(split, db, tx) && IdsOk(db, nextId, tx)
    ensures Consistent(split, CommitDb(db, tx))
  {
    var after := CommitDb(db, tx);
    CommittedTxShape(split, db, tx);
    forall key ensures ConsistentAt(split, after, key) {
      assert ConsistentAt(split, db, key);
      CommitRows(db, tx, key);
      var content := if key in db.sources then ChunksOf(split, db.sources[key].digest) else [];
      if key != tx.key {
        SameRowsExact(db.chunks, after.chunks, key, content);
      } else if !(tx.deleted == {} && tx.inserted == map[] && Preserves(db, key, tx.row.value)) {
        SameRowsExact(tx.inserted, after.chunks, key, split(tx.content, tx.config));
      }
    }
  }

  // ---- What a commit leaves of the other transactions' knowledge ------------------------

  lemma UpsertCommitFrames<C(!new)>(split: Splitter<C>, db: Db<C>, tx: Tx<C>, other: Tx<C>)
    requires tx.Upserting? && TxOk(split, db, tx) && TxOk(split, db, other) && Apart(tx, other)
    ensures TxOk(split, CommitDb(db, tx), other)
  {
    var after := CommitDb(db, tx);
    assert after.chunks == db.chunks;
    assert forall key :: key in Writes(other) ==> key !in Writes(tx);
    if other.Ingesting? && other.phase == Recorded {
      assert other.key in Writes(other);
    }
  }

  lemma IngestCommitFrames<C(!new)>(split: Splitter<C>, db: Db<C>, nextId: nat, tx: Tx<C>, other: Tx<C>)
    requires tx.Ingesting? && tx.phase == Recorded && IngestOk(split, db, tx) && IdsOk(db, nextId, tx)
    requires TxOk(split, db, other) && Apart(tx, other)
    ensures TxOk(split, CommitDb(db, tx), other)
  {
    var after := CommitDb(db, tx);
    CommittedTxShape(split, db, tx);
    assert forall key :: key in Writes(other) ==> key !in Writes(tx);
    if other.Ingesting? {
      if other.phase != Begun {
        CommitRows(db, tx, other.key);
        assert other.key != tx.key;
      }
    }
  }

  // ---- Every step ------------------------------------------------------------------------

  /** The state in which transaction t has been replaced or added, and the committed database is the same. */
  lemma UpdateKeeps<C(!new)>(split: Splitter<C>, s: State<C>, t: nat, tx: Tx<C>, nextId: nat)
    requires Inv(split, s) && s.nextId <= nextId
    requires TxOk(split, s.db, tx) && IdsOk(s.db, nextId, tx)
    requires forall u :: u in s.txs && u != t ==> Apart(tx, s.txs[u]) && Apart(s.txs[u], tx)
    ensures Inv(split, Update(s, t, tx).(nextId := nextId))
  {
  }

  lemma SameTxApart<C(!new)>(split: Splitter<C>, s: State<C>, t: nat, tx: Tx<C>)
    requires Inv(split, s) && t in s.txs && s.txs[t].Ingesting? && tx.Ingesting?
    requires tx.key == s.txs[t].key && tx.phase != Begun && s.txs[t].phase != Begun
    requires tx.inserted == s.txs[t].inserted || (forall id :: id in tx.inserted ==> id >= s.nextId)
    requires Writes(tx) == map[] || (Writes(tx).Keys == {tx.key} && !RowLocked(s, t, tx.key))
    ensures forall u :: u in s.txs && u != t ==> Apart(tx, s.txs[u]) && Apart(s.txs[u], tx)
  {
    forall u | u in s.txs && u != t ensures Apart(tx, s.txs[u]) && Apart(s.txs[u], tx) {
      assert Apart(s.txs[t], s.txs[u]) && Apart(s.txs[u], s.txs[t]) && IdsOk(s.db, s.nextId, s.txs[u]);
      if Writes(tx) != map[] { assert tx.key !in Writes(s.txs[u]); }
    }
  }

  lemma LockKeeps<C(!new)>(split: Splitter<C>, s: State<C>, l: Label)
    requires Inv(split, s) && l.Lock? && Enabled(s, l)
    ensures Inv(split, Apply(split, s, l))
  {
    var tx := s.txs[l.t].(phase := Locked);
    assert TxOk(split, s.db, s.txs[l.t]);
    forall u | u in s.txs && u != l.t ensures Apart(tx, s.txs[u]) && Apart(s.txs[u], tx) {
      assert Apart(s.txs[l.t], s.txs[u]) && !HoldsLock(s.txs[u], tx.key);
    }
    UpdateKeeps(split, s, l.t, tx, s.nextId);
  }

  lemma BeginKeeps<C(!new)>(split: Splitter<C>, s: State<C>, l: Label)
    requires Inv(split, s) && l.Begin? && Enabled(s, l)
    ensures Inv(split, Apply(split, s, l))
  {
    UpdateKeeps(split, s, l.t, Apply(split, s, l).txs[l.t], s.nextId);
  }

  lemma CheckKeeps<C(!new)>(split: Splitter<C>, s: State<C>, l: Label)
    requires Inv(split, s) && l.Check? && Enabled(s, l)
    ensures Inv(split, Apply(split, s, l))
  {
    var tx := Apply(split, s, l).txs[l.t];
    assert TxOk(split, s.db, s.txs[l.t]) && ConsistentAt(split, s.db, tx.key);
    SameTxApart(split, s, l.t, tx);
    if tx.existing.None? {
      assert tx.key !in s.db.sources;
      assert RowsOf(s.db.chunks, tx.key) == {};
    }
    UpdateKeeps(split, s, l.t, tx, s.nextId);
  }

  lemma ClearKeeps<C(!new)>(split: Splitter<C>, s: State<C>, l: Label)
    requires Inv(split, s) && l.Clear? && Enabled(s, l)
    ensures Inv(split, Apply(split, s, l))
  {
    var tx := Apply(split, s, l).txs[l.t];
    assert TxOk(split, s.db, s.txs[l.t]);
    SameTxApart(split, s, l.t, tx);
    UpdateKeeps(split, s, l.t, tx, s.nextId);
  }

  lemma StoreKeeps<C(!new)>(split: Splitter<C>, s: State<C>, l: Label)
    requires Inv(split, s) && l.Store? && Enabled(s, l)
    ensures Inv(split, Apply(split, s, l))
  {
    var tx := Apply(split, s, l).txs[l.t];
    var chunks := split(tx.content, tx.config);
    assert TxOk(split, s.db, s.txs[l.t]);
    var rows := NewRowsMeaning(tx.key, chunks, s.nextId);
    NewRowsExact(tx.key, chunks, s.nextId);
    assert tx.inserted == rows;
    SameTxApart(split, s, l.t, tx);
    UpdateKeeps(split, s, l.t, tx, s.nextId + |chunks|);
  }

  lemma RecordKeeps<C(!new)>(split: Splitter<C>, s: State<C>, l: Label)
    requires Inv(split, s) && (l.Record? || l.Skip?) && Enabled(s, l)
    ensures Inv(split, Apply(split, s, l))
  {
    var tx := Apply(split, s, l).txs[l.t];
    assert TxOk(split, s.db, s.txs[l.t]);
    assert Writes(tx) == map[tx.key := tx.row.value];
    SameTxApart(split, s, l.t, tx);
    assert IdsOk(s.db, s.nextId, s.txs[l.t]);
    UpdateKeeps(split, s, l.t, tx, s.nextId);
  }

  lemma QueueKeeps<C(!new)>(split: Splitter<C>, s: State<C>, l: Label)
    requires Inv(split, s) && (l.Upsert? || l.SetStatus?) && Enabled(s, l)
    ensures Inv(split, Apply(split, s, l))
  {
    var tx := Apply(split, s, l).txs[l.t];
    var before := if l.t in s.txs then s.txs[l.t] else Upserting(map[]);
    assert TxOk(split, s.db, before);
    forall key | key in tx.rows ensures Preserves(s.db, key, tx.rows[key]) {
      assert key in before.rows ==> Preserves(s.db, key, before.rows[key]);
    }
    forall u | u in s.txs && u != l.t ensures Apart(tx, s.txs[u]) && Apart(s.txs[u], tx) {
      assert l.t in s.txs ==> Apart(s.txs[l.t], s.txs[u]);
      assert l.key !in Writes(s.txs[u]);
      assert tx.rows.Keys == before.rows.Keys + {l.key};
    }
    UpdateKeeps(split, s, l.t, tx, s.nextId);
  }

  lemma CommitKeeps<C(!new)>(split: Splitter<C>, s: State<C>, l: Label)
    requires Inv(split, s) && l.Commit? && Enabled(s, l)
    ensures Inv(split, Apply(split, s, l))
  {
    var tx, after := s.txs[l.t], Apply(split, s, l);
    assert TxOk(split, s.db, tx) && IdsOk(s.db, s.nextId, tx);
    if tx.Upserting? {
      CommitUpsertKeeps(split, s.db, tx);
    } else {
      CommitIngestKeeps(split, s.db, s.nextId, tx);
    }
    forall u | u in after.txs
      ensures TxOk(split, after.db, after.txs[u]) && IdsOk(after.db, after.nextId, after.txs[u])
    {
      assert Apart(tx, s.txs[u]) && TxOk(split, s.db, s.txs[u]) && IdsOk(s.db, s.nextId, s.txs[u]);
      if tx.Upserting? {
        UpsertCommitFrames(split, s.db, tx, s.txs[u]);
      } else {
        IngestCommitFrames(split, s.db, s.nextId, tx, s.txs[u]);
      }
    }
    assert forall t, u :: t in after.txs && u in after.txs && t != u ==> Apart(after.txs[t], after.txs[u]);
  }

  lemma DeleteKeeps<C(!new)>(split: Splitter<C>, s: State<C>, l: Label)
    requires Inv(split, s) && l.Delete? && Enabled(s, l)
    ensures Inv(split, Apply(split, s, l))
  {
    var after := Apply(split, s, l);
    forall key ensures ConsistentAt(split, after.db, key) {
      assert ConsistentAt(split, s.db, key);
      if key != l.key {
        assert RowsOf(s.db.chunks, key) == RowsOf(after.db.chunks, key);
        SameRowsExact(s.db.chunks, after.db.chunks, key,
          if key in s.db.sources then ChunksOf(split, s.db.sources[key].digest) else []);
      }
    }
    forall u | u in after.txs
      ensures TxOk(split, after.db, after.txs[u]) && IdsOk(after.db, after.nextId, after.txs[u])
    {
      var tx := s.txs[u];
      assert TxOk(split, s.db, tx) && IdsOk(s.db, s.nextId, tx);
      assert l.key !in Writes(tx) && (tx.Ingesting? ==> tx.key != l.key);
      if tx.Ingesting? { assert RowsOf(s.db.chunks, tx.key) == RowsOf(after.db.chunks, tx.key); }
    }
  }

  lemma StepKeeps<C(!new)>(split: Splitter<C>, s: State<C>, l: Label)
    requires Inv(split, s) && Enabled(s, l)
    ensures Inv(split, Apply(split, s, l))
  {
    match l
    case Begin(_, _, _, _, _) => BeginKeeps(split, s, l);
    case Lock(_) => LockKeeps(split, s, l);
    case Check(_) => CheckKeeps(split, s, l);
    case Skip(_) => RecordKeeps(split, s, l);
    case Clear(_) => ClearKeeps(split, s, l);
    case Store(_) => StoreKeeps(split, s, l);
    case Record(_) => RecordKeeps(split, s, l);
    case Upsert(_, _, _, _) => QueueKeeps(split, s, l);
    case SetStatus(_, _, _) => QueueKeeps(split, s, l);
    case Commit(_) => CommitKeeps(split, s, l);
    case Rollback(_) =>
    case Delete(_) => DeleteKeeps(split, s, l);
  }

  // ---- Every run ---------------------------------------------------------------------------

  function Initial<C>(): State<C> { State(Db(map[], map[]), map[], 0) }

  /** The labels can be taken one after the other. */
  predicate IsRun<C>(split: Splitter<C>, s: State<C>, run: seq<Label>)
    decreases |run|
  {
    |run| == 0 || (Enabled(s, run[0]) && IsRun(split, Apply(split, s, run[0]), run[1..]))
  }

  function After<C>(split: Splitter<C>, s: State<C>, run: seq<Label>): State<C>
    requires IsRun(split, s, run)
    decreases |run|
  {
    if |run| == 0 then s else After(split, Apply(split, s, run[0]), run[1..])
  }

  lemma {:induction false} RunKeeps<C(!new)>(split: Splitter<C>, s: State<C>, run: seq<Label>)
    requires Inv(split, s) && IsRun(split, s, run)
    ensures Inv(split, After(split, s, run))
    decreases |run|
  {
    if |run| == 0 {
    } else {
      StepKeeps(split, s, run[0]);
      RunKeeps(split, Apply(split, s, run[0]), run[1..]);
    }
  }

  lemma {:induction false} RunExtends<C>(split: Splitter<C>, s: State<C>, run: seq<Label>, l: Label)
    requires IsRun(split, s, run) && Enabled(After(split, s, run), l)
    ensures IsRun(split, s, run + [l]) && After(split, s, run + [l]) == Apply(split, After(split, s, run), l)
    decreases |run|
  {
    if |run| == 0 {
      assert run + [l] == [l];
      assert IsRun(split, Apply(split, s, l), [l][1..]);
    } else {
      assert (run + [l])[1..] == run[1..] + [l];
      RunExtends(split, Apply(split, s, run[0]), run[1..], l);
    }
  }

  /** Every run from the empty database, whatever its interleaving and rollbacks, leaves a consistent database. */
  lemma EveryRunIsConsistent<C(!new)>(split: Splitter<C>, run: seq<Label>)
    requires IsRun(split, Initial(), run)
    ensures Inv(split, After(split, Initial(), run)) && Consistent(split, After(split, Initial(), run).db)
  {
    forall key ensures ConsistentAt(split, Initial<C>().db, key) { assert RowsOf(Initial<C>().db.chunks, key) == {}; }
    RunKeeps(split, Initial(), run);
  }

  // ---- What consistency says of the rows of one source -------------------------------------

  /** The rows of a key are as many as the content they are exactly the chunks of. */
  lemma {:induction false} ExactCount<C(!new)>(chunks: map<nat, ChunkRow<C>>, key: Key, content: seq<C>)
    requires Exactly(chunks, key, content)
    ensures |RowsOf(chunks, key)| == |content|
  {
    if |content| == 0 {
      assert RowsOf(chunks, key) == {};
    } else {
      var n := |content| - 1;
      assert Filled(chunks, key, n);
      var last :| last in chunks && AtPosition(chunks, key, last, n);
      var fewer := chunks - {last};
      forall p: nat | p < n ensures Filled(fewer, key, p) {
        assert Filled(chunks, key, p);
        var id :| id in chunks && AtPosition(chunks, key, id, p);
        assert AtPosition(fewer, key, id, p);
      }
      ExactCount(fewer, key, content[..n]);
      assert RowsOf(chunks, key) == RowsOf(fewer, key) + {last};
    }
  }

  /**
   * In every run, a committed source has exactly chunk_count chunk rows, one at each position 0..chunk_count-1, and
   * they are the chunks of the content behind its hash; a key without a source row has none.
   */
  lemma StoredChunksAreCounted<C(!new)>(split: Splitter<C>, run: seq<Label>, key: Key)
    requires IsRun(split, Initial(), run)
    ensures var db := After(split, Initial(), run).db;
            |RowsOf(db.chunks, key)| == (if key in db.sources then db.sources[key].count else 0)
  {
    EveryRunIsConsistent(split, run);
    var db := After(split, Initial(), run).db;
    assert ConsistentAt(split, db, key);
    ExactCount(db.chunks, key, if key in db.sources then ChunksOf(split, db.sources[key].digest) else []);
  }

  /** A source and a position name at most one committed chunk row. */
  lemma PositionsAreUnique<C(!new)>(split: Splitter<C>, run: seq<Label>, i: nat, j: nat)
    requires IsRun(split, Initial(), run)
    requires i in After(split, Initial(), run).db.chunks && j in After(split, Initial(), run).db.chunks
    ensures var chunks := After(split, Initial(), run).db.chunks;
            chunks[i].key == chunks[j].key && chunks[i].position == chunks[j].position ==> i == j
  {
    EveryRunIsConsistent(split, run);
    var db := After(split, Initial(), run).db;
    assert ConsistentAt(split, db, db.chunks[i].key);
  }

  // ---- What an ingest achieves --------------------------------------------------------------

  /** The committed database holds this content for this key, chunk for chunk. */
  ghost predicate StoresContent<C(!new)>(split: Splitter<C>, db: Db<C>, key: Key, content: string, config: Config) {
    && key in db.sources && db.sources[key].digest == Of(content, config)
    && Exactly(db.chunks, key, split(content, config))
  }

  /**
   * A checked ingest skips exactly when the committed database already holds its content, unless its session had
   * loaded the source row before taking the lock: then it skips on the row it remembers.
   */
  lemma SkipMeansStored<C(!new)>(split: Splitter<C>, s: State<C>, t: nat)
    requires Inv(split, s) && InPhase(s, t, Checked)
    ensures var tx := s.txs[t];
            tx.cached.None? ==> (Matches(tx) <==> StoresContent(split, s.db, tx.key, tx.content, tx.config))
    ensures var tx := s.txs[t];
            (Matches(tx) ==> StoresContent(split, s.db, tx.key, tx.content, tx.config))
            <==> !(tx.cached.Some? && tx.cached.value.digest == Of(tx.content, tx.config)
                   && s.db.sources[tx.key].digest != tx.cached.value.digest)
  {
    assert TxOk(split, s.db, s.txs[t]) && ConsistentAt(split, s.db, s.txs[t].key);
  }

  /** An ingest that commits, and whose session had not loaded the row before, leaves its own content stored. */
  lemma CommitStoresContent<C(!new)>(split: Splitter<C>, s: State<C>, t: nat)
    requires Inv(split, s) && InPhase(s, t, Recorded) && s.txs[t].cached.None?
    ensures StoresContent(split, Apply(split, s, Commit(t)).db, s.txs[t].key, s.txs[t].content, s.txs[t].config)
  {
    var tx := s.txs[t];
    assert TxOk(split, s.db, tx);
    StepKeeps(split, s, Commit(t));
    assert ConsistentAt(split, Apply(split, s, Commit(t)).db, tx.key);
  }
}
