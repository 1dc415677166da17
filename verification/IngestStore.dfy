/** One ingest call executed statement by statement, and what a row loaded before the lock does to it. */
module IngestStore {
  import opened Basics
  import opened Ingest
  import opened IngestRuns
  import SourceRuns
  import Chunker
  import Packing

  /** What a call answers, or that it raised and rolled back. */
  datatype Outcome = Ingested(count: nat, skipped: bool) | Raised

  /** A run and the state it leads to from `origin`. */
  ghost predicate Leads<C(!new)>(split: Splitter<C>, origin: State<C>, run: seq<Label>, s: State<C>) {
    IsRun(split, origin, run) && After(split, origin, run) == s
  }

  lemma Step<C(!new)>(split: Splitter<C>, origin: State<C>, run: seq<Label>, s: State<C>, l: Label)
    returns (more: seq<Label>, next: State<C>)
    requires Leads(split, origin, run, s) && Enabled(s, l)
    ensures next == Apply(split, s, l) && more == run + [l] && Leads(split, origin, more, next)
  {
    RunExtends(split, origin, run, l);
    more, next := run + [l], Apply(split, s, l);
  }

  /** Transaction 0 is free, and the open ones are ingests that have not taken their lock. */
  predicate Idle(s: State) { forall u :: u in s.txs ==> u != 0 && InPhase(s, u, Begun) && s.txs[u].row.None? }

  /** A call with no other in its way, up to its check, which reads the committed row. */
  lemma RunToCheck<C(!new)>(split: Splitter<C>, origin: State<C>, key: Key, content: string, config: Config)
    returns (run: seq<Label>, s: State<C>)
    requires Inv(split, origin) && Idle(origin) && config.size >= 1
    ensures Leads(split, origin, run, s) && Inv(split, s)
    ensures s.db == origin.db && s.nextId == origin.nextId
    ensures s.txs ==
      origin.txs[0 := Ingesting(key, content, config, Checked, None, Lookup(origin.db, key), {}, map[], None)]
    ensures Matches(s.txs[0]) <==> StoresContent(split, origin.db, key, content, config)
  {
    run, s := [], origin;
    run, s := Step(split, origin, run, s, Begin(0, key, content, config, false));
    run, s := Step(split, origin, run, s, Lock(0));
    run, s := Step(split, origin, run, s, Check(0));
    RunKeeps(split, origin, run);
    SkipMeansStored(split, s, 0);
  }

  lemma SkipCommits<C(!new)>(split: Splitter<C>, origin: State<C>, s: State<C>, key: Key)
    requires Enabled(s, Skip(0)) && 0 !in origin.txs && s.txs - {0} == origin.txs
    requires s.db == origin.db && s.nextId == origin.nextId
    requires s.txs[0].key == key && s.txs[0].deleted == {} && s.txs[0].inserted == map[]
    ensures Enabled(Apply(split, s, Skip(0)), Commit(0))
    ensures Apply(split, Apply(split, s, Skip(0)), Commit(0)) ==
      origin.(db := origin.db.(sources := origin.db.sources[key := origin.db.sources[key].(status := Complete)]))
  {
    var recorded := Apply(split, s, Skip(0));
    assert Writes(recorded.txs[0]) == map[key := origin.db.sources[key].(status := Complete)];
    assert recorded.txs - {0} == origin.txs;
  }

  /** A skipped call marks the source complete and changes nothing else. */
  lemma SkipRun<C(!new)>(split: Splitter<C>, origin: State<C>, key: Key, content: string, config: Config)
    returns (run: seq<Label>)
    requires Inv(split, origin) && Idle(origin) && config.size >= 1
    requires StoresContent(split, origin.db, key, content, config)
    ensures Leads(split, origin, run,
      origin.(db := origin.db.(sources := origin.db.sources[key := origin.db.sources[key].(status := Complete)])))
  {
    var s;
    run, s := RunToCheck(split, origin, key, content, config);
    if origin.db.sources[key].status == Complete {
      run, s := Step(split, origin, run, s, Rollback(0));
      assert origin.db.sources[key := origin.db.sources[key].(status := Complete)] == origin.db.sources;
    } else {
      SkipCommits(split, origin, s, key);
      run, s := Step(split, origin, run, s, Skip(0));
      run, s := Step(split, origin, run, s, Commit(0));
    }
  }

  /** A call that raises after its delete leaves the state it started from. */
  lemma RaiseRun<C(!new)>(split: Splitter<C>, origin: State<C>, key: Key, content: string, config: Config)
    returns (run: seq<Label>)
    requires Inv(split, origin) && Idle(origin) && config.size >= 1
    requires !StoresContent(split, origin.db, key, content, config)
    ensures Leads(split, origin, run, origin)
  {
    var s;
    run, s := RunToCheck(split, origin, key, content, config);
    run, s := Step(split, origin, run, s, Clear(0));
    run, s := Step(split, origin, run, s, Rollback(0));
  }

  /** The committed database after a call replaced the chunks of its source. */
  function Replaced<C>(split: Splitter<C>, db: Db<C>, nextId: nat, key: Key, content: string, config: Config): Db<C> {
    var chunks, before := split(content, config), Lookup(db, key);
    var row := if |chunks| > 0 then SourceRow(Of(content, config), |chunks|, Complete, Some(content))
               else SourceRow(Of(content, config), 0, Failed, if before.Some? then before.value.raw else None);
    Db(db.sources[key := row], (db.chunks - RowsOf(db.chunks, key)) + NewRows(key, chunks, nextId))
  }

  /** The source's row is that of the new content, its chunk rows are the new chunks, and nothing else is touched. */
  lemma ReplacedMeaning<C(!new)>(split: Splitter<C>, db: Db<C>, nextId: nat, key: Key, content: string, config: Config)
    requires forall id :: id in db.chunks ==> id < nextId
    ensures var after, n := Replaced(split, db, nextId, key, content, config), |split(content, config)|;
      && after.sources.Keys == db.sources.Keys + {key}
      && SourceRuns.IsIngested(Lookup(db, key), after.sources[key], content, config, n)
      && (forall k :: k in db.sources && k != key ==> after.sources[k] == db.sources[k])
      && (forall id :: id in db.chunks && db.chunks[id].key != key ==>
          id in after.chunks && after.chunks[id] == db.chunks[id])
      && (forall id :: id in after.chunks && after.chunks[id].key != key ==> id in db.chunks)
      && Exactly(after.chunks, key, split(content, config))
  {
    var chunks, after := split(content, config), Replaced(split, db, nextId, key, content, config);
    var rows := NewRows(key, chunks, nextId);
    NewRowsExact(key, chunks, nextId);
    var same := NewRowsMeaning(key, chunks, nextId);
    SameRowsExact(rows, after.chunks, key, chunks);
  }

  lemma RunToStore<C(!new)>(split: Splitter<C>, origin: State<C>, key: Key, content: string, config: Config)
    returns (run: seq<Label>, s: State<C>)
    requires Inv(split, origin) && Idle(origin) && config.size >= 1
    requires !StoresContent(split, origin.db, key, content, config)
    ensures Leads(split, origin, run, s) && s.db == origin.db && s.nextId == origin.nextId + |split(content, config)|
    ensures s.txs == origin.txs[0 := Ingesting(key, content, config, Stored, None, Lookup(origin.db, key),
                                               RowsOf(origin.db.chunks, key),
                                               NewRows(key, split(content, config), origin.nextId), None)]
  {
    run, s := RunToCheck(split, origin, key, content, config);
    assert ConsistentAt(split, origin.db, key);
    assert Lookup(origin.db, key).None? ==> RowsOf(origin.db.chunks, key) == {};
    run, s := Step(split, origin, run, s, Clear(0));
    run, s := Step(split, origin, run, s, Store(0));
  }

  lemma RunToRecord<C(!new)>(split: Splitter<C>, origin: State<C>, key: Key, content: string, config: Config)
    returns (run: seq<Label>, s: State<C>)
    requires Inv(split, origin) && Idle(origin) && config.size >= 1
    requires !StoresContent(split, origin.db, key, content, config)
    ensures Leads(split, origin, run, s) && s.db == origin.db && s.nextId == origin.nextId + |split(content, config)|
    ensures InPhase(s, 0, Recorded) && s.txs - {0} == origin.txs
    ensures var tx := s.txs[0];
            tx.key == key && tx.content == content && tx.config == config && tx.cached.None?
            && tx.deleted == RowsOf(origin.db.chunks, key)
            && tx.inserted == NewRows(key, split(content, config), origin.nextId)
            && tx.row == Some(Replaced(split, origin.db, origin.nextId, key, content, config).sources[key])
  {
    run, s := RunToStore(split, origin, key, content, config);
    run, s := Step(split, origin, run, s, Record(0));
  }

  lemma ReplaceCommits<C(!new)>(split: Splitter<C>, origin: State<C>, s: State<C>, key: Key, content: string,
    config: Config)
    requires InPhase(s, 0, Recorded) && s.txs - {0} == origin.txs && s.db == origin.db
    requires s.nextId == origin.nextId + |split(content, config)|
    requires s.txs[0].key == key && s.txs[0].deleted == RowsOf(origin.db.chunks, key)
    requires s.txs[0].inserted == NewRows(key, split(content, config), origin.nextId)
    requires s.txs[0].row == Some(Replaced(split, origin.db, origin.nextId, key, content, config).sources[key])
    ensures Apply(split, s, Commit(0)) ==
      State(Replaced(split, origin.db, origin.nextId, key, content, config), origin.txs,
            origin.nextId + |split(content, config)|)
  {
    assert Writes(s.txs[0]) == map[key := s.txs[0].row.value];
  }

  /** A call that does not skip commits its own rows in place of the source's old ones. */
  lemma ReplaceRun<C(!new)>(split: Splitter<C>, origin: State<C>, key: Key, content: string, config: Config)
    returns (run: seq<Label>)
    requires Inv(split, origin) && Idle(origin) && config.size >= 1
    requires !StoresContent(split, origin.db, key, content, config)
    ensures Leads(split, origin, run, State(Replaced(split, origin.db, origin.nextId, key, content, config), origin.txs,
                                            origin.nextId + |split(content, config)|))
    ensures StoresContent(split, Replaced(split, origin.db, origin.nextId, key, content, config), key, content, config)
  {
    var toRecord, s := RunToRecord(split, origin, key, content, config);
    RunKeeps(split, origin, toRecord);
    CommitStoresContent(split, s, 0);
    ReplaceCommits(split, origin, s, key, content, config);
    run, s := Step(split, origin, toRecord, s, Commit(0));
  }

  lemma {:induction false} RunConcat<C(!new)>(split: Splitter<C>, origin: State<C>, run: seq<Label>, s: State<C>,
    rest: seq<Label>)
    returns (all: seq<Label>, last: State<C>)
    requires Leads(split, origin, run, s) && IsRun(split, s, rest)
    ensures all == run + rest && last == After(split, s, rest) && Leads(split, origin, all, last)
    decreases |rest|
  {
    if |rest| == 0 {
      assert run + rest == run;
      all, last := run, s;
    } else {
      var more, next := Step(split, origin, run, s, rest[0]);
      all, last := RunConcat(split, origin, more, next, rest[1..]);
      assert more + rest[1..] == run + rest;
    }
  }

  class Store<C(!new)> {
    var sources: map<Key, SourceRow>
    var chunks: map<nat, ChunkRow<C>>
    var nextId: nat

    constructor ()
      ensures Snapshot() == Initial()
    {
      sources, chunks, nextId := map[], map[], 0;
    }

    ghost function Snapshot(): State<C>
      reads this
    {
      State(Db(sources, chunks), map[], nextId)
    }

    /** The multi-row insert: one row for each chunk, at consecutive ids and positions. */
    method InsertRows(key: Key, content: seq<C>, kept: map<nat, ChunkRow<C>>) returns (rows: map<nat, ChunkRow<C>>)
      modifies this`nextId
      ensures rows == kept + NewRows(key, content, old(nextId)) && nextId == old(nextId) + |content|
    {
      rows := kept;
      var i: nat := 0;
      while i < |content|
        invariant i <= |content| && nextId == old(nextId) + i
        invariant rows == kept + NewRows(key, content[..i], old(nextId))
      {
        assert content[..i + 1][..i] == content[..i];
        rows := rows[nextId := ChunkRow(key, i, content[i])];
        nextId, i := nextId + 1, i + 1;
      }
      assert content[..i] == content;
    }

    /**
     * One ingest with no other transaction open. It is a run of the transition system; it skips exactly when the
     * content is already stored; unless embedding raises, the content is stored afterwards, and the rows of the key are
     * all that changed.
     */
    method IngestContent(split: Splitter<C>, key: Key, content: string, config: Config, embedRaises: bool)
      returns (outcome: Outcome, ghost run: seq<Label>)
      requires Inv(split, Snapshot()) && config.size >= 1
      modifies this
      ensures Leads(split, old(Snapshot()), run, Snapshot())
      ensures outcome.Raised? <==> embedRaises && !old(StoresContent(split, Db(sources, chunks), key, content, config))
                                   && split(content, config) != []
      ensures outcome.Raised? ==> Snapshot() == old(Snapshot())
      ensures outcome.Ingested? ==> StoresContent(split, Db(sources, chunks), key, content, config)
      ensures outcome.Ingested? ==> outcome.count == |split(content, config)|
      ensures outcome.Ingested? ==>
        (outcome.skipped <==> old(StoresContent(split, Db(sources, chunks), key, content, config)))
      ensures outcome.Ingested? && !outcome.skipped ==>
                Db(sources, chunks) == Replaced(split, old(Snapshot()).db, old(nextId), key, content, config)
      ensures outcome.Ingested? && outcome.skipped ==>
                chunks == old(chunks) && key in old(sources) &&
                  sources == old(sources)[key := old(sources)[key].(status := Complete)]
    {
      var existing := if key in sources then Some(sources[key]) else None;
      ghost var origin := Snapshot();
      assert ConsistentAt(split, origin.db, key);
      if existing.Some? && existing.value.digest == Of(content, config) {
        run := SkipRun(split, origin, key, content, config);
        if existing.value.status != Complete {
          sources := sources[key := sources[key].(status := Complete)];
        } else {
          assert sources[key := sources[key].(status := Complete)] == sources;
        }
        outcome := Ingested(existing.value.count, true);
      } else {
        var kept := if existing.Some? then chunks - RowsOf(chunks, key) else chunks;
        assert existing.None? ==> RowsOf(chunks, key) == {};
        var pieces := split(content, config);
        if |pieces| > 0 && embedRaises {
          run := RaiseRun(split, origin, key, content, config);
          outcome := Raised;
        } else {
          run := ReplaceRun(split, origin, key, content, config);
          chunks := InsertRows(key, pieces, kept);
          if |pieces| == 0 {
            sources := sources[key := SourceRow(Of(content, config), 0, Failed,
              if existing.Some? then existing.value.raw else None)];
          } else {
            sources := sources[key := SourceRow(Of(content, config), |pieces|, Complete, Some(content))];
          }
          outcome := Ingested(|pieces|, false);
        }
      }
    }
  }

  /**
   * A call whose session had loaded the row before another call replaced the content matches the row it remembers: it
   * answers that its content is stored when the other content is.
   */
  lemma RememberedRowSkips<C(!new)>(split: Splitter<C>, key: Key, mine: string, other: string, config: Config)
    returns (run: seq<Label>, s: State<C>)
    requires config.size >= 1 && mine != other
    ensures Leads(split, Initial(), run, s) && InPhase(s, 1, Checked) && s.txs[1].content == mine && s.txs[1].key == key
    ensures Matches(s.txs[1]) && !StoresContent(split, s.db, key, mine, config)
    ensures StoresContent(split, s.db, key, other, config)
  {
    EveryRunIsConsistent(split, []);
    var first := ReplaceRun(split, Initial(), key, mine, config);
    RunKeeps(split, Initial(), first);
    run, s := first, After(split, Initial(), first);
    run, s := Step(split, Initial(), run, s, Begin(1, key, mine, config, true));
    RunKeeps(split, Initial(), run);
    var replace := ReplaceRun(split, s, key, other, config);
    run, s := RunConcat(split, Initial(), run, s, replace);
    run, s := Step(split, Initial(), run, s, Lock(1));
    run, s := Step(split, Initial(), run, s, Check(1));
  }

  /** The splitter the system stores with: the whole chunking pipeline. */
  function SplitContent(content: string, config: Config): seq<Packing.Chunk> {
    if config.size >= 1 then Chunker.Chunks(content, config.size, config.overlap) else []
  }

  /** In every run, a committed row is the chunk its source's content has at the row's position, and says so itself. */
  lemma RowsAreTheirChunks(run: seq<Label>, id: nat)
    requires IsRun(SplitContent, Initial(), run) && id in After(SplitContent, Initial(), run).db.chunks
    ensures var db := After(SplitContent, Initial(), run).db;
            var row := db.chunks[id];
            row.key in db.sources && db.sources[row.key].digest.Of? &&
            var chunks := SplitContent(db.sources[row.key].digest.content, db.sources[row.key].digest.config);
            row.position < |chunks| && row.chunk == chunks[row.position] && row.chunk.position == row.position
  {
    EveryRunIsConsistent(SplitContent, run);
    var db := After(SplitContent, Initial(), run).db;
    assert ConsistentAt(SplitContent, db, db.chunks[id].key);
    assert Holds(db.chunks[id], ChunksOf(SplitContent, db.sources[db.chunks[id].key].digest));
  }
}
