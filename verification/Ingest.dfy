/**
 * The replace-chunks protocol as a labelled transition system: ingest transactions, queue and status upserts, and
 * source deletions over a committed database, any of them interleaved statement by statement and rolled back anywhere.
 */
module Ingest {
  import opened Basics

  /** A stored source is keyed by its model and its identifier. */
  datatype Key = Key(model: int, source: string)

  /** The model settings that enter the content hash. */
  datatype Config = Config(size: nat, overlap: int, embedding: string)

  /** The content hash, taken to be injective; a queued source that was never ingested has the blank one. */
  datatype Digest = Blank | Of(content: string, config: Config)

  datatype Status = Pending | Crawling | Complete | Failed

  datatype SourceRow = SourceRow(digest: Digest, count: nat, status: Status, raw: Option<string>)

  datatype ChunkRow<C> = ChunkRow(key: Key, position: nat, chunk: C)

  /** How content is chunked; the position of a chunk is its index. */
  type Splitter<C> = (string, Config) -> seq<C>

  datatype Db<C> = Db(sources: map<Key, SourceRow>, chunks: map<nat, ChunkRow<C>>)

  datatype Phase = Begun | Locked | Checked | Cleared | Stored | Recorded

  /**
   * An open transaction. An ingest carries what its session had loaded before (`cached`), what its check read
   * (`existing`), the chunk rows it has deleted and inserted, and its pending source row. An upsert transaction carries
   * pending source rows only.
   */
  datatype Tx<C> =
    | Ingesting(key: Key, content: string, config: Config, phase: Phase, cached: Option<SourceRow>,
                existing: Option<SourceRow>, deleted: set<nat>, inserted: map<nat, ChunkRow<C>>, row: Option<SourceRow>)
    | Upserting(rows: map<Key, SourceRow>)

  datatype State<C> = State(db: Db<C>, txs: map<nat, Tx<C>>, nextId: nat)

  datatype Label =
    | Begin(t: nat, key: Key, content: string, config: Config, preload: bool)
    | Lock(t: nat)
    | Check(t: nat)
    | Skip(t: nat)
    | Clear(t: nat)
    | Store(t: nat)
    | Record(t: nat)
    | Upsert(t: nat, key: Key, status: Status, raw: Option<string>)
    | SetStatus(t: nat, key: Key, status: Status)
    | Commit(t: nat)
    | Rollback(t: nat)
    | Delete(key: Key)

  // ---- Statements -----------------------------------------------------------------

  function Lookup(db: Db, key: Key): Option<SourceRow> {
    if key in db.sources then Some(db.sources[key]) else None
  }

  function RowsOf<C>(chunks: map<nat, ChunkRow<C>>, key: Key): set<nat> {
    set id | id in chunks && chunks[id].key == key
  }

  /** The row an ingest upserts: the whole new row, or on an empty result everything but what a conflict keeps. */
  function UpsertedRow(split: Splitter, tx: Tx, committed: Option<SourceRow>): SourceRow
    requires tx.Ingesting?
  {
    var digest, n := Of(tx.content, tx.config), |split(tx.content, tx.config)|;
    if n > 0 then SourceRow(digest, n, Complete, Some(tx.content))
    else SourceRow(digest, 0, Failed, if committed.Some? then committed.value.raw else None)
  }

  /** What a queue statement does to a source row: only the status, and the text when one is supplied. */
  function QueuedRow(view: Option<SourceRow>, status: Status, raw: Option<string>): SourceRow {
    if view.None? then SourceRow(Blank, 0, status, raw)
    else view.value.(status := status, raw := if raw.Some? then raw else view.value.raw)
  }

  /** The chunk rows an ingest inserts, with fresh consecutive ids. */
  function NewRows<C>(key: Key, chunks: seq<C>, nextId: nat): map<nat, ChunkRow<C>> {
    if |chunks| == 0 then map[] else
      var last := |chunks| - 1;
      NewRows(key, chunks[..last], nextId)[nextId + last := ChunkRow(key, last, chunks[last])]
  }

  /** A transaction's pending source rows. */
  function Writes(tx: Tx): map<Key, SourceRow> {
    match tx
    case Upserting(rows) => rows
    case Ingesting(key, _, _, _, _, _, _, _, row) => if row.Some? then map[key := row.value] else map[]
  }

  /** Another transaction holds the row lock of this key. */
  predicate RowLocked(s: State, t: nat, key: Key) {
    exists u :: u in s.txs && u != t && key in Writes(s.txs[u])
  }

  predicate HoldsLock(tx: Tx, key: Key) { tx.Ingesting? && tx.key == key && tx.phase != Begun }

  predicate AdvisoryLocked(s: State, key: Key) {
    exists u :: u in s.txs && HoldsLock(s.txs[u], key)
  }

  predicate Matches(tx: Tx)
    requires tx.Ingesting?
  {
    tx.existing.Some? && tx.existing.value.digest == Of(tx.content, tx.config)
  }

  predicate InPhase(s: State, t: nat, phase: Phase) {
    t in s.txs && s.txs[t].Ingesting? && s.txs[t].phase == phase
  }

  predicate InFlight(s: State, key: Key) {
    exists u :: u in s.txs && ((s.txs[u].Ingesting? && s.txs[u].key == key) || key in Writes(s.txs[u]))
  }

  /** When a statement can run: waiting for a lock is not being enabled yet. */
  predicate Enabled(s: State, l: Label) {
    match l
    case Begin(t, _, _, config, _) => t !in s.txs && config.size >= 1
    case Lock(t) => InPhase(s, t, Begun) && !AdvisoryLocked(s, s.txs[t].key)
    case Check(t) => InPhase(s, t, Locked)
    case Skip(t) => InPhase(s, t, Checked) && Matches(s.txs[t]) && s.txs[t].existing.value.status != Complete
                    && s.txs[t].key in s.db.sources && !RowLocked(s, t, s.txs[t].key)
    case Clear(t) => InPhase(s, t, Checked) && !Matches(s.txs[t])
    case Store(t) => InPhase(s, t, Cleared)
    case Record(t) => InPhase(s, t, Stored) && !RowLocked(s, t, s.txs[t].key)
    case Upsert(t, key, _, _) => (t in s.txs ==> s.txs[t].Upserting?) && !RowLocked(s, t, key)
    case SetStatus(t, key, _) => (t in s.txs ==> s.txs[t].Upserting?) && key in s.db.sources && !RowLocked(s, t, key)
    case Commit(t) => t in s.txs && (s.txs[t].Ingesting? ==> s.txs[t].phase == Recorded)
    case Rollback(t) => t in s.txs
    case Delete(key) => !InFlight(s, key)
  }

  /** The source row as transaction t sees it: its own pending one, else the committed one. */
  function View(s: State, t: nat, key: Key): Option<SourceRow> {
    if t in s.txs && key in Writes(s.txs[t]) then Some(Writes(s.txs[t])[key]) else Lookup(s.db, key)
  }

  function Update<C>(s: State<C>, t: nat, tx: Tx<C>): State<C> { s.(txs := s.txs[t := tx]) }

  function Queue<C>(s: State<C>, t: nat, key: Key, row: SourceRow): State<C> {
    var rows := if t in s.txs && s.txs[t].Upserting? then s.txs[t].rows else map[];
    Update(s, t, Upserting(rows[key := row]))
  }

  function CommitDb<C>(db: Db<C>, tx: Tx<C>): Db<C> {
    Db(db.sources + Writes(tx), if tx.Ingesting? then (db.chunks - tx.deleted) + tx.inserted else db.chunks)
  }

  function Apply<C>(split: Splitter<C>, s: State<C>, l: Label): State<C>
    requires Enabled(s, l)
  {
    match l
    case Begin(t, key, content, config, preload) =>
      Update(s, t, Ingesting(key, content, config, Begun,
                             if preload then Lookup(s.db, key) else None, None, {}, map[], None))
    case Lock(t) => Update(s, t, s.txs[t].(phase := Locked))
    case Check(t) =>
      var tx := s.txs[t];
      Update(s, t, tx.(phase := Checked, existing := if tx.cached.Some? then tx.cached else Lookup(s.db, tx.key)))
    case Skip(t) =>
      var tx := s.txs[t];
      Update(s, t, tx.(phase := Recorded, row := Some(s.db.sources[tx.key].(status := Complete))))
    case Clear(t) =>
      var tx := s.txs[t];
      Update(s, t, tx.(phase := Cleared, deleted := if tx.existing.Some? then RowsOf(s.db.chunks, tx.key) else {}))
    case Store(t) =>
      var tx := s.txs[t];
      var chunks := split(tx.content, tx.config);
      Update(s, t, tx.(phase := Stored, inserted := NewRows(tx.key, chunks, s.nextId))).(nextId := s.nextId + |chunks|)
    case Record(t) =>
      var tx := s.txs[t];
      Update(s, t, tx.(phase := Recorded, row := Some(UpsertedRow(split, tx, Lookup(s.db, tx.key)))))
    case Upsert(t, key, status, raw) => Queue(s, t, key, QueuedRow(View(s, t, key), status, raw))
    case SetStatus(t, key, status) => Queue(s, t, key, QueuedRow(View(s, t, key), status, None))
    case Commit(t) => State(CommitDb(s.db, s.txs[t]), s.txs - {t}, s.nextId)
    case Rollback(t) => s.(txs := s.txs - {t})
    case Delete(key) => s.(db := Db(s.db.sources - {key}, s.db.chunks - RowsOf(s.db.chunks, key)))
  }

  // ---- The invariant -------------------------------------------------------------------

  function ChunksOf<C>(split: Splitter<C>, digest: Digest): seq<C> {
    if digest.Blank? then [] else split(digest.content, digest.config)
  }

  /** Row id holds the chunk of `content` at the row's position. */
  predicate Holds<C(==)>(row: ChunkRow<C>, content: seq<C>) {
    row.position < |content| && row.chunk == content[row.position]
  }

  predicate AtPosition<C>(chunks: map<nat, ChunkRow<C>>, key: Key, id: nat, p: nat) {
    id in chunks && chunks[id].key == key && chunks[id].position == p
  }

  predicate Filled<C>(chunks: map<nat, ChunkRow<C>>, key: Key, p: nat) {
    exists id :: id in chunks && AtPosition(chunks, key, id, p)
  }

  /** The rows of `key` are exactly the chunks of `content`: one row for each position, and no other. */
  ghost predicate Exactly<C(!new)>(chunks: map<nat, ChunkRow<C>>, key: Key, content: seq<C>) {
    && (forall id :: id in chunks && chunks[id].key == key ==> Holds(chunks[id], content))
    && (forall p: nat :: p < |content| ==> Filled(chunks, key, p))
    && (forall i, j | i in chunks && j in chunks && chunks[i].key == chunks[j].key == key ::
          chunks[i].position == chunks[j].position ==> i == j)
  }

  /** Every committed source row has exactly the chunks behind its stored hash; a key without a row has none. */
  ghost predicate Consistent<C(!new)>(split: Splitter<C>, db: Db<C>) {
    forall key :: ConsistentAt(split, db, key)
  }

  ghost predicate ConsistentAt<C(!new)>(split: Splitter<C>, db: Db<C>, key: Key) {
    && Exactly(db.chunks, key, if key in db.sources then ChunksOf(split, db.sources[key].digest) else [])
    && (key in db.sources ==> db.sources[key].count == |ChunksOf(split, db.sources[key].digest)|)
  }

  /** A pending row that changes neither hash nor count; a new one is blank. */
  predicate Preserves(db: Db, key: Key, row: SourceRow) {
    if key in db.sources then row.digest == db.sources[key].digest && row.count == db.sources[key].count
    else row.digest == Blank && row.count == 0
  }

  /** What an ingest transaction knows of the committed database while it holds its locks. */
  ghost predicate IngestOk<C(!new)>(split: Splitter<C>, db: Db<C>, tx: Tx<C>)
    requires tx.Ingesting?
  {
    var rows := RowsOf(db.chunks, tx.key);
    && (tx.cached.Some? ==> tx.key in db.sources)
    && (tx.phase in {Begun, Locked} ==> tx.deleted == {})
    && (tx.phase == Checked ==> CheckedOk(db, tx))
    && (tx.phase in {Cleared, Stored} ==> tx.deleted == rows)
    && (tx.phase == Stored ==> Exactly(tx.inserted, tx.key, split(tx.content, tx.config)) && Only(tx.inserted, tx.key))
    && (tx.phase !in {Stored, Recorded} ==> tx.inserted == map[])
    && (tx.row.Some? <==> tx.phase == Recorded)
    && (tx.phase == Recorded ==> RecordedOk(split, db, tx))
  }

  /** What the check read: the current hash unless the session had loaded the row before; and no row means no chunks. */
  ghost predicate CheckedOk<C>(db: Db<C>, tx: Tx<C>)
    requires tx.Ingesting?
  {
    && tx.deleted == {}
    && (tx.cached.Some? ==> tx.existing == tx.cached)
    && (tx.existing.Some? ==> tx.key in db.sources)
    && (tx.existing.Some? && tx.cached.None? ==> db.sources[tx.key].digest == tx.existing.value.digest)
    && (tx.existing.None? ==>
          RowsOf(db.chunks, tx.key) == {} && (tx.key in db.sources ==> db.sources[tx.key].digest == Blank))
  }

  ghost predicate RecordedOk<C(!new)>(split: Splitter<C>, db: Db<C>, tx: Tx<C>)
    requires tx.Ingesting? && tx.row.Some?
  {
    var content := split(tx.content, tx.config);
    || (tx.deleted == {} && tx.inserted == map[] && Preserves(db, tx.key, tx.row.value)
        && (tx.cached.None? ==> tx.row.value.digest == Of(tx.content, tx.config)))
    || (tx.deleted == RowsOf(db.chunks, tx.key) && Exactly(tx.inserted, tx.key, content) && Only(tx.inserted, tx.key)
        && tx.row.value.digest == Of(tx.content, tx.config) && tx.row.value.count == |content|)
  }

  predicate Only<C>(chunks: map<nat, ChunkRow<C>>, key: Key) {
    forall id :: id in chunks ==> chunks[id].key == key
  }

  ghost predicate TxOk<C(!new)>(split: Splitter<C>, db: Db<C>, tx: Tx<C>) {
    match tx
    case Upserting(rows) => forall key :: key in rows ==> Preserves(db, key, rows[key])
    case Ingesting(_, _, _, _, _, _, _, _, _) => IngestOk(split, db, tx)
  }

  /** No two transactions hold the same advisory lock or the same row lock, or insert under the same id. */
  ghost predicate Apart<C>(a: Tx<C>, b: Tx<C>) {
    && (a.Ingesting? && b.Ingesting? && a.phase != Begun && b.phase != Begun ==> a.key != b.key)
    && Writes(a).Keys !! Writes(b).Keys
    && (a.Ingesting? && b.Ingesting? ==> a.inserted.Keys !! b.inserted.Keys)
  }

  /** Ids come from the sequence, and a pending insert takes none that is in use. */
  ghost predicate IdsOk<C>(db: Db<C>, nextId: nat, tx: Tx<C>) {
    tx.Ingesting? ==> (forall id :: id in tx.inserted ==> id < nextId && id !in db.chunks)
  }

  ghost predicate Inv<C(!new)>(split: Splitter<C>, s: State<C>) {
    && Consistent(split, s.db)
    && (forall id :: id in s.db.chunks ==> id < s.nextId)
    && (forall t :: t in s.txs ==> TxOk(split, s.db, s.txs[t]) && IdsOk(s.db, s.nextId, s.txs[t]))
    && (forall t, u :: t in s.txs && u in s.txs && t != u ==> Apart(s.txs[t], s.txs[u]))
  }
}
