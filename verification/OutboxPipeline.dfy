/** Writers that commit business data with their events, relays that claim and publish the events, and the database
    between them: every interleaving, with a rollback, crash or failed commit possible at any step. The database's part
    is assumed to be atomic commits, row locks held to the end of a transaction, a unique primary key, and a locking
    read that skips locked rows. */
module PipelineModel {
  import opened Wrappers
  import opened OutboxRecords
  import opened SqlStore

  type Id = nat
  type Tx = nat

  /** What a relay is made with; each may have its own. */
  datatype Config = Config(batchSize: nat, maxAttempts: Option<int>)

  /** A unit of work in progress: its writes, its registered events, and how many of these are inserted already. */
  datatype Writer = Writer(writes: seq<string>, events: seq<Record>, flushed: nat)

  /** A relay batch in progress. The next record to publish is the first fetched one with no outcome yet. */
  datatype Batch = Batch(config: Config, fetched: seq<Id>, published: seq<Id>, failed: seq<Id>, stage: Stage) {
    function Done(): nat { |published| + |failed| }
  }

  datatype Stage = Claimed | Publishing | Marked(now: int) | Counted(now: int)

  datatype World = World(
    business: seq<string>,     // committed writes
    rows: Rows,                // committed outbox table
    writers: map<Tx, Writer>,
    reserved: map<Id, Tx>,     // primary keys of uncommitted inserts
    relays: map<Tx, Batch>,
    locks: map<Id, Tx>,        // row locks taken by fetches
    broker: seq<Id>,           // successful publishes
    failures: seq<Id>,         // failed publishes
    aborts: seq<Batch>,        // batches that did not commit
    ledger: seq<Writer>        // writers that committed
  )

  const START := World([], map[], map[], map[], map[], map[], [], [], [], [])

  datatype Event =
    | Begin(tx: Tx)
    | Write(tx: Tx, row: string)
    | Register(tx: Tx, id: Id, payload: string, at: int)
    | Flush(tx: Tx)                        // one insert of the events being persisted
    | Commit(tx: Tx)
    | Rollback(tx: Tx)                     // or a crash, a failed insert, a failed commit
    | Claim(tx: Tx, config: Config)
    | Fetch(tx: Tx, records: seq<Record>)
    | PublishOk(tx: Tx)
    | PublishFail(tx: Tx)
    | Mark(tx: Tx, now: int)
    | RecordFailed(tx: Tx)
    | CommitBatch(tx: Tx)
    | Abort(tx: Tx)                        // a crash or an error at any stage

  function Unlocked(w: World): Rows { w.rows - w.locks.Keys }

  predicate Enabled(w: World, e: Event) {
    match e
    case Begin(tx) => tx !in w.writers && tx !in w.relays
    case Write(tx, _) => tx in w.writers && w.writers[tx].flushed == 0
    case Register(tx, _, _, _) => tx in w.writers && w.writers[tx].flushed == 0
    case Flush(tx) =>
      tx in w.writers && w.writers[tx].flushed < |w.writers[tx].events| &&
      var id := w.writers[tx].events[w.writers[tx].flushed].id;
      id !in w.rows && id !in w.reserved
    case Commit(tx) => tx in w.writers && w.writers[tx].flushed == |w.writers[tx].events|
    case Rollback(tx) => tx in w.writers
    case Claim(tx, config) =>
      tx !in w.writers && tx !in w.relays && ValidFetch(config.batchSize, config.maxAttempts)
    case Fetch(tx, records) =>
      tx in w.relays && w.relays[tx].stage.Claimed? &&
      var c := w.relays[tx].config;
      Ordered(Filtered(Unlocked(w), c.maxAttempts), c.batchSize, records)
    case PublishOk(tx) => Pending(w, tx)
    case PublishFail(tx) => Pending(w, tx)
    case Mark(tx, _) => tx in w.relays && w.relays[tx].stage.Publishing? && w.relays[tx].Done() == |w.relays[tx].fetched|
    case RecordFailed(tx) => tx in w.relays && w.relays[tx].stage.Marked? && w.relays[tx].failed != []
    case CommitBatch(tx) => tx in w.relays &&
      (w.relays[tx].stage.Counted? || (w.relays[tx].stage.Marked? && w.relays[tx].failed == []))
    case Abort(tx) => tx in w.relays
  }

  /** The batch has a record whose publish is still to be tried. */
  predicate Pending(w: World, tx: Tx) {
    tx in w.relays && w.relays[tx].stage.Publishing? && w.relays[tx].Done() < |w.relays[tx].fetched|
  }

  /** The entries of `m` that do not belong to `tx`. */
  function Released(m: map<Id, Tx>, tx: Tx): map<Id, Tx> {
    map id | id in m && m[id] != tx :: m[id]
  }

  /** `m` with `ids` given to `tx`. */
  function Taken(m: map<Id, Tx>, ids: seq<Id>, tx: Tx): map<Id, Tx> {
    map id | id in m.Keys + (set x | x in ids) :: if id in ids then tx else m[id]
  }

  function Added(rows: Rows, records: seq<Record>): Rows {
    if records == [] then rows else
    var last := records[|records| - 1];
    Added(rows, records[..|records| - 1])[last.id := last]
  }

  function WithBatch(w: World, tx: Tx, b: Batch): World { w.(relays := w.relays[tx := b]) }

  /** The batch's updates as its commit makes them visible. */
  function Settled(rows: Rows, b: Batch): Rows
    requires b.stage.Marked? || b.stage.Counted?
  {
    CountFailed(SqlStore.Mark(rows, b.published, b.stage.now), b.failed)
  }

  function Apply(w: World, e: Event): World
    requires Enabled(w, e)
  {
    match e
    case Begin(tx) => w.(writers := w.writers[tx := Writer([], [], 0)])
    case Write(tx, row) =>
      var u := w.writers[tx];
      w.(writers := w.writers[tx := u.(writes := u.writes + [row])])
    case Register(tx, id, payload, at) =>
      var u := w.writers[tx];
      w.(writers := w.writers[tx := u.(events := u.events + [Record(id, payload, at, None, 0)])])
    case Flush(tx) =>
      var u := w.writers[tx];
      w.(writers := w.writers[tx := u.(flushed := u.flushed + 1)], reserved := w.reserved[u.events[u.flushed].id := tx])
    case Commit(tx) =>
      var u := w.writers[tx];
      w.(writers := w.writers - {tx}, reserved := Released(w.reserved, tx), business := w.business + u.writes,
         rows := Added(w.rows, u.events), ledger := w.ledger + [u])
    case Rollback(tx) => w.(writers := w.writers - {tx}, reserved := Released(w.reserved, tx))
    case Claim(tx, config) => WithBatch(w, tx, Batch(config, [], [], [], Claimed))
    case Fetch(tx, records) =>
      WithBatch(w, tx, Batch(w.relays[tx].config, Ids(records), [], [], Publishing)).(locks := Taken(w.locks, Ids(records), tx))
    case PublishOk(tx) =>
      var b := w.relays[tx];
      var id := b.fetched[b.Done()];
      WithBatch(w, tx, b.(published := b.published + [id])).(broker := w.broker + [id])
    case PublishFail(tx) =>
      var b := w.relays[tx];
      var id := b.fetched[b.Done()];
      WithBatch(w, tx, b.(failed := b.failed + [id])).(failures := w.failures + [id])
    case Mark(tx, now) => WithBatch(w, tx, w.relays[tx].(stage := Marked(now)))
    case RecordFailed(tx) => WithBatch(w, tx, w.relays[tx].(stage := Counted(w.relays[tx].stage.now)))
    case CommitBatch(tx) =>
      w.(relays := w.relays - {tx}, locks := Released(w.locks, tx), rows := Settled(w.rows, w.relays[tx]))
    case Abort(tx) =>
      w.(relays := w.relays - {tx}, locks := Released(w.locks, tx), aborts := w.aborts + [w.relays[tx]])
  }

  /** `trace` can happen from the empty database. */
  ghost predicate Valid(trace: seq<Event>)
    decreases |trace|, 0
  {
    trace == [] ||
    (Valid(trace[..|trace| - 1]) && Enabled(Run(trace[..|trace| - 1]), trace[|trace| - 1]))
  }

  ghost function Run(trace: seq<Event>): World
    requires Valid(trace)
    decreases |trace|, 1
  {
    if trace == [] then START else Apply(Run(trace[..|trace| - 1]), trace[|trace| - 1])
  }
}

/** What every run keeps. */
module OutboxPipeline {
  import opened Wrappers
  import opened OutboxRecords
  import opened SqlStore
  import opened PipelineModel

  // ---------------------------------------------------------------- invariants

  /** Each record fetched is tried at most once, in order. */
  ghost predicate BatchInv(b: Batch) {
    && NoRepeats(b.fetched)
    && b.Done() <= |b.fetched|
    && multiset(b.published) + multiset(b.failed) == multiset(b.fetched[..b.Done()])
    && (b.stage.Claimed? ==> b.fetched == [])
  }

  /** `tx` holds the lock of exactly the rows its batch fetched. */
  ghost predicate Owns(w: World, tx: Tx)
    requires tx in w.relays
  {
    forall id :: id in w.relays[tx].fetched <==> id in w.locks && w.locks[id] == tx
  }

  predicate LockedRow(w: World, id: Id)
    requires id in w.locks
  {
    w.locks[id] in w.relays && id in w.rows && Eligible(w.rows[id], w.relays[w.locks[id]].config.maxAttempts)
  }

  ghost predicate LocksInv(w: World) {
    && (forall tx :: tx in w.relays ==> BatchInv(w.relays[tx]) && Owns(w, tx))
    && (forall id :: id in w.locks ==> LockedRow(w, id))
  }

  predicate Fresh(r: Record) { r.publishedAt.None? && r.attempts == 0 }

  /** `tx` holds the keys of exactly the events it has inserted. */
  ghost predicate Reserves(w: World, tx: Tx)
    requires tx in w.writers
  {
    var u := w.writers[tx];
    && u.flushed <= |u.events|
    && (forall i :: 0 <= i < |u.events| ==> Fresh(u.events[i]))
    && NoRepeats(Ids(u.events[..u.flushed]))
    && (forall id :: id in Ids(u.events[..u.flushed]) <==> id in w.reserved && w.reserved[id] == tx)
  }

  ghost predicate WritersInv(w: World) {
    && (forall tx :: tx in w.writers ==> Reserves(w, tx))
    && (forall id :: id in w.reserved ==> id !in w.rows && w.reserved[id] in w.writers)
  }

  function Writes(ledger: seq<Writer>): seq<string> {
    if ledger == [] then [] else Writes(ledger[..|ledger| - 1]) + ledger[|ledger| - 1].writes
  }

  function Events(ledger: seq<Writer>): seq<Record> {
    if ledger == [] then [] else Events(ledger[..|ledger| - 1]) + ledger[|ledger| - 1].events
  }

  predicate KeptAs(rows: Rows, r: Record) {
    r.id in rows && rows[r.id].(publishedAt := None, attempts := 0) == r
  }

  /** The committed data is what the committed writers wrote: every write, and one row for each event. */
  ghost predicate LedgerInv(w: World) {
    && w.business == Writes(w.ledger)
    && NoRepeats(Ids(Events(w.ledger)))
    && (forall id :: id in w.rows ==> id in Ids(Events(w.ledger)))
    && (forall i :: 0 <= i < |Events(w.ledger)| ==> KeptAs(w.rows, Events(w.ledger)[i]))
  }

  predicate Bounded(largest: Option<int>, rows: Rows) {
    largest.Some? ==> forall id :: id in rows ==> rows[id].attempts <= largest.value
  }

  ghost predicate Inv(w: World) {
    Keyed(w.rows) && LocksInv(w) && WritersInv(w) && LedgerInv(w)
  }

  // ---------------------------------------------------------------- maps and batches

  lemma {:induction false} AddedKeys(rows: Rows, records: seq<Record>)
    ensures forall id :: id in Added(rows, records) <==> id in rows || id in Ids(records)
    ensures forall id :: id in rows && id !in Ids(records) ==> Added(rows, records)[id] == rows[id]
  {
    if records != [] {
      var n := |records| - 1;
      AddedKeys(rows, records[..n]);
      assert Ids(records) == Ids(records[..n]) + [records[n].id];
    }
  }

  lemma {:induction false} AddedAt(rows: Rows, records: seq<Record>, i: nat)
    requires NoRepeats(Ids(records)) && i < |records|
    ensures records[i].id in Added(rows, records) && Added(rows, records)[records[i].id] == records[i]
  {
    var n := |records| - 1;
    assert Ids(records)[i] == records[i].id && Ids(records)[n] == records[n].id;
    if i < n {
      assert Ids(records[..n]) == Ids(records)[..n];
      AddedAt(rows, records[..n], i);
    }
  }

  /** A record has at most one outcome, and only if it was fetched. */
  lemma {:induction false} OneOutcome(b: Batch, id: Id)
    requires BatchInv(b)
    ensures multiset(b.published)[id] + multiset(b.failed)[id] <= 1
    ensures multiset(b.published)[id] + multiset(b.failed)[id] == 1 ==> id in b.fetched
    ensures id in b.published <==> multiset(b.published)[id] == 1
    ensures id in b.failed <==> multiset(b.failed)[id] == 1
  {
    NoRepeatsCount(b.fetched[..b.Done()], id);
    assert (multiset(b.published) + multiset(b.failed))[id] == multiset(b.fetched[..b.Done()])[id];
  }

  // ---------------------------------------------------------------- what each step keeps

  lemma {:induction false} ClaimKeepsLocks(w: World, tx: Tx, config: Config)
    requires LocksInv(w) && Enabled(w, Claim(tx, config))
    ensures LocksInv(Apply(w, Claim(tx, config)))
  {
    var v := Apply(w, Claim(tx, config));
    assert forall id :: id in w.locks ==> LockedRow(w, id);
    forall t | t in v.relays ensures BatchInv(v.relays[t]) && Owns(v, t) {
      if t != tx {
        assert BatchInv(w.relays[t]) && Owns(w, t);
      }
    }
    forall id | id in v.locks ensures LockedRow(v, id) {
      assert LockedRow(w, id);
    }
  }

  /** What a fetch returns are distinct committed rows, eligible and locked by nobody. */
  lemma {:induction false} FetchedRows(w: World, tx: Tx, records: seq<Record>)
    requires Inv(w) && Enabled(w, Fetch(tx, records))
    ensures NoRepeats(Ids(records))
    ensures forall id :: id in Ids(records) ==> id in w.rows && id !in w.locks
    ensures forall id :: id in Ids(records) ==> Eligible(w.rows[id], w.relays[tx].config.maxAttempts)
  {
    forall i | 0 <= i < |records|
      ensures records[i].id in w.rows && w.rows[records[i].id] == records[i] && records[i].id !in w.locks
      ensures Eligible(records[i], w.relays[tx].config.maxAttempts)
    {
      assert records[i] in records;
      var id :| id in Unlocked(w) && Eligible(Unlocked(w)[id], w.relays[tx].config.maxAttempts) && Unlocked(w)[id] == records[i];
      assert w.rows[id].id == id;
    }
  }

  lemma {:induction false} FetchKeepsLocks(w: World, tx: Tx, records: seq<Record>)
    requires Inv(w) && Enabled(w, Fetch(tx, records))
    ensures LocksInv(Apply(w, Fetch(tx, records)))
  {
    var v := Apply(w, Fetch(tx, records));
    FetchedRows(w, tx, records);
    assert Owns(w, tx);
    forall t | t in v.relays ensures BatchInv(v.relays[t]) && Owns(v, t) {
      assert t in w.relays && BatchInv(w.relays[t]) && Owns(w, t);
    }
    forall id | id in v.locks ensures LockedRow(v, id) {
      assert id in w.locks ==> LockedRow(w, id);
    }
  }

  /** A batch replaced by one with the same records. */
  lemma {:induction false} SameRecordsKeepLocks(w: World, tx: Tx, b: Batch)
    requires LocksInv(w) && tx in w.relays && b.fetched == w.relays[tx].fetched && b.config == w.relays[tx].config && BatchInv(b)
    ensures LocksInv(WithBatch(w, tx, b))
  {
  }

  lemma {:induction false} NextOutcome(b: Batch, id: Id)
    requires BatchInv(b) && b.stage.Publishing? && b.Done() < |b.fetched| && id == b.fetched[b.Done()]
    ensures BatchInv(b.(published := b.published + [id])) && BatchInv(b.(failed := b.failed + [id]))
    ensures id !in b.published && id !in b.failed
  {
    var n := b.Done();
    assert b.fetched[..n + 1] == b.fetched[..n] + [id];
    assert id !in b.fetched[..n];
    NoRepeatsCount(b.fetched[..n], id);
    assert (multiset(b.published) + multiset(b.failed))[id] == 0;
  }

  /** A finished batch gives its locks back; rows it did not hold must be as they were. */
  lemma {:induction false} ReleaseKeepsLocks(w: World, tx: Tx, v: World)
    requires LocksInv(w) && tx in w.relays
    requires v.relays == w.relays - {tx} && v.locks == Released(w.locks, tx)
    requires forall id :: id in w.rows && id !in w.relays[tx].fetched ==> id in v.rows && v.rows[id] == w.rows[id]
    ensures LocksInv(v)
  {
    assert Owns(w, tx);
    forall t | t in v.relays ensures BatchInv(v.relays[t]) && Owns(v, t) {
      assert BatchInv(w.relays[t]) && Owns(w, t);
    }
    forall id | id in v.locks ensures LockedRow(v, id) {
      assert LockedRow(w, id);
    }
  }

  lemma {:induction false} SettledAt(rows: Rows, b: Batch, id: Id)
    requires BatchInv(b) && (b.stage.Marked? || b.stage.Counted?) && id in rows
    ensures id in Settled(rows, b)
    ensures Settled(rows, b)[id] ==
      if id in b.published then rows[id].(publishedAt := Some(b.stage.now))
      else if id in b.failed then rows[id].(attempts := rows[id].attempts + 1)
      else rows[id]
  {
    OneOutcome(b, id);
  }

  lemma {:induction false} CommitBatchKeepsLocks(w: World, tx: Tx)
    requires Inv(w) && Enabled(w, CommitBatch(tx))
    ensures LocksInv(Apply(w, CommitBatch(tx)))
  {
    var v := Apply(w, CommitBatch(tx));
    forall id | id in w.rows && id !in w.relays[tx].fetched ensures id in v.rows && v.rows[id] == w.rows[id] {
      SettledAt(w.rows, w.relays[tx], id);
      OneOutcome(w.relays[tx], id);
    }
    ReleaseKeepsLocks(w, tx, v);
  }

  lemma {:induction false} CommitKeepsLocks(w: World, tx: Tx)
    requires Inv(w) && Enabled(w, Commit(tx))
    ensures LocksInv(Apply(w, Commit(tx)))
  {
    var v, u := Apply(w, Commit(tx)), w.writers[tx];
    AddedKeys(w.rows, u.events);
    assert Reserves(w, tx) && u.events[..u.flushed] == u.events;
    forall t | t in v.relays ensures Owns(v, t) {
      assert Owns(w, t);
    }
    forall id | id in v.locks ensures LockedRow(v, id) {
      assert LockedRow(w, id);
    }
  }

  lemma {:induction false} PublishKeepsLocks(w: World, e: Event)
    requires LocksInv(w) && Enabled(w, e) && (e.PublishOk? || e.PublishFail?)
    ensures LocksInv(Apply(w, e))
  {
    var b, v := w.relays[e.tx], Apply(w, e);
    NextOutcome(b, b.fetched[b.Done()]);
    SameRecordsKeepLocks(w, e.tx, v.relays[e.tx]);
    SameLocks(WithBatch(w, e.tx, v.relays[e.tx]), v);
  }

  /** Steps that leave the committed data alone. */
  lemma {:induction false} DataStays(w: World, e: Event)
    requires Enabled(w, e) && !e.Commit? && !e.CommitBatch?
    ensures var v := Apply(w, e); v.rows == w.rows && v.business == w.business && v.ledger == w.ledger
  {
  }

  /** Steps of writers leave the relays alone, and conversely. */
  lemma {:induction false} OthersStay(w: World, e: Event)
    requires Enabled(w, e)
    ensures var v := Apply(w, e);
      if e.Begin? || e.Write? || e.Register? || e.Flush? || e.Commit? || e.Rollback? then
        v.relays == w.relays && v.locks == w.locks && v.broker == w.broker && v.failures == w.failures && v.aborts == w.aborts
      else v.writers == w.writers && v.reserved == w.reserved
  {
  }

  lemma {:induction false} LocksStep(w: World, e: Event)
    requires Inv(w) && Enabled(w, e)
    ensures LocksInv(Apply(w, e))
  {
    if e.Commit? {
      CommitKeepsLocks(w, e.tx);
    } else if e.Claim? {
      ClaimKeepsLocks(w, e.tx, e.config);
    } else if e.Fetch? {
      FetchKeepsLocks(w, e.tx, e.records);
    } else if e.PublishOk? || e.PublishFail? {
      PublishKeepsLocks(w, e);
    } else if e.Mark? || e.RecordFailed? {
      SameRecordsKeepLocks(w, e.tx, Apply(w, e).relays[e.tx]);
    } else if e.CommitBatch? {
      CommitBatchKeepsLocks(w, e.tx);
    } else if e.Abort? {
      DataStays(w, e);
      ReleaseKeepsLocks(w, e.tx, Apply(w, e));
    } else {
      DataStays(w, e);
      OthersStay(w, e);
      SameLocks(w, Apply(w, e));
    }
  }

  lemma {:induction false} SameLocks(w: World, v: World)
    requires LocksInv(w) && v.relays == w.relays && v.locks == w.locks && v.rows == w.rows
    ensures LocksInv(v)
  {
  }

  lemma {:induction false} FlushKeepsReserves(w: World, tx: Tx)
    requires WritersInv(w) && Enabled(w, Flush(tx))
    ensures WritersInv(Apply(w, Flush(tx)))
  {
    var v, u := Apply(w, Flush(tx)), w.writers[tx];
    var n := u.flushed;
    assert Reserves(w, tx);
    assert Ids(u.events[..n + 1]) == Ids(u.events[..n]) + [u.events[n].id];
    forall t | t in v.writers ensures Reserves(v, t) {
      assert Reserves(w, t);
    }
  }

  lemma {:induction false} OtherWritersKeepReserves(w: World, tx: Tx, v: World)
    requires WritersInv(w) && tx in w.writers
    requires v.writers == w.writers - {tx} && v.reserved == Released(w.reserved, tx)
    requires forall id :: id in v.rows ==> id in w.rows || (id in w.reserved && w.reserved[id] == tx)
    ensures WritersInv(v)
  {
    forall t | t in v.writers ensures Reserves(v, t) {
      assert Reserves(w, t);
    }
  }

  /** A writer that changed nothing it has inserted. */
  lemma {:induction false} SameInsertsKeepReserves(w: World, tx: Tx, u: Writer)
    requires WritersInv(w) && u.flushed <= |u.events| && forall i :: 0 <= i < |u.events| ==> Fresh(u.events[i])
    requires if tx in w.writers then u.events[..u.flushed] == w.writers[tx].events[..w.writers[tx].flushed] else u.flushed == 0
    requires tx in w.writers ==> w.writers[tx].flushed <= |w.writers[tx].events|
    ensures WritersInv(w.(writers := w.writers[tx := u]))
  {
    var v := w.(writers := w.writers[tx := u]);
    forall t | t in v.writers ensures Reserves(v, t) {
      assert t in w.writers ==> Reserves(w, t);
    }
  }

  lemma {:induction false} EditKeepsReserves(w: World, e: Event)
    requires WritersInv(w) && Enabled(w, e) && (e.Begin? || e.Write? || e.Register?)
    ensures WritersInv(Apply(w, e))
  {
    assert e.tx in w.writers ==> Reserves(w, e.tx);
    SameInsertsKeepReserves(w, e.tx, Apply(w, e).writers[e.tx]);
  }

  lemma {:induction false} CommitKeepsReserves(w: World, tx: Tx)
    requires WritersInv(w) && Enabled(w, Commit(tx))
    ensures WritersInv(Apply(w, Commit(tx)))
  {
    var u := w.writers[tx];
    assert Reserves(w, tx) && u.events[..u.flushed] == u.events;
    AddedKeys(w.rows, u.events);
    OtherWritersKeepReserves(w, tx, Apply(w, Commit(tx)));
  }

  lemma {:induction false} WritersStep(w: World, e: Event)
    requires Inv(w) && Enabled(w, e)
    ensures WritersInv(Apply(w, e))
  {
    if e.Begin? || e.Write? || e.Register? {
      EditKeepsReserves(w, e);
    } else if e.Flush? {
      FlushKeepsReserves(w, e.tx);
    } else if e.Commit? {
      CommitKeepsReserves(w, e.tx);
    } else if e.Rollback? {
      OtherWritersKeepReserves(w, e.tx, Apply(w, e));
    } else {
      RelaysKeepKeys(w, e);
      SameReserves(w, Apply(w, e));
    }
  }

  lemma {:induction false} RelaysKeepKeys(w: World, e: Event)
    requires Enabled(w, e) && !(e.Begin? || e.Write? || e.Register? || e.Flush? || e.Commit? || e.Rollback?)
    ensures var v := Apply(w, e); v.writers == w.writers && v.reserved == w.reserved && v.rows.Keys == w.rows.Keys
  {
  }

  lemma {:induction false} SameReserves(w: World, v: World)
    requires WritersInv(w) && v.writers == w.writers && v.reserved == w.reserved && v.rows.Keys == w.rows.Keys
    ensures WritersInv(v)
  {
  }

  /** The events of a committing writer are new to the table. */
  lemma {:induction false} CommittedEvents(w: World, tx: Tx)
    requires WritersInv(w) && Enabled(w, Commit(tx))
    ensures NewEvents(w.rows, w.writers[tx].events)
  {
    var u := w.writers[tx];
    assert Reserves(w, tx) && u.events[..u.flushed] == u.events;
  }

  ghost predicate NewEvents(rows: Rows, events: seq<Record>) {
    && NoRepeats(Ids(events))
    && (forall id :: id in Ids(events) ==> id !in rows)
    && (forall i :: 0 <= i < |events| ==> Fresh(events[i]))
  }

  lemma {:induction false} EventsKept(rows: Rows, before: seq<Record>, events: seq<Record>)
    requires NewEvents(rows, events) && forall i :: 0 <= i < |before| ==> KeptAs(rows, before[i])
    ensures forall i :: 0 <= i < |before + events| ==> KeptAs(Added(rows, events), (before + events)[i])
  {
    AddedKeys(rows, events);
    forall i | 0 <= i < |before + events| ensures KeptAs(Added(rows, events), (before + events)[i]) {
      if i < |before| {
        assert KeptAs(rows, before[i]);
      } else {
        assert Fresh(events[i - |before|]);
        AddedAt(rows, events, i - |before|);
      }
    }
  }

  lemma {:induction false} EventsDistinct(rows: Rows, before: seq<Record>, events: seq<Record>)
    requires NewEvents(rows, events) && forall i :: 0 <= i < |before| ==> KeptAs(rows, before[i])
    requires NoRepeats(Ids(before))
    ensures NoRepeats(Ids(before + events))
  {
    forall id | id in Ids(before) ensures id in rows {
      var i :| 0 <= i < |before| && Ids(before)[i] == id;
      assert KeptAs(rows, before[i]);
    }
    assert Ids(before + events) == Ids(before) + Ids(events);
  }

  lemma {:induction false} LedgerGrows(w: World, tx: Tx)
    requires Inv(w) && Enabled(w, Commit(tx))
    ensures LedgerInv(Apply(w, Commit(tx)))
  {
    var v, before, events := Apply(w, Commit(tx)), Events(w.ledger), w.writers[tx].events;
    assert v.ledger[..|w.ledger|] == w.ledger;
    CommittedEvents(w, tx);
    EventsKept(w.rows, before, events);
    EventsDistinct(w.rows, before, events);
    AddedKeys(w.rows, events);
    assert Ids(before + events) == Ids(before) + Ids(events);
  }

  lemma {:induction false} LedgerStays(w: World, v: World)
    requires LedgerInv(w) && v.business == w.business && v.ledger == w.ledger && v.rows.Keys == w.rows.Keys
    requires forall id :: id in w.rows ==> v.rows[id].(publishedAt := None, attempts := 0) == w.rows[id].(publishedAt := None, attempts := 0)
    ensures LedgerInv(v)
  {
  }

  lemma {:induction false} SettledKeepsLedger(w: World, tx: Tx)
    requires LocksInv(w) && LedgerInv(w) && Keyed(w.rows) && Enabled(w, CommitBatch(tx))
    ensures LedgerInv(Apply(w, CommitBatch(tx))) && Keyed(Apply(w, CommitBatch(tx)).rows)
  {
    var v := Apply(w, CommitBatch(tx));
    forall id | id in w.rows
      ensures v.rows[id].(publishedAt := None, attempts := 0) == w.rows[id].(publishedAt := None, attempts := 0)
    {
      SettledAt(w.rows, w.relays[tx], id);
    }
    LedgerStays(w, v);
  }

  lemma {:induction false} LedgerStep(w: World, e: Event)
    requires Inv(w) && Enabled(w, e)
    ensures LedgerInv(Apply(w, e)) && Keyed(Apply(w, e).rows)
  {
    if e.Commit? {
      LedgerGrows(w, e.tx);
      KeyedAdded(w.rows, w.writers[e.tx].events);
    } else if e.CommitBatch? {
      SettledKeepsLedger(w, e.tx);
    } else {
      DataStays(w, e);
      LedgerStays(w, Apply(w, e));
    }
  }

  lemma {:induction false} KeyedAdded(rows: Rows, records: seq<Record>)
    requires Keyed(rows)
    ensures Keyed(Added(rows, records))
  {
    if records != [] {
      KeyedAdded(rows, records[..|records| - 1]);
    }
  }

  lemma {:induction false} Reachable(trace: seq<Event>)
    requires Valid(trace)
    ensures Inv(Run(trace))
  {
    if trace != [] {
      var before, e := trace[..|trace| - 1], trace[|trace| - 1];
      Reachable(before);
      LocksStep(Run(before), e);
      WritersStep(Run(before), e);
      LedgerStep(Run(before), e);
    }
  }

  // ---------------------------------------------------------------- accounting of every publish

  function Outcomes(b: Batch, ok: bool): seq<Id> { if ok then b.published else b.failed }

  function Log(w: World, ok: bool): seq<Id> { if ok then w.broker else w.failures }

  /** What the committed table says of the outcomes of `id`. */
  function Booked(rows: Rows, id: Id, ok: bool): nat {
    if id !in rows then 0 else if !ok then rows[id].attempts else if rows[id].publishedAt.Some? then 1 else 0
  }

  /** What the batch in progress that holds `id` has still to book. */
  function InFlight(w: World, id: Id, ok: bool): nat {
    if id in w.locks && w.locks[id] in w.relays then multiset(Outcomes(w.relays[w.locks[id]], ok))[id] else 0
  }

  /** How many of the batches that did not commit had that outcome for `id`. */
  function Lost(aborts: seq<Batch>, id: Id, ok: bool): nat {
    if aborts == [] then 0
    else Lost(aborts[..|aborts| - 1], id, ok) + if id in Outcomes(aborts[|aborts| - 1], ok) then 1 else 0
  }

  ghost predicate Accounts(w: World, id: Id, ok: bool) {
    && multiset(Log(w, ok))[id] == Booked(w.rows, id, ok) + InFlight(w, id, ok) + Lost(w.aborts, id, ok)
    && (id !in w.rows ==> multiset(Log(w, ok))[id] == 0)
  }

  /** The invariants, as far as record `id` and batch `tx` go. */
  ghost predicate Around(w: World, tx: Tx, id: Id) {
    && (id in w.locks ==> LockedRow(w, id))
    && (tx in w.relays ==>
          var b := w.relays[tx];
          && (id in b.fetched <==> id in w.locks && w.locks[id] == tx)
          && multiset(b.published)[id] + multiset(b.failed)[id] <= if id in b.fetched then 1 else 0)
  }

  lemma {:induction false} InvAround(w: World, tx: Tx, id: Id)
    requires LocksInv(w)
    ensures Around(w, tx, id)
  {
    assert id in w.locks ==> LockedRow(w, id);
    if tx in w.relays {
      assert BatchInv(w.relays[tx]) && Owns(w, tx);
      OneOutcome(w.relays[tx], id);
    }
  }

  lemma {:induction false} CommitAccounts(w: World, tx: Tx, id: Id, ok: bool)
    requires WritersInv(w) && Around(w, tx, id) && Enabled(w, Commit(tx)) && Accounts(w, id, ok)
    ensures Accounts(Apply(w, Commit(tx)), id, ok)
  {
    AddedKeys(w.rows, w.writers[tx].events);
    if id in Apply(w, Commit(tx)).rows {
      CommitAdds(w, tx, id);
    }
  }

  lemma {:induction false} FetchAccounts(w: World, tx: Tx, records: seq<Record>, id: Id, ok: bool)
    requires Around(w, tx, id) && Enabled(w, Fetch(tx, records)) && Accounts(w, id, ok)
    requires w.relays[tx].fetched == [] && (id in Ids(records) ==> id !in w.locks)
    ensures Accounts(Apply(w, Fetch(tx, records)), id, ok)
  {
  }

  lemma {:induction false} CountGrows(ids: seq<Id>, last: Id, id: Id)
    ensures multiset(ids + [last])[id] == multiset(ids)[id] + if last == id then 1 else 0
  {
  }

  /** A batch replaced by one with other outcomes. */
  lemma {:induction false} ReplacedFlight(w: World, tx: Tx, b: Batch, id: Id, ok: bool)
    requires Around(w, tx, id) && tx in w.relays
    ensures InFlight(WithBatch(w, tx, b), id, ok) ==
      if id in w.relays[tx].fetched then multiset(Outcomes(b, ok))[id] else InFlight(w, id, ok)
    ensures id in w.relays[tx].fetched ==> id in w.rows && InFlight(w, id, ok) == multiset(Outcomes(w.relays[tx], ok))[id]
  {
  }

  /** Whether this publish is an outcome of that kind for `id`. */
  function Hit(w: World, e: Event, id: Id, ok: bool): nat
    requires (e.PublishOk? || e.PublishFail?) && Enabled(w, e)
  {
    var b := w.relays[e.tx];
    if ok == e.PublishOk? && b.fetched[b.Done()] == id then 1 else 0
  }

  lemma {:induction false} PublishLogged(w: World, e: Event, id: Id, ok: bool)
    requires (e.PublishOk? || e.PublishFail?) && Enabled(w, e)
    ensures multiset(Log(Apply(w, e), ok))[id] == multiset(Log(w, ok))[id] + Hit(w, e, id, ok)
    ensures var b := Apply(w, e).relays[e.tx];
      multiset(Outcomes(b, ok))[id] == multiset(Outcomes(w.relays[e.tx], ok))[id] + Hit(w, e, id, ok)
  {
    var b := w.relays[e.tx];
    CountGrows(Log(w, ok), b.fetched[b.Done()], id);
    CountGrows(Outcomes(b, ok), b.fetched[b.Done()], id);
  }

  lemma {:induction false} PublishAccounts(w: World, e: Event, id: Id, ok: bool)
    requires Around(w, e.tx, id) && (e.PublishOk? || e.PublishFail?) && Enabled(w, e) && Accounts(w, id, ok)
    ensures Accounts(Apply(w, e), id, ok)
  {
    var b, v := w.relays[e.tx], Apply(w, e);
    assert b.fetched[b.Done()] in b.fetched;
    PublishLogged(w, e, id, ok);
    ReplacedFlight(w, e.tx, v.relays[e.tx], id, ok);
    assert InFlight(v, id, ok) == InFlight(WithBatch(w, e.tx, v.relays[e.tx]), id, ok);
  }

  lemma {:induction false} LostGrows(aborts: seq<Batch>, b: Batch, id: Id, ok: bool)
    ensures Lost(aborts + [b], id, ok) == Lost(aborts, id, ok) + if id in Outcomes(b, ok) then 1 else 0
  {
    assert (aborts + [b])[..|aborts|] == aborts;
  }

  /** A batch that ends takes its outcomes out of flight. */
  lemma {:induction false} ReleasedFlight(w: World, tx: Tx, v: World, id: Id, ok: bool)
    requires Around(w, tx, id) && tx in w.relays && v.relays == w.relays - {tx} && v.locks == Released(w.locks, tx)
    ensures InFlight(w, id, ok) == InFlight(v, id, ok) + if id in Outcomes(w.relays[tx], ok) then 1 else 0
  {
    var b := w.relays[tx];
    assert id in b.published <==> multiset(b.published)[id] > 0;
    assert id in b.failed <==> multiset(b.failed)[id] > 0;
  }

  lemma {:induction false} AbortAccounts(w: World, tx: Tx, id: Id, ok: bool)
    requires Around(w, tx, id) && Enabled(w, Abort(tx)) && Accounts(w, id, ok)
    ensures Accounts(Apply(w, Abort(tx)), id, ok)
  {
    LostGrows(w.aborts, w.relays[tx], id, ok);
    ReleasedFlight(w, tx, Apply(w, Abort(tx)), id, ok);
  }

  /** A commit books the batch's outcomes. */
  lemma {:induction false} SettledBooks(rows: Rows, b: Batch, id: Id, ok: bool)
    requires BatchInv(b) && (b.stage.Marked? || b.stage.Counted?)
    requires id in b.published || id in b.failed ==> id in rows && rows[id].publishedAt.None?
    ensures Booked(Settled(rows, b), id, ok) == Booked(rows, id, ok) + if id in Outcomes(b, ok) then 1 else 0
  {
    OneOutcome(b, id);
    if id in rows {
      SettledAt(rows, b, id);
    }
  }

  lemma {:induction false} CommitBatchAccounts(w: World, tx: Tx, id: Id, ok: bool)
    requires Around(w, tx, id) && Enabled(w, CommitBatch(tx)) && Accounts(w, id, ok)
    requires BatchInv(w.relays[tx])
    ensures Accounts(Apply(w, CommitBatch(tx)), id, ok)
  {
    var b := w.relays[tx];
    OneOutcome(b, id);
    SettledBooks(w.rows, b, id, ok);
    ReleasedFlight(w, tx, Apply(w, CommitBatch(tx)), id, ok);
  }

  lemma {:induction false} StageAccounts(w: World, tx: Tx, stage: Stage, id: Id, ok: bool)
    requires tx in w.relays && Accounts(w, id, ok)
    ensures Accounts(WithBatch(w, tx, w.relays[tx].(stage := stage)), id, ok)
  {
  }

  lemma {:induction false} AccountsStep(w: World, e: Event, id: Id, ok: bool)
    requires Inv(w) && Enabled(w, e) && Accounts(w, id, ok)
    ensures Accounts(Apply(w, e), id, ok)
  {
    InvAround(w, e.tx, id);
    match e
    case Commit(tx) => CommitAccounts(w, tx, id, ok);
    case Fetch(tx, records) =>
      FetchedRows(w, tx, records);
      assert BatchInv(w.relays[tx]);
      FetchAccounts(w, tx, records, id, ok);
    case CommitBatch(tx) =>
      assert BatchInv(w.relays[tx]);
      CommitBatchAccounts(w, tx, id, ok);
    case _ => RestAccounts(w, e, id, ok);
  }

  lemma {:induction false} RestAccounts(w: World, e: Event, id: Id, ok: bool)
    requires Around(w, e.tx, id) && Enabled(w, e) && Accounts(w, id, ok)
    requires !e.Commit? && !e.Fetch? && !e.CommitBatch?
    ensures Accounts(Apply(w, e), id, ok)
  {
    match e
    case PublishOk(_) => PublishAccounts(w, e, id, ok);
    case PublishFail(_) => PublishAccounts(w, e, id, ok);
    case Mark(tx, now) => StageAccounts(w, tx, Marked(now), id, ok);
    case RecordFailed(tx) => StageAccounts(w, tx, Counted(w.relays[tx].stage.now), id, ok);
    case Abort(tx) => AbortAccounts(w, tx, id, ok);
    case Claim(_, _) =>
    case _ =>
      DataStays(w, e);
      OthersStay(w, e);
  }

  // ---------------------------------------------------------------- theorems

  /** Batches in progress at the same time hold disjoint sets of records, each at most once. */
  lemma {:induction false} ClaimsAreDisjoint(trace: seq<Event>, s: Tx, t: Tx, id: Id)
    requires Valid(trace)
    requires var w := Run(trace); s in w.relays && t in w.relays && id in w.relays[s].fetched && id in w.relays[t].fetched
    ensures s == t && multiset(Run(trace).relays[s].fetched)[id] == 1
  {
    Reachable(trace);
    var w := Run(trace);
    assert Owns(w, s) && Owns(w, t) && BatchInv(w.relays[s]);
    NoRepeatsCount(w.relays[s].fetched, id);
  }

  /** Every successful publish of a record is in the committed table, in the batch that holds the record, or was made by
      a batch that did not commit; and so is every failed one. */
  lemma {:induction false} PublishesAreAccounted(trace: seq<Event>, id: Id, ok: bool)
    requires Valid(trace)
    ensures Accounts(Run(trace), id, ok)
  {
    if trace != [] {
      var before := trace[..|trace| - 1];
      Reachable(before);
      PublishesAreAccounted(before, id, ok);
      AccountsStep(Run(before), trace[|trace| - 1], id, ok);
    }
  }

  /** A record is published at most once more than batches that published it were lost. */
  lemma {:induction false} DuplicatesNeedAborts(trace: seq<Event>, id: Id)
    requires Valid(trace)
    ensures multiset(Run(trace).broker)[id] <= 1 + Lost(Run(trace).aborts, id, true)
  {
    Reachable(trace);
    PublishesAreAccounted(trace, id, true);
    var w := Run(trace);
    if id in w.locks {
      InvAround(w, w.locks[id], id);
    }
  }

  /** At least once: a record committed as published was published. */
  lemma {:induction false} PublishedMeansDelivered(trace: seq<Event>, id: Id)
    requires Valid(trace) && id in Run(trace).rows && Run(trace).rows[id].publishedAt.Some?
    ensures id in Run(trace).broker
  {
    PublishesAreAccounted(trace, id, true);
  }

  /** Nothing is published but committed events: the writer that registered it has committed, with all its writes. */
  lemma {:induction false} DeliveredMeansCommitted(trace: seq<Event>, id: Id) returns (i: nat)
    requires Valid(trace) && id in Run(trace).broker
    ensures id in Run(trace).rows
    ensures i < |Run(trace).ledger| && id in Ids(Run(trace).ledger[i].events)
  {
    PublishesAreAccounted(trace, id, true);
    Reachable(trace);
    i := WriterOf(Run(trace).ledger, id);
  }

  lemma {:induction false} WriterOf(ledger: seq<Writer>, id: Id) returns (i: nat)
    requires id in Ids(Events(ledger))
    ensures i < |ledger| && id in Ids(ledger[i].events)
  {
    var n := |ledger| - 1;
    if id in Ids(ledger[n].events) {
      i := n;
    } else {
      assert Ids(Events(ledger)) == Ids(Events(ledger[..n])) + Ids(ledger[n].events);
      i := WriterOf(ledger[..n], id);
    }
  }

  /** No maximum exceeds `largest`; None allows relays without one. */
  predicate Within(config: Config, largest: Option<int>) {
    largest.None? || (config.maxAttempts.Some? && config.maxAttempts.value <= largest.value)
  }

  predicate RelaysWithin(w: World, largest: Option<int>) {
    forall tx :: tx in w.relays ==> Within(w.relays[tx].config, largest)
  }

  predicate ClaimsWithin(trace: seq<Event>, largest: Option<int>) {
    forall i :: 0 <= i < |trace| && trace[i].Claim? ==> Within(trace[i].config, largest)
  }

  lemma {:induction false} BoundedStep(w: World, e: Event, largest: Option<int>)
    requires Inv(w) && Enabled(w, e) && Bounded(largest, w.rows) && RelaysWithin(w, largest)
    requires largest.Some? ==> largest.value >= 0
    ensures Bounded(largest, Apply(w, e).rows)
  {
    var v := Apply(w, e);
    if largest.Some? {
      forall id | id in v.rows ensures v.rows[id].attempts <= largest.value {
        if e.CommitBatch? {
          var b := w.relays[e.tx];
          assert BatchInv(b);
          InvAround(w, e.tx, id);
          SettledAt(w.rows, b, id);
        } else if e.Commit? {
          CommitAdds(w, e.tx, id);
        } else {
          DataStays(w, e);
        }
      }
    }
  }

  /** A writer's commit leaves the rows there were, and adds fresh ones. */
  lemma {:induction false} CommitAdds(w: World, tx: Tx, id: Id)
    requires WritersInv(w) && Enabled(w, Commit(tx)) && id in Apply(w, Commit(tx)).rows
    ensures var v := Apply(w, Commit(tx)); if id in w.rows then v.rows[id] == w.rows[id] else Fresh(v.rows[id])
  {
    var events := w.writers[tx].events;
    assert Reserves(w, tx) && events[..w.writers[tx].flushed] == events;
    AddedKeys(w.rows, events);
    if id in Ids(events) {
      var i :| 0 <= i < |events| && Ids(events)[i] == id;
      AddedAt(w.rows, events, i);
      assert Fresh(events[i]);
    }
  }

  lemma {:induction false} WithinStep(w: World, e: Event, largest: Option<int>)
    requires Enabled(w, e) && RelaysWithin(w, largest) && (e.Claim? ==> Within(e.config, largest))
    ensures RelaysWithin(Apply(w, e), largest)
  {
    forall tx | tx in Apply(w, e).relays ensures Within(Apply(w, e).relays[tx].config, largest) {
      assert tx in w.relays ==> Within(w.relays[tx].config, largest);
    }
  }

  /** No record's failed attempts ever exceed the largest maximum of any relay, and none can if each has one. */
  lemma {:induction false} AttemptsAreBounded(trace: seq<Event>, largest: Option<int>)
    requires Valid(trace) && ClaimsWithin(trace, largest) && (largest.Some? ==> largest.value >= 0)
    ensures Bounded(largest, Run(trace).rows) && RelaysWithin(Run(trace), largest)
  {
    if trace != [] {
      var before, e := trace[..|trace| - 1], trace[|trace| - 1];
      Reachable(before);
      assert ClaimsWithin(before, largest);
      AttemptsAreBounded(before, largest);
      BoundedStep(Run(before), e, largest);
      WithinStep(Run(before), e, largest);
    }
  }

  /** Once drained, a record no lost batch had published was delivered exactly once, or never and then used up the
      attempts of the relay that makes the most. */
  lemma {:induction false} ExactlyOnceWithoutAborts(trace: seq<Event>, largest: Option<int>, id: Id)
    requires Valid(trace) && ClaimsWithin(trace, largest) && (largest.Some? ==> largest.value >= 0)
    requires var w := Run(trace); w.relays == map[] && Filtered(w.rows, largest) == {} && id in w.rows
    requires Lost(Run(trace).aborts, id, true) == 0
    ensures var w := Run(trace); var count := multiset(w.broker)[id];
      || (w.rows[id].publishedAt.Some? && count == 1)
      || (count == 0 && largest.Some? && w.rows[id].attempts == largest.value <= multiset(w.failures)[id])
  {
    PublishesAreAccounted(trace, id, true);
    PublishesAreAccounted(trace, id, false);
    AttemptsAreBounded(trace, largest);
    EligibleIsFiltered(Run(trace).rows, largest, id);
  }

  /** The committed database is what the writers in the ledger hold: all writes of each in commit order, exactly one row
      for each of their events, and nothing else. */
  lemma {:induction false} LedgerIsTheDatabase(trace: seq<Event>)
    requires Valid(trace)
    ensures var w := Run(trace); var events := Events(w.ledger);
      && w.business == Writes(w.ledger)
      && NoRepeats(Ids(events))
      && w.rows.Keys == (set id | id in Ids(events))
      && (forall i :: 0 <= i < |events| ==> KeptAs(w.rows, events[i]))
  {
    Reachable(trace);
    var w := Run(trace);
    var events := Events(w.ledger);
    forall id | id in Ids(events) ensures id in w.rows {
      var i :| 0 <= i < |events| && Ids(events)[i] == id;
      assert KeptAs(w.rows, events[i]);
    }
  }

  /** A committed record stays, as it was saved; it is never unpublished, and its attempts never go down. */
  lemma {:induction false} RecordsOnlyMoveForward(trace: seq<Event>, e: Event, id: Id)
    requires Valid(trace) && Enabled(Run(trace), e) && id in Run(trace).rows
    ensures var r, rows := Run(trace).rows[id], Apply(Run(trace), e).rows;
      && id in rows
      && rows[id].(publishedAt := r.publishedAt, attempts := r.attempts) == r
      && (r.publishedAt.Some? ==> rows[id] == r)
      && r.attempts <= rows[id].attempts <= r.attempts + 1
  {
    Reachable(trace);
    var w := Run(trace);
    InvAround(w, e.tx, id);
    if e.Commit? {
      AddedKeys(w.rows, w.writers[e.tx].events);
      CommitAdds(w, e.tx, id);
    } else if e.CommitBatch? {
      assert BatchInv(w.relays[e.tx]);
      SettledAt(w.rows, w.relays[e.tx], id);
    } else {
      DataStays(w, e);
    }
  }

  /** A lost batch blocks nobody: the records it held are free and still to be published, whatever it had done. */
  lemma {:induction false} AbortFreesItsRecords(trace: seq<Event>, tx: Tx, id: Id)
    requires Valid(trace) && tx in Run(trace).relays && id in Run(trace).relays[tx].fetched
    ensures var v := Apply(Run(trace), Abort(tx));
      id in Unlocked(v) && Eligible(v.rows[id], Run(trace).relays[tx].config.maxAttempts) && v.rows == Run(trace).rows
  {
    Reachable(trace);
    InvAround(Run(trace), tx, id);
    AbortFrees(Run(trace), tx, id);
  }

  lemma {:induction false} AbortFrees(w: World, tx: Tx, id: Id)
    requires tx in w.relays && id in w.relays[tx].fetched && Around(w, tx, id)
    ensures var v := Apply(w, Abort(tx));
      id in Unlocked(v) && Eligible(v.rows[id], w.relays[tx].config.maxAttempts) && v.rows == w.rows
  {
  }
}
