/** What a unit-of-work block means: the committed data after a caller's block, whatever fails on the way. */
module UnitOfWorkModel {
  import opened Wrappers
  import opened OutboxRecords
  import opened SqlStore

  datatype DomainEvent = DomainEvent(id: nat, payload: string, occurredAt: int)

  /** Committed business writes and outbox table, and the records of an in-memory outbox store. */
  datatype State = State(business: seq<string>, outbox: Rows, memory: seq<Record>)

  datatype Store = NoStore | Transactional | InMemory

  /** The driver calls that fail: opening the transaction, one of the outbox inserts, the commit, the rollback. */
  datatype Faults = Faults(begins: bool, insert: Option<nat>, commits: bool, rollsBack: bool)

  datatype Error = AlreadyActive | NoActiveTransaction | NotImplemented | DriverError | AssertionError | BodyError

  datatype Finish = CommitIt | RollBackIt | Neither

  /** A caller's block: its body, and the finish it calls once the body got through. */
  datatype Block = Block(store: Store, body: Body, finish: Finish, faults: Faults)

  datatype Body =
    | End
    | Fails
    | Write(row: string, fails: bool, caught: bool, rest: Body)   // a statement, its failure caught or not
    | Register(event: DomainEvent, rest: Body)
    | Nested(inner: Block, caught: bool, rest: Body)   // another block, its exception caught or not

  function RecordOf(e: DomainEvent): Record { Record(e.id, e.payload, e.occurredAt, None, 0) }

  function RecordsOf(events: seq<DomainEvent>): (r: seq<Record>)
    ensures |r| == |events|
  {
    seq(|events|, i requires 0 <= i < |events| => RecordOf(events[i]))
  }

  /** How far a body got: what nested blocks committed meanwhile, and its own writes and events, all still pending. */
  datatype Progress = Progress(state: State, writes: seq<string>, events: seq<DomainEvent>, failed: bool)

  function BodyOutcome(s: State, body: Body): Progress
    decreases body
  {
    match body
    case End => Progress(s, [], [], false)
    case Fails => Progress(s, [], [], true)
    case Write(row, fails, caught, rest) =>
      var p := BodyOutcome(s, rest);
      if !fails then p.(writes := [row] + p.writes) else if caught then p else Progress(s, [], [], true)
    case Register(event, rest) => var p := BodyOutcome(s, rest); p.(events := [event] + p.events)
    case Nested(inner, caught, rest) =>
      var (after, error) := BlockOutcome(s, inner);
      if error.Some? && !caught then Progress(after, [], [], true) else BodyOutcome(after, rest)
  }

  /** Persisting events; the new outbox rows are pending, those of an in-memory store are not. */
  function Persist(s: State, store: Store, events: seq<DomainEvent>, f: Faults): (State, Option<Error>) {
    if events == [] then (s, None) else
    match store
    case NoStore => (s, Some(NotImplemented))
    case InMemory => (s.(memory := SaveAll(s.memory, RecordsOf(events))), None)
    case Transactional => (s, if Inserts(s, events, f) then None else Some(DriverError))
  }

  /** Every insert goes through: none is hit by a fault and none breaks the primary key. */
  predicate Inserts(s: State, events: seq<DomainEvent>, f: Faults) {
    (f.insert.Some? ==> f.insert.value >= |events|) && Insert(s.outbox, RecordsOf(events)).Some?
  }

  /** Pending writes and outbox rows made visible at once. */
  function Installed(s: State, writes: seq<string>, records: seq<Record>): State
    requires Insert(s.outbox, records).Some?
  {
    s.(business := s.business + writes, outbox := Insert(s.outbox, records).value)
  }

  /** The outbox rows a unit of work on `store` has pending once its events are persisted. */
  function PendingRows(store: Store, events: seq<DomainEvent>): seq<Record> {
    if store.Transactional? then RecordsOf(events) else []
  }

  /** The committed state after the block, and the exception that leaves it. */
  function BlockOutcome(s: State, b: Block): (State, Option<Error>)
    decreases b
  {
    if b.faults.begins then (s, Some(DriverError)) else
    var p := BodyOutcome(s, b.body);
    if p.failed then (p.state, Some(if b.faults.rollsBack then DriverError else BodyError)) else
    match b.finish
    case Neither => (p.state, if b.faults.rollsBack then Some(DriverError) else None)
    case RollBackIt => (p.state, if b.faults.rollsBack then Some(AssertionError) else None)
    case CommitIt =>
      var (persisted, error) := Persist(p.state, b.store, p.events, b.faults);
      if error.Some? then (persisted, if b.faults.rollsBack then Some(DriverError) else error)
      else if b.faults.commits then (persisted, Some(DriverError))
      else
        assert Insert(p.state.outbox, []) == Some(p.state.outbox) && RecordsOf([]) == [];
        (Installed(persisted, p.writes, PendingRows(b.store, p.events)), None)
  }
}

/** What a block means, from the caller's text alone: which statements and events count, whether it raises, and the
    state it leaves. */
module BlockMeaning {
  import opened Wrappers
  import opened OutboxRecords
  import opened OutboxInserts
  import opened SqlStore
  import opened UnitOfWorkModel

  /** The rows of the body's own statements that do not fail, in order. */
  function Written(body: Body): seq<string> {
    match body
    case Write(row, fails, _, rest) => (if fails then [] else [row]) + Written(rest)
    case Register(_, rest) => Written(rest)
    case Nested(_, _, rest) => Written(rest)
    case _ => []
  }

  /** The events it registers, in order. */
  function Registered(body: Body): seq<DomainEvent> {
    match body
    case Write(_, _, _, rest) => Registered(rest)
    case Register(event, rest) => [event] + Registered(rest)
    case Nested(_, _, rest) => Registered(rest)
    case _ => []
  }

  /** A statement that fails, the body's own exception, or a nested block that raises, not caught. */
  predicate BodyRaises(s: State, body: Body)
    decreases body, 0
  {
    match body
    case End => false
    case Fails => true
    case Write(_, fails, caught, rest) => (fails && !caught) || BodyRaises(s, rest)
    case Register(_, rest) => BodyRaises(s, rest)
    case Nested(inner, caught, rest) => (BlockRaises(s, inner) && !caught) || BodyRaises(AfterBlock(s, inner), rest)
  }

  /** The body visibly changes what its nested blocks do, up to where it raises. */
  function AfterBody(s: State, body: Body): State
    decreases body, 0
  {
    match body
    case Write(_, fails, caught, rest) => if fails && !caught then s else AfterBody(s, rest)
    case Register(_, rest) => AfterBody(s, rest)
    case Nested(inner, caught, rest) =>
      if BlockRaises(s, inner) && !caught then AfterBlock(s, inner) else AfterBody(AfterBlock(s, inner), rest)
    case _ => s
  }

  /** Its transaction opens, its body gets through, it asks for the commit and its events can be stored. */
  predicate Persisted(s: State, b: Block)
    decreases b, 1
  {
    && !b.faults.begins && !BodyRaises(s, b.body) && b.finish.CommitIt?
    && CanStore(AfterBody(s, b.body), b.store, Registered(b.body), b.faults)
  }

  /** There are no events, or the store takes them: an in-memory one any, a transactional one those with new, distinct
      ids unless one of the inserts fails. */
  predicate CanStore(t: State, store: Store, events: seq<DomainEvent>, f: Faults) {
    || events == [] || store.InMemory?
    || (store.Transactional? && (f.insert.None? || f.insert.value >= |events|) && AllNew(t.outbox, RecordsOf(events)))
  }

  predicate Commits(s: State, b: Block)
    decreases b, 2
  {
    Persisted(s, b) && !b.faults.commits
  }

  predicate BlockRaises(s: State, b: Block)
    decreases b, 3
  {
    || b.faults.begins || BodyRaises(s, b.body)
    || (b.finish.CommitIt? && !Commits(s, b))
    || (!b.finish.CommitIt? && b.faults.rollsBack)
  }

  /** A committing block adds its statements' rows and its events' records; a commit that fails leaves behind what an
      in-memory store was given; and everything else leaves only what nested blocks did. */
  function AfterBlock(s: State, b: Block): State
    decreases b, 3
  {
    if b.faults.begins then s else
    var t, records := AfterBody(s, b.body), RecordsOf(Registered(b.body));
    State(t.business + (if Commits(s, b) then Written(b.body) else []),
          if Commits(s, b) && b.store.Transactional? then WithRows(t.outbox, records) else t.outbox,
          if Persisted(s, b) && b.store.InMemory? then SaveAll(t.memory, records) else t.memory)
  }

  /** The table with a row for each record. */
  function WithRows(rows: map<nat, Record>, records: seq<Record>): map<nat, Record> {
    if records == [] then rows else
    var n := |records| - 1;
    WithRows(rows, records[..n])[records[n].id := records[n]]
  }

  lemma {:induction false} InsertedRows(rows: map<nat, Record>, records: seq<Record>)
    requires Insert(rows, records).Some?
    ensures Insert(rows, records).value == WithRows(rows, records)
  {
    if records != [] {
      InsertedRows(rows, records[..|records| - 1]);
    }
  }

  /** The body raises exactly when it should, nested blocks have their effects, and unless it raises it has pending
      exactly its statements' rows and its registered events. */
  lemma {:induction false} BodyContributesItsText(s: State, body: Body)
    ensures var p := BodyOutcome(s, body);
      && p.failed == BodyRaises(s, body) && p.state == AfterBody(s, body)
      && (!p.failed ==> p.writes == Written(body) && p.events == Registered(body))
    decreases body
  {
    match body
    case Write(_, _, _, rest) => BodyContributesItsText(s, rest);
    case Register(_, rest) => BodyContributesItsText(s, rest);
    case Nested(inner, _, rest) =>
      BlockDoesWhatItSays(s, inner);
      BodyContributesItsText(AfterBlock(s, inner), rest);
    case _ =>
  }

  /** A block raises exactly when it should, and leaves exactly the state it should. */
  lemma {:induction false} BlockDoesWhatItSays(s: State, b: Block)
    ensures BlockOutcome(s, b).0 == AfterBlock(s, b)
    ensures BlockOutcome(s, b).1.Some? <==> BlockRaises(s, b)
    decreases b
  {
    if !b.faults.begins {
      BodyContributesItsText(s, b.body);
      var t := AfterBody(s, b.body);
      assert t.business + [] == t.business;
      if !BodyRaises(s, b.body) && b.finish.CommitIt? {
        CommitDoesWhatItSays(t, b.store, Written(b.body), Registered(b.body), b.faults);
        assert Persisted(s, b) == CanStore(t, b.store, Registered(b.body), b.faults);
        assert Commits(s, b) == (Persisted(s, b) && !b.faults.commits);
      } else {
        assert !Persisted(s, b) && !Commits(s, b);
      }
    }
  }

  /** The commit of a block that has these rows and events pending. */
  lemma {:induction false} CommitDoesWhatItSays(t: State, store: Store, writes: seq<string>, events: seq<DomainEvent>, f: Faults)
    ensures var (persisted, error) := Persist(t, store, events, f);
      && (error.None? <==> CanStore(t, store, events, f))
      && persisted == t.(memory := if error.None? && store.InMemory? then SaveAll(t.memory, RecordsOf(events)) else t.memory)
      && (error.None? ==>
            Insert(t.outbox, PendingRows(store, events)).Some? &&
            Installed(persisted, writes, PendingRows(store, events))
            == State(t.business + writes,
                     if store.Transactional? then WithRows(t.outbox, RecordsOf(events)) else t.outbox, persisted.memory))
  {
    InsertMeaning(t.outbox, RecordsOf(events));
    assert Insert(t.outbox, []) == Some(t.outbox);
    assert events == [] ==> RecordsOf(events) == [];
    if Insert(t.outbox, RecordsOf(events)).Some? {
      InsertedRows(t.outbox, RecordsOf(events));
    }
  }
}

/** The unit of work on a relational adapter, as objects. */
module UnitsOfWork {
  import BlockMeaning
  import opened Wrappers
  import opened OutboxRecords
  import opened SqlStore
  import opened UnitOfWorkModel
  import opened OutboxInserts

  /** A session with a transaction open on the master: its pending rows. */
  class Session {
    var writes: seq<string>
    var inserted: seq<Record>
    var closed: bool

    constructor ()
      ensures writes == [] && inserted == [] && !closed
    {
      writes, inserted, closed := [], [], false;
    }
  }

  class SQLAlchemyAdapter {
    var state: State
    var activeSession: Option<Session>

    constructor (state: State)
      ensures this.state == state && activeSession == None
    {
      this.state, activeSession := state, None;
    }

    method BindSession(session: Session) returns (token: Option<Session>)
      modifies this`activeSession
      ensures token == old(activeSession) && activeSession == Some(session)
    {
      token, activeSession := activeSession, Some(session);
    }

    method UnbindSession(token: Option<Session>)
      modifies this`activeSession
      ensures activeSession == token
    {
      activeSession := token;
    }

    ghost function Bound(): set<Session>
      reads this
    {
      if activeSession.Some? then {activeSession.value} else {}
    }

    /** The bound session holds the primary keys of the rows it has inserted. */
    ghost predicate Valid()
      reads this, Bound()
    {
      activeSession.Some? ==> Insert(state.outbox, activeSession.value.inserted).Some?
    }

    /** A repository write through `acquire`: on the bound session if there is one, left to its unit of work; else in a
        transaction of its own, committed at once and rolled back if the statement or the commit fails. */
    method Execute(row: string, statementFails: bool, commitFails: bool) returns (error: Option<Error>)
      modifies this`state, Bound()
      ensures activeSession.Some? ==> error == if statementFails then Some(DriverError) else None
      ensures activeSession.Some? ==> state == old(state) && activeSession.value.inserted == old(activeSession.value.inserted)
      ensures activeSession.Some? ==> activeSession.value.closed == old(activeSession.value.closed)
      ensures activeSession.Some? ==> activeSession.value.writes == old(activeSession.value.writes) + if error.None? then [row] else []
      ensures activeSession.None? ==> error == if statementFails || commitFails then Some(DriverError) else None
      ensures activeSession.None? ==> state == if error.None? then Installed(old(state), [row], []) else old(state)
    {
      if statementFails {
        return Some(DriverError);
      }
      match activeSession {
        case Some(session) => session.writes := session.writes + [row];
        case None =>
          if commitFails {
            return Some(DriverError);
          }
          assert Insert(state.outbox, []) == Some(state.outbox);
          state := Installed(state, [row], []);
      }
      return None;
    }

    /** The inserts of `SQLAlchemyOutboxStore.save`, one after the other, up to the first that fails. */
    method SaveAllOn(session: Session, records: seq<Record>, fault: Option<nat>) returns (error: Option<Error>)
      requires Insert(state.outbox, session.inserted).Some?
      modifies session`inserted
      ensures error.None? <==>
        (fault.Some? ==> fault.value >= |records|) && Insert(state.outbox, old(session.inserted) + records).Some?
      ensures error.None? ==> session.inserted == old(session.inserted) + records
      ensures error.Some? ==> error == Some(DriverError)
      ensures Insert(state.outbox, session.inserted).Some?
    {
      ghost var all, n := session.inserted + records, |session.inserted|;
      var i := 0;
      while i < |records|
        invariant 0 <= i <= |records| && session.inserted == all[..n + i]
        invariant Insert(state.outbox, all[..n + i]).Some? && (fault.Some? ==> fault.value >= i)
      {
        NextInsert(state.outbox, all, n + i);
        if fault == Some(i) || records[i].id in state.outbox || HasId(session.inserted, records[i].id) {
          return Some(DriverError);
        }
        session.inserted := session.inserted + [records[i]];
        i := i + 1;
      }
      assert all[..n + i] == all;
      return None;
    }

    /** `SQLAlchemyOutboxStore.save` through `acquire`, like any other write. */
    method Save(records: seq<Record>, f: Faults) returns (error: Option<Error>)
      requires Valid()
      modifies this`state, Bound()
      ensures Valid() && (error.Some? ==> error == Some(DriverError))
      ensures activeSession.Some? ==> state == old(state)
      ensures activeSession.Some? ==> (error.None? <==>
        (f.insert.Some? ==> f.insert.value >= |records|) && Insert(state.outbox, old(activeSession.value.inserted) + records).Some?)
      ensures activeSession.Some? ==> activeSession.value.writes == old(activeSession.value.writes)
      ensures activeSession.Some? ==> activeSession.value.closed == old(activeSession.value.closed)
      ensures activeSession.Some? && error.None? ==> activeSession.value.inserted == old(activeSession.value.inserted) + records
      ensures activeSession.None? ==> (error.None? <==>
        (f.insert.Some? ==> f.insert.value >= |records|) && Insert(old(state).outbox, records).Some? && !f.commits)
      ensures activeSession.None? ==> state == if error.None? then Installed(old(state), [], records) else old(state)
    {
      if activeSession.Some? {
        error := SaveAllOn(activeSession.value, records, f.insert);
        return;
      }
      var session := new Session();
      assert Insert(state.outbox, []) == Some(state.outbox) && [] + records == records;
      error := SaveAllOn(session, records, f.insert);
      if error.None? {
        if f.commits {
          return Some(DriverError);
        }
        state := Installed(state, [], session.inserted);
      }
    }
  }

  class UnitOfWork {
    const adapter: SQLAlchemyAdapter
    const store: Store
    var session: Option<Session>
    var bindToken: Option<Option<Session>>
    var active: bool
    var committed: bool
    var finished: bool
    var pendingEvents: seq<DomainEvent>

    constructor (adapter: SQLAlchemyAdapter, store: Store)
      ensures this.adapter == adapter && this.store == store
      ensures !active && !committed && session == None && bindToken == None
    {
      this.adapter, this.store := adapter, store;
      session, bindToken, active, committed, finished, pendingEvents := None, None, false, false, false, [];
    }

    ghost function SessionFrame(): set<object>
      reads this
    {
      if session.Some? then {session.value} else {}
    }

    /** What the adapter's binding goes back to at teardown. */
    ghost function PriorBinding(): Option<Session>
      reads this, adapter
    {
      if bindToken.Some? then bindToken.value else adapter.activeSession
    }

    /** Inside the block, before any finish: the session is bound and nothing is persisted yet. */
    ghost predicate Open()
      reads this, adapter, SessionFrame()
    {
      && active && !finished && bindToken.Some?
      && session.Some? && adapter.activeSession == session
      && session.value.inserted == [] && !session.value.closed
    }

    /** `__aenter__` with `_begin`. */
    method Enter(f: Faults) returns (error: Option<Error>)
      modifies this, adapter`activeSession
      ensures old(active) ==> error == Some(AlreadyActive) && unchanged(this) && unchanged(adapter)
      ensures !old(active) && f.begins ==> error == Some(DriverError) && !active && bindToken == old(bindToken)
      ensures !old(active) && f.begins ==> adapter.activeSession == old(adapter.activeSession)
      ensures !old(active) && !f.begins ==> error == None && Open() && fresh(session.value) && session.value.writes == []
      ensures !old(active) && !f.begins ==> bindToken == Some(old(adapter.activeSession)) && pendingEvents == [] && !committed
    {
      if active {
        return Some(AlreadyActive);
      }
      var created := new Session();
      session := Some(created);
      if f.begins {
        return Some(DriverError);
      }
      var token := adapter.BindSession(created);
      bindToken := Some(token);
      active, committed, finished, pendingEvents := true, false, false, [];
      return None;
    }

    method RegisterEvent(event: DomainEvent)
      modifies this`pendingEvents
      ensures pendingEvents == old(pendingEvents) + [event]
    {
      pendingEvents := pendingEvents + [event];
    }

    method Teardown()
      modifies this`session, this`bindToken, adapter`activeSession, SessionFrame()
      ensures session == None && bindToken == None
      ensures adapter.activeSession == old(PriorBinding())
      ensures old(session).Some? ==> old(session).value.closed
    {
      if bindToken.Some? {
        adapter.UnbindSession(bindToken.value);
        bindToken := None;
      }
      if session.Some? {
        session.value.closed := true;
        session := None;
      }
    }

    /** `_commit`: everything pending in the session becomes visible, or nothing does. */
    method CommitSession(f: Faults) returns (error: Option<Error>)
      requires session.Some? ==> Insert(adapter.state.outbox, session.value.inserted).Some?
      modifies this`session, this`bindToken, adapter, SessionFrame()
      ensures old(session).None? ==> error == Some(AssertionError) && unchanged(this) && unchanged(adapter)
      ensures old(session).Some? ==> error == if f.commits then Some(DriverError) else None
      ensures old(session).Some? ==> session == None && bindToken == None && old(session).value.closed
      ensures old(session).Some? ==> adapter.activeSession == old(PriorBinding())
      ensures old(session).Some? && f.commits ==> adapter.state == old(adapter.state)
      ensures old(session).Some? && !f.commits ==>
        adapter.state == Installed(old(adapter.state), old(session.value.writes), old(session.value.inserted))
    {
      if session.None? {
        return Some(AssertionError);
      }
      if f.commits {
        error := Some(DriverError);
      } else {
        error := None;
        adapter.state := Installed(adapter.state, session.value.writes, session.value.inserted);
      }
      Teardown();
    }

    /** `_rollback` */
    method RollbackSession(f: Faults) returns (error: Option<Error>)
      modifies this`session, this`bindToken, adapter`activeSession, SessionFrame()
      ensures old(session).None? ==> error == Some(AssertionError) && unchanged(this) && unchanged(adapter)
      ensures old(session).Some? ==> error == if f.rollsBack then Some(DriverError) else None
      ensures old(session).Some? ==> session == None && bindToken == None && old(session).value.closed
      ensures old(session).Some? ==> adapter.activeSession == old(PriorBinding())
    {
      if session.None? {
        return Some(AssertionError);
      }
      error := if f.rollsBack then Some(DriverError) else None;
      Teardown();
    }

    /** After a finish in the same block: torn down, but still active. */
    ghost predicate Finished()
      reads this, adapter, adapter.Bound()
    {
      active && session.None? && bindToken.None? && adapter.Valid()
    }

    /** What persisting `events` does once the session is gone: a save on its own, or on the session of a unit around. */
    ghost function PersistedLate(s: State, events: seq<DomainEvent>, f: Faults, bound: bool): State {
      if events == [] || store.NoStore? then s
      else if store.InMemory? then s.(memory := SaveAll(s.memory, RecordsOf(events)))
      else if bound || f.commits || !Inserts(s, events, f) then s
      else Installed(s, [], RecordsOf(events))
    }

    /** `_flush_events` with `_persist_events` */
    method FlushEvents(f: Faults) returns (error: Option<Error>)
      requires Open() || Finished()
      modifies this`pendingEvents, adapter`state, adapter.Bound()
      ensures session.Some? ==> (adapter.state, error) == Persist(old(adapter.state), store, old(pendingEvents), f)
      ensures session.Some? ==> session.value.writes == old(session.value.writes) && session.value.closed == old(session.value.closed)
      ensures session.Some? && error.None? ==> session.value.inserted == PendingRows(store, old(pendingEvents))
      ensures session.None? ==>
        adapter.state == PersistedLate(old(adapter.state), old(pendingEvents), f, adapter.activeSession.Some?)
      ensures error.None? ==> pendingEvents == []
    {
      if pendingEvents == [] {
        assert RecordsOf([]) == [];
        return None;
      }
      match store {
        case NoStore => return Some(NotImplemented);
        case InMemory => adapter.state := adapter.state.(memory := SaveAll(adapter.state.memory, RecordsOf(pendingEvents)));
        case Transactional =>
          assert Insert(adapter.state.outbox, []) == Some(adapter.state.outbox);
          assert [] + RecordsOf(pendingEvents) == RecordsOf(pendingEvents);
          error := adapter.Save(RecordsOf(pendingEvents), f);
          if error.Some? {
            return;
          }
      }
      pendingEvents := [];
      return None;
    }

    /** The first commit of a block finishes it. A later one in the same block always fails on the missing session, but
        persists events registered since, outside any transaction of this unit. */
    method Commit(f: Faults) returns (error: Option<Error>)
      requires active ==> Open() || Finished()
      modifies this, adapter, SessionFrame(), adapter.Bound()
      ensures !old(active) ==> error == Some(NoActiveTransaction) && unchanged(this) && unchanged(adapter)
      ensures old(active) ==> active && finished && pendingEvents == [] && session == None && bindToken == None
      ensures old(active && session.Some?) ==> adapter.activeSession == old(bindToken).value && old(session).value.closed
      ensures old(active && session.Some?) ==>
        var (persisted, failure) := Persist(old(adapter.state), store, old(pendingEvents), f);
        if failure.Some? then adapter.state == persisted && error == if f.rollsBack then Some(DriverError) else failure
        else if f.commits then adapter.state == persisted && error == Some(DriverError)
        else
          && Insert(persisted.outbox, PendingRows(store, old(pendingEvents))).Some? && error == None
          && adapter.state == Installed(persisted, old(session.value.writes), PendingRows(store, old(pendingEvents)))
      ensures old(active && session.None?) ==> error == Some(AssertionError) && adapter.activeSession == old(adapter.activeSession)
      ensures old(active && session.None?) ==>
        adapter.state == PersistedLate(old(adapter.state), old(pendingEvents), f, adapter.activeSession.Some?)
      ensures old(active) ==> (committed <==> error.None? || old(committed))
    {
      if !active {
        return Some(NoActiveTransaction);
      }
      assert Insert(adapter.state.outbox, []).Some? && RecordsOf([]) == [];
      error := FlushEvents(f);
      if error.Some? {
        var second := RollbackSession(f);
        finished, pendingEvents := true, [];
        return if second.Some? then second else error;
      }
      error := CommitSession(f);
      finished, pendingEvents := true, [];
      if error.None? {
        committed := true;
      }
    }

    method Rollback(f: Faults) returns (error: Option<Error>)
      modifies this, adapter`activeSession, SessionFrame()
      ensures !old(active) ==> error == Some(NoActiveTransaction) && unchanged(this) && unchanged(adapter)
      ensures old(active && session.None?) ==> error == Some(AssertionError) && unchanged(this) && unchanged(adapter)
      ensures old(active && session.Some?) ==> error == if f.rollsBack then Some(DriverError) else None
      ensures old(active && session.Some?) ==> session == None && bindToken == None && old(session).value.closed
      ensures old(active && session.Some?) ==> (finished <==> error.None? || old(finished)) && active && committed == old(committed)
      ensures old(active && session.Some?) ==> adapter.activeSession == old(PriorBinding())
    {
      if !active {
        return Some(NoActiveTransaction);
      }
      error := RollbackSession(f);
      if error.Some? {
        return;
      }
      finished, pendingEvents := true, [];
    }

    /** `__aexit__`: whatever was not finished is rolled back. */
    method Exit(f: Faults) returns (error: Option<Error>)
      requires active
      modifies this, adapter`activeSession, SessionFrame()
      ensures !active && committed == old(committed)
      ensures old(finished) ==> error == None && session == old(session) && bindToken == old(bindToken)
      ensures old(finished || session.None?) ==> adapter.activeSession == old(adapter.activeSession)
      ensures old(!finished && session.None?) ==> error == Some(AssertionError) && session == None && bindToken == old(bindToken)
      ensures old(!finished && session.Some?) ==> error == if f.rollsBack then Some(DriverError) else None
      ensures old(!finished && session.Some?) ==> session == None && bindToken == None && old(session).value.closed
      ensures old(!finished && session.Some?) ==> adapter.activeSession == old(PriorBinding())
    {
      error := None;
      if !finished {
        error := Rollback(f);
      }
      active := false;
    }

    /** The body of the caller's block. */
    method RunBody(body: Body) returns (failed: bool)
      requires Open()
      modifies this`pendingEvents, adapter, session.value
      ensures Open() && failed == BodyOutcome(old(adapter.state), body).failed
      ensures adapter.state == BodyOutcome(old(adapter.state), body).state
      ensures session.value.writes == old(session.value.writes) + BodyOutcome(old(adapter.state), body).writes
      ensures pendingEvents == old(pendingEvents) + BodyOutcome(old(adapter.state), body).events
      ensures failed == BlockMeaning.BodyRaises(old(adapter.state), body)
      ensures adapter.state == BlockMeaning.AfterBody(old(adapter.state), body)
      ensures !failed ==> session.value.writes == old(session.value.writes) + BlockMeaning.Written(body)
      ensures !failed ==> pendingEvents == old(pendingEvents) + BlockMeaning.Registered(body)
      decreases body
    {
      BlockMeaning.BodyContributesItsText(adapter.state, body);
      match body {
        case End => return false;
        case Fails => return true;
        case Write(row, fails, caught, rest) =>
          var error := adapter.Execute(row, fails, false);
          if error.Some? && !caught {
            return true;
          }
          failed := this.RunBody(rest);
        case Register(event, rest) =>
          RegisterEvent(event);
          failed := this.RunBody(rest);
        case Nested(inner, caught, rest) =>
          var unit, error := RunBlock(adapter, inner);
          if error.Some? && !caught {
            return true;
          }
          failed := this.RunBody(rest);
      }
    }
  }

  /** `async with SQLAlchemyUnitOfWork(...)` around a caller's block. */
  method RunBlock(adapter: SQLAlchemyAdapter, block: Block) returns (unit: UnitOfWork, error: Option<Error>)
    modifies adapter
    ensures fresh(unit) && !unit.active && unit.bindToken == None && adapter.activeSession == old(adapter.activeSession)
    ensures (adapter.state, error) == BlockOutcome(old(adapter.state), block)
    ensures adapter.state == BlockMeaning.AfterBlock(old(adapter.state), block)
    ensures error.Some? <==> BlockMeaning.BlockRaises(old(adapter.state), block)
    ensures !block.faults.begins ==> unit.session == None
    decreases block
  {
    BlockMeaning.BlockDoesWhatItSays(adapter.state, block);
    unit := new UnitOfWork(adapter, block.store);
    error := unit.Enter(block.faults);
    if error.Some? {
      return;
    }
    var failed := unit.RunBody(block.body);
    ghost var p := BodyOutcome(old(adapter.state), block.body);
    assert adapter.state == p.state && unit.session.value.writes == p.writes && unit.pendingEvents == p.events;
    error := if failed then Some(BodyError) else None;
    if !failed {
      match block.finish {
        case CommitIt => error := unit.Commit(block.faults);
        case RollBackIt => error := unit.Rollback(block.faults);
        case Neither =>
      }
    }
    var onExit := unit.Exit(block.faults);
    if onExit.Some? {
      error := onExit;
    }
  }
}

/** What a block guarantees, whatever its body does and whatever fails. */
module AtomicBlocks {
  import opened Wrappers
  import opened OutboxRecords
  import opened OutboxInserts
  import opened UnitOfWorkModel
  import opened BlockMeaning

  /** The block opens its transaction and its body gets through to the finish. */
  predicate GetsThrough(s: State, b: Block) {
    !b.faults.begins && !BodyRaises(s, b.body)
  }

  /** All or nothing on every path, for what the body's text writes and registers: the committed state is what nested
      blocks left of it, or has all of the block's rows and exactly one unpublished, never-attempted row for each of its
      events; and it is the latter exactly when the block commits, which is when `commit` raises nothing. */
  lemma {:induction false} BlocksAreAtomic(s: State, b: Block)
    requires !b.store.InMemory?
    ensures var (after, error) := BlockOutcome(s, b);
      var t, events := AfterBody(s, b.body), Registered(b.body);
      && (!Commits(s, b) ==> after == if b.faults.begins then s else t)
      && (Commits(s, b) ==>
            && after.business == t.business + Written(b.body)
            && OneRowEach(t.outbox, RecordsOf(events), after.outbox)
            && (forall i :: 0 <= i < |events| ==>
                  events[i].id in after.outbox &&
                  after.outbox[events[i].id] == Record(events[i].id, events[i].payload, events[i].occurredAt, None, 0)))
      && (Commits(s, b) <==> b.finish.CommitIt? && error == None)
  {
    var t, events := AfterBody(s, b.body), Registered(b.body);
    BlockDoesWhatItSays(s, b);
    assert t.business + [] == t.business;
    if Commits(s, b) {
      var records := RecordsOf(events);
      assert Persisted(s, b);
      assert events == [] ==> records == [];
      InsertMeaning(t.outbox, records);
      InsertedRows(t.outbox, records);
      if !b.store.Transactional? {
        assert OneRowEach(t.outbox, [], t.outbox);
      }
      forall i | 0 <= i < |events|
        ensures events[i].id in BlockOutcome(s, b).0.outbox && BlockOutcome(s, b).0.outbox[events[i].id] == RecordOf(events[i])
      {
        assert records[i] == RecordOf(events[i]);
      }
    }
  }

  predicate Flat(body: Body) {
    match body
    case End => true
    case Fails => true
    case Write(_, _, _, rest) => Flat(rest)
    case Register(_, rest) => Flat(rest)
    case Nested(_, _, _) => false
  }

  /** Without nested blocks nothing is visible before the commit, so the alternative is the state unchanged. */
  lemma {:induction false} NothingIsVisibleBefore(s: State, b: Block)
    requires Flat(b.body) && !b.store.InMemory?
    ensures !Commits(s, b) ==> BlockOutcome(s, b).0 == s
  {
    BlocksAreAtomic(s, b);
    FlatBodyCommitsNothing(s, b.body);
  }

  lemma {:induction false} FlatBodyCommitsNothing(s: State, body: Body)
    requires Flat(body)
    ensures AfterBody(s, body) == s
  {
    match body
    case Write(_, _, _, rest) => FlatBodyCommitsNothing(s, rest);
    case Register(_, rest) => FlatBodyCommitsNothing(s, rest);
    case _ =>
  }

  /** The `assert self.session is not None` of `_rollback` fails exactly when the caller's own `rollback()` failed: the
      teardown has run, the block is not marked finished, and its exit rolls back a second time. */
  lemma {:induction false} RollbackAssertionFailsIff(s: State, b: Block)
    ensures BlockOutcome(s, b).1 == Some(AssertionError)
      <==> GetsThrough(s, b) && b.finish.RollBackIt? && b.faults.rollsBack
  {
    BodyContributesItsText(s, b.body);
  }

  /** With an in-memory store the events are outside the transaction. The block is still all or nothing, except when the
      commit fails after the events were saved and there were writes to go with them. */
  lemma {:induction false} InMemoryStoreIsAtomicIff(s: State, b: Block)
    requires b.store.InMemory?
    ensures var after, t := BlockOutcome(s, b).0, AfterBody(s, b.body);
      var saved := SaveAll(t.memory, RecordsOf(Registered(b.body)));
      var nothing := if b.faults.begins then s else t;
      after == nothing || after == t.(business := t.business + Written(b.body), memory := saved)
      <==> !(GetsThrough(s, b) && b.finish.CommitIt? && b.faults.commits && Written(b.body) != [] && saved != t.memory)
  {
    BlockDoesWhatItSays(s, b);
    var t, rows := AfterBody(s, b.body), Written(b.body);
    assert t.business + [] == t.business;
    assert rows != [] ==> |t.business + rows| > |t.business|;
  }
}
