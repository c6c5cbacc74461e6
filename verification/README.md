# krossdb, modelled and proved in Dafny

krossdb is an asynchronous data-access layer over relational, document and vector databases. This project models its
state machines and transformations and proves what they are for. `dafny verify dfyconfig.toml` checks everything.

| file | what it models |
|---|---|
| `OutboxPipeline.dfy`, `OutboxHistory.dfy` | the transactional outbox: writers, claims, several relays, broker and crashes, every interleaving; and that its states are what the events say |
| `Relay.dfy`, `SqlRelay.dfy`, `Outbox.dfy` | one relay's batches and polling loop, its progress bounds on either store, and the two outbox stores |
| `UnitOfWork.dfy` | the unit of work with its session binding and event flush, on every exit path |
| `CircuitBreaker.dfy`, `BreakerRuns.dfy` | the circuit breaker, and every concurrent run of one breaker |
| `ResilientReads.dfy`, `LoadBalancer.dfy` | replica routing, guarded calls and retries; weighted round-robin |
| `Criteria.dfy`, `MongoCompiler.dfy`, `SqlCompiler.dfy`, `VectorRepository.dfy` | criteria, their evaluator and three compilers; the vector repository's writes |
| `Tenancy.dfy`, `ScopedOperations.dfy`, `BulkInsert.dfy` | tenant scoping on a relational table, and what each scoped operation does to it; inserts with savepoints |
| `Idempotency.dfy` | the idempotency manager as interleaved tasks |
| `Factory.dfy` | connecting every adapter or none |
| `Wrappers.dfy`, `Multiples.dfy` | options and results; whole multiples |

Objects that the source changes in place are classes here, and the adapter holds the breaker and balancer objects of
its nodes. Each of their methods is proved equal to a function on
values, and the theorems are about these functions and about runs, which are sequences of events. An event is what the
source does between two awaits or under one lock; `Enabled` says when it can happen and `Apply` what it does. Clocks,
driver failures, publish outcomes and callers' blocks are parameters. All inductions are explicit: no lemma relies on the
verifier's automatic one.

What is assumed of the outside world: commits are atomic; row locks last to the end of a transaction; a locking read
sees committed rows and skips locked ones; primary keys are unique; the clock never goes back; the idempotency cache
drops entries only when they expire, and a write to it that raises or is cancelled stores nothing.

## Where the code differs from its documentation

Each point is proved: by a lemma with a concrete input, by the exact condition under which the promise holds, or by
both.

- A call cancelled in a later half-open era than the one that admitted it frees a slot it never took, so that more
  than `half_open_max_calls` probes can run (`StaleCancellationBreaksTheLimit`; exactly when: `ProbeCounterBounds`,
  `CounterStaysExactIff`).
- The retry helper says that it never retries a breaker rejection; it does when `retry_on` lists it
  (`RejectionsAreRetriedOnlyIfListed`).
- A replica at its probe limit rejects a concurrent read that the master could serve
  (`BusyProbeRejectsAReadTheMasterCouldServe`; exactly when a read is rejected: `RejectedIff`).
- When the caller's own `rollback()` fails in the driver, leaving the block raises an assertion error in its place
  (`RollbackAssertionFailsIff`).
- A second commit in a block raises an assertion error, and persists events registered since the first one outside the
  unit's transaction (`UnitOfWork.Commit`).
- With an in-memory outbox store, events outlive a failed commit (`InMemoryStoreIsAtomicIff`).
- The in-memory outbox store fetches in insertion order; the SQL query orders by creation time
  and leaves equal times open (`TiesAreOpen`; exactly when they agree: `FetchesAgreeIff`).
- A failure list that repeats an id is counted once per occurrence in memory and once in SQL (`CountsAgreeIff`).
- Saving a known outbox id fails in SQL; in memory it replaces the record, so that a published event is published again
  (`SavingAgain`; exactly when the stores stay the same: `StepsAgreeIff`).
- IS_NULL with a falsy value other than False, such as none, 0 or an empty text, means "is null" in SQL and "is not
  null" elsewhere (`OmittedIsNullDisagrees`; exactly when they agree: `IsNullAgreesIff`).
- NE and NOT_IN on a null field are false in SQL and true in the evaluator (`ChainAgreesExceptOnNulls`); NE is false in
  Qdrant, where IS_NULL with true does not find a field that is not stored (`FilterAgreesExceptInTraps`, `ReachedIff`).
- An equality with an empty document is lost when the Mongo compiler merges it (`EmptyDocumentIsLostInAMerge`; exactly
  when the query goes wrong: `CompileIsExactIff`).
- A vector update whose changes break its own criteria is written and reported as missing; where NE meets a null field
  it is reported and not written (`SelfDefeatingUpdateIsReportedMissing`, `NeOnNullReportsAWriteThatDidNotHappen`;
  exactly when: `UpdateIsExactIff`).
- The server does not see the id of a point as a field. Under an EQ, NE or IN on `id` that the id satisfies a vector
  update is reported and not written; under NOT_IN a listed point is written and reported as missing
  (`CriteriaOnTheIdGoWrong`, `ReachedIff`).
- A vector update to a new id or vector reports success and shows the old one (`NewVectorIsNotStored`, `HiddenIff`).
- Where an accepted point is not reached, scoped vector `bulk_delete` counts it and does not remove it, and `delete`
  leaves it (`BulkDeleteCountsADeleteThatDidNotHappen`; exactly when: `ScopedBulkDeleteRefinesReference`,
  `DeleteRefinesReference`).
- Unscoped vector `bulk_delete` counts missing and repeated ids (`UnscopedBulkDeleteCountsIff`).
- Through primary-key conflicts, a scoped `create`, or an `update` that changes the key, shows that another tenant has
  that key (`CreateIsLocalIff`, `UpdateIsLocalIff`, `BulkCreateIsLocalIff`, `BulkUpdateIsLocalIff`).
- A relational `update` that moves a row to a free key writes it and then raises record-not-found
  (`MovedRowIsReportedMissingIff`).
- The idempotency manager promises at most one run per key. An operation whose cache write raises or is cancelled runs
  again at the next call (`UnstoredRunsAgain`; how often in all: `FinishedOperations`).
- Connecting a factory twice leaves the first adapters live and out of reach (`ConnectAll`).

## Model

| member | source | states |
|---|---|---|
| `OutboxPipeline.ClaimsAreDisjoint` | src/krossdb/events/outbox.py:62-69 | In every interleaving, two batches in progress never hold the same record, and no batch holds a record twice. |
| `OutboxPipeline.PublishesAreAccounted` | src/krossdb/events/relay.py:65-91 | Conservation, per record and per outcome: publishes logged = what the committed table says + what the batch holding the record has still to book + how many lost batches had that outcome; records that were never committed have none. |
| `OutboxPipeline.DuplicatesNeedAborts` | src/krossdb/events/relay.py:9-13 | At-least-once, bounded: a record is published at most once more than the number of batches that published it and were lost. |
| `OutboxPipeline.PublishedMeansDelivered` | src/krossdb/events/relay.py:3-13 | A row committed as published was successfully published at least once. |
| `OutboxPipeline.DeliveredMeansCommitted` | src/krossdb/events/outbox.py:3-8 | Everything published is a committed row, whose writer committed. |
| `OutboxPipeline.AttemptsAreBounded` | src/krossdb/events/relay.py:3-7 | `attempts` never exceeds the largest `max_attempts` of the relays, each of which may have its own, whatever they do and wherever they crash. |
| `OutboxPipeline.ExactlyOnceWithoutAborts` | src/krossdb/events/relay.py:65-91 | Once drained, a record no lost batch had published was delivered exactly once, or never and then has exactly the largest maximum of failed attempts. |
| `OutboxHistory.WritersAreAtomic` | src/krossdb/events/outbox.py:3-8 | Over any run the committed database is exactly what the committed units of work wrote and registered, read off their events: the rows in commit order, one row for each registered event with its payload and time, and nothing of any other unit of work. |
| `OutboxHistory.WriterIsItsEvents` | src/krossdb/interfaces/unit_of_work.py:106-109 | A unit of work in progress holds exactly the rows it wrote and a fresh record of each event it registered since it began, in order; it is in progress iff it began and has not ended since. |
| `OutboxHistory.CommitInstallsWhatWasRegistered` | src/krossdb/interfaces/unit_of_work.py:74-95 | A commit adds exactly those rows, and one unpublished, never attempted outbox row for each registered event; all other rows stay. |
| `OutboxHistory.BatchIsItsEvents` | src/krossdb/events/relay.py:65-91 | A batch in progress holds the ids its query returned, and has published or failed to exactly those that its publish events say, in order. |
| `OutboxHistory.ConfigIsTheClaims` | src/krossdb/events/relay.py:48-63 | A batch keeps to the limits of the relay that claimed it. |
| `OutboxHistory.LogIsThePublishes` | src/krossdb/events/relay.py:70-84 | The broker saw exactly the publishes of the run, in order. |
| `OutboxHistory.BatchCommitBooksItsResults` | src/krossdb/events/outbox.py:137-161 | A batch's commit marks what its events published, at the time of its mark, counts one attempt for each failure, and changes no other row. |
| `OutboxHistory.PublishEventsAreAccounted` | src/krossdb/events/relay.py:65-91 | The conservation equation over the run's own publish and abort events. |
| `OutboxHistory.FetchTakesTheOldest` | src/krossdb/events/outbox.py:108-123 | A query leaves out an eligible unlocked row only for a full batch of rows no younger. |
| `OutboxHistory.CommitIsInReach` | src/krossdb/events/outbox.py:75-92 | From any reachable state a unit of work whose events have free keys can insert them all and commit. |
| `OutboxHistory.BatchCommitIsInReach` | src/krossdb/events/relay.py:65-91 | From any reachable state a batch that has fetched can commit, whichever way its publishes go. |
| `OutboxPipeline.RecordsOnlyMoveForward` | src/krossdb/events/outbox.py:137-161 | A committed record stays as saved; it is never unpublished and a published one never changes; its attempts never go down and rise by at most one a step. |
| `OutboxPipeline.AbortFreesItsRecords` | src/krossdb/events/outbox.py:94-106 | A batch lost at any stage leaves the table unchanged and its records unlocked and eligible. |
| `OutboxPipeline.FetchedRows` | src/krossdb/events/outbox.py:108-123 | A fetch returns distinct committed rows that are eligible and locked by nobody. |
| `OutboxPipeline.Reachable` | src/krossdb/events/outbox.py:94-106 | Locks, primary keys, batches and ledger agree in every reachable state (the invariant the theorems above rest on). |
| `RelayBatches.RunOnceIsTheWalk` | src/krossdb/events/relay.py:65-91 | Fetching first and updating by id afterwards equals one walk over the store that tries eligible records, oldest first, while the batch has room. |
| `RelayBatches.BatchReducesWork` | src/krossdb/events/relay.py:65-91 | A batch takes at least one attempt off the attempts left for each record it fetched, whichever publishes fail. |
| `RelayBatches.BatchKeepsAttemptsBounded` | src/krossdb/events/relay.py:3-7 | Batches keep every record's attempts at or below the maximum. |
| `RelayBatches.DrainTerminates` | src/krossdb/events/outbox.py:34-56 | In-memory store: without new saves, as many batches as there are attempts left drain the store: then every record is published or has exactly `max_attempts`. |
| `RelayBatches.AttemptedMeansFetched` | src/krossdb/events/outbox.py:34-43 | A record is in the next batch iff it is eligible and fewer than `batch_size` eligible records are older. |
| `RelayBatches.HeadOfLineDelay` | src/krossdb/events/outbox.py:34-43 | In-memory store: an eligible record is tried within floor(S / batch_size) + 1 batches, S being the attempts left over the eligible records saved before it, whichever publishes fail and whatever is saved later. |
| `RelayBatches.PublishedLeave` | src/krossdb/events/relay.py:65-91 | A batch takes exactly the records it published off the unpublished ones. |
| `RelayBatches.BackToBackBound` | src/krossdb/events/relay.py:93-117 | In-memory store: with no new saves `run` goes straight on at most unpublished / batch_size times; every other turn sleeps. |
| `RelayBatches.SleepsIff` | src/krossdb/events/relay.py:106-117 | A turn of `run` sleeps iff it raised or took less than a full batch off the unpublished records, and goes straight on otherwise. |
| `OutboxRelays.OutboxRelay.Create` | src/krossdb/events/relay.py:48-63 | Construction fails exactly for a batch size or maximum that is not positive. |
| `OutboxRelays.OutboxRelay.RunOnce` | src/krossdb/events/relay.py:65-91 | The loop over the fetched records and the store updates are the batch the lemmas are about, and the count returned is that of the successes. |
| `OutboxRelays.OutboxRelay.Run` | src/krossdb/events/relay.py:93-117 | The polling loop paces itself as `RelayBatches.Turns` says; a non-positive interval is rejected and changes nothing. |
| `SqlRelays.HeadOfLineDelay` | src/krossdb/events/outbox.py:108-123 | On the SQL table, whatever allowed results the queries return: an eligible record is fetched within floor(S / batch_size) + 1 batches, S being the attempts left over the other eligible records with no later `created_at`, whichever publishes fail, as long as what arrives was created later. |
| `SqlRelays.PassedBy` | src/krossdb/events/outbox.py:112-119 | A batch that does not fetch an eligible record takes `batch_size` attempts off the records no younger than it. |
| `SqlRelays.SqlBatchReducesWork` | src/krossdb/events/relay.py:65-91 | Over any set of rows the attempts left fall by at least the number of its rows that were fetched, whichever publishes fail. |
| `SqlRelays.DrainTerminates` | src/krossdb/events/relay.py:3-7 | Without new saves, as many batches as there are attempts left drain the table: then every row is published or has exactly `max_attempts`. |
| `SqlRelays.PublishedLeave` | src/krossdb/events/relay.py:65-91 | A batch takes exactly the rows it published off the unpublished ones. |
| `SqlRelays.BackToBackBound` | src/krossdb/events/relay.py:93-117 | With no new saves `run` goes straight on at most unpublished / batch_size times, batches that raise included. |
| `SqlRelays.StraightOnIff` | src/krossdb/events/relay.py:106-117 | The same on the SQL table. |
| `OutboxRecords.MarkAllAt` | src/krossdb/events/outbox.py:45-50 | Marking a list of ids marks exactly those records, once each, however often an id is listed. |
| `OutboxRecords.CountAllAt` | src/krossdb/events/outbox.py:52-56 | Counting a list of ids adds to each record one attempt for every occurrence of its id. |
| `InMemoryStores.InMemoryOutboxStore.Save` | src/krossdb/events/outbox.py:30-32 | The loop saves in order: in place for a known id, at the end for a new one. |
| `InMemoryStores.InMemoryOutboxStore.FetchUnpublished` | src/krossdb/events/outbox.py:34-43 | The oldest eligible records up to the limit, or the error for invalid arguments. |
| `InMemoryStores.InMemoryOutboxStore.MarkPublished` | src/krossdb/events/outbox.py:45-50 | New contents as `MarkAll` of the old ones. |
| `InMemoryStores.InMemoryOutboxStore.RecordFailedAttempts` | src/krossdb/events/outbox.py:52-56 | New contents as `CountAll` of the old ones. |
| `SqlStore.FrontOnlyIff` | src/krossdb/events/outbox.py:112-119 | Over distinct records the query's order and limit allow the front of the list and nothing else iff each of the first `limit` records is strictly older than all that follow it. |
| `SqlStore.FetchesAgreeIff` | src/krossdb/events/outbox.py:108-123 | After any history that saves fresh ids, in whatever creation order, and counts no record twice in one call, the SQL query allows exactly the in-memory fetch iff each of the first `limit` eligible records saved is strictly older than the eligible ones saved after it. |
| `SqlStore.CountsAgreeIff` | src/krossdb/events/outbox.py:151-161 | The two stores count the same failures for a record iff the list names it at most once. |
| `SqlStore.StepKeepsSame` | src/krossdb/events/outbox.py:137-161 | Saves of fresh ids, marks, and failure counts that name no stored record twice keep the in-memory store and the table the same. |
| `OutboxInserts.StepsAgreeIff` | src/krossdb/events/outbox.py:30-161 | From stores that agree, an operation goes through on both and leaves them in agreement iff a save brings fresh, distinct ids and a list of failures names no stored record twice. |
| `OutboxInserts.SavingAgain` | src/krossdb/events/outbox.py:30-32 | Saving a known id fails in SQL; in memory it replaces the record in place, and what is saved is fetched again although the event was published before. |
| `SqlStore.FetchesAgree` | src/krossdb/events/outbox.py:108-123 | In particular after any history that saves in strictly increasing creation order a result is allowed by the SQL query iff it is the in-memory store's. |
| `SqlStore.TiesAreOpen` | src/krossdb/events/outbox.py:112-119 | With equal creation times the SQL query also allows a result the in-memory store does not return. |
| `StoreSimulation.PublicationsAgree` | src/krossdb/events/relay.py:65-91 | Whatever allowed results the queries return, a relay on the SQL store publishes the same ids in the same order as on the in-memory store, over whole runs with saves in between. |
| `AtomicBlocks.BlocksAreAtomic` | src/krossdb/interfaces/unit_of_work.py:58-95 | On every exit path, for any body with nested blocks and with statements that fail, caught by the body or not: the committed state is as it was (but for what nested blocks committed) or has all the rows the body's text writes and exactly one unpublished zero-attempt row for each event it registers; the latter iff the block commits, which is iff `commit` raises nothing. |
| `BlockMeaning.BodyContributesItsText` | src/krossdb/interfaces/unit_of_work.py:106-109 | Read off the caller's text: when a body raises, what its nested blocks leave, and that otherwise it has pending exactly its successful statements' rows and its registered events, in order. |
| `BlockMeaning.BlockDoesWhatItSays` | src/krossdb/interfaces/unit_of_work.py:58-95 | For every block, store and fault: when it raises, and the exact state it leaves, by a definition that follows the documentation and not the code. |
| `AtomicBlocks.NothingIsVisibleBefore` | src/krossdb/interfaces/unit_of_work.py:76-87 | A block without nested blocks that does not commit leaves the committed state unchanged. |
| `AtomicBlocks.RollbackAssertionFailsIff` | src/krossdb/uow/sqlalchemy_uow.py:79-85 | The assertion in `_rollback` fails exactly when the caller's own `rollback()` failed in the driver: the block's exit then rolls back a second time. |
| `AtomicBlocks.InMemoryStoreIsAtomicIff` | src/krossdb/uow/sqlalchemy_uow.py:50-63 | With an in-memory outbox store the block is all or nothing unless the commit fails after events were saved and there were writes to go with them. |
| `OutboxInserts.InsertMeaning` | src/krossdb/events/outbox.py:75-90 | Inserting the records succeeds iff their ids are new and distinct, and then adds exactly one row for each. |
| `UnitsOfWork.SQLAlchemyAdapter.Execute` | src/krossdb/adapters/relational/base.py:161-187 | A write goes to the bound session if there is one and commits on its own otherwise, or leaves no trace when the statement or that commit fails. |
| `UnitsOfWork.SQLAlchemyAdapter.SaveAllOn` | src/krossdb/events/outbox.py:75-90 | On a session with any rows of its own the insert loop succeeds iff no insert is hit by a fault and no primary key is taken, and then the records are pending after them. |
| `UnitsOfWork.SQLAlchemyAdapter.Save` | src/krossdb/events/outbox.py:75-92 | On the bound session, or in a transaction of its own: then all records are committed or none. |
| `UnitsOfWork.UnitOfWork.Enter` | src/krossdb/interfaces/unit_of_work.py:48-56 | Entering twice is rejected; otherwise a fresh session is bound, unless opening the transaction fails. |
| `UnitsOfWork.UnitOfWork.FlushEvents` | src/krossdb/interfaces/unit_of_work.py:111-123 | Events are persisted all or the call fails; a missing store is an error, never a silent loss. |
| `UnitsOfWork.UnitOfWork.CommitSession` | src/krossdb/uow/sqlalchemy_uow.py:71-77 | Everything pending becomes visible or nothing does; either way the session is closed and the earlier binding is back. |
| `UnitsOfWork.UnitOfWork.RollbackSession` | src/krossdb/uow/sqlalchemy_uow.py:79-85 | Nothing pending becomes visible, the session is closed and the earlier binding is back, even when the driver fails. |
| `UnitsOfWork.UnitOfWork.Teardown` | src/krossdb/uow/sqlalchemy_uow.py:87-93 | The session is closed and the binding it replaced is restored. |
| `UnitsOfWork.UnitOfWork.Commit` | src/krossdb/interfaces/unit_of_work.py:74-95 | Flush, then commit; on a failing flush the session is rolled back. Finished in every case, committed only without an error. A later commit in the same block always fails, yet persists events registered since, outside the unit's transaction. |
| `UnitsOfWork.UnitOfWork.Rollback` | src/krossdb/interfaces/unit_of_work.py:97-102 | Rolls back and finishes; a driver failure leaves the block unfinished but torn down. |
| `UnitsOfWork.UnitOfWork.Exit` | src/krossdb/interfaces/unit_of_work.py:58-72 | What was not finished is rolled back; inactive afterwards on every path. |
| `UnitsOfWork.UnitOfWork.RunBody` | src/krossdb/interfaces/unit_of_work.py:8-15 | The objects have pending exactly what the body's text writes and registers, and stay open. |
| `UnitsOfWork.RunBlock` | src/krossdb/interfaces/unit_of_work.py:48-102 | The objects raise when the block's meaning says so and leave the state it says, and the binding from before the block is restored, at any nesting depth. |
| `BreakerRuns.ProbeCounterBounds` | src/krossdb/resilience/circuit_breaker.py:97-126 | In every reachable half-open state 0 <= counter <= limit, counter <= probes outstanding, and the difference is exactly the slots freed by calls of earlier eras less the probes abandoned at zero; so the counter is exact iff these balance. |
| `BreakerRuns.CounterStaysExactIff` | src/krossdb/resilience/circuit_breaker.py:105-126 | An exact counter stays exact at the next event unless that is the abandonment of a call of an earlier era while a slot is taken. |
| `BreakerRuns.StaleCancellationBreaksTheLimit` | src/krossdb/resilience/circuit_breaker.py:121-126 | A run with limit 1 and nothing of an earlier era outstanding in which two probes are in flight. |
| `BreakerRuns.NeverWedged` | src/krossdb/resilience/circuit_breaker.py:83-103 | With no call outstanding, a call is rejected exactly while the breaker is open and younger than the timeout, and `allows_calls` says the same beforehand. |
| `BreakerRuns.AdmittedIff` | src/krossdb/resilience/circuit_breaker.py:83-103 | In every reachable state a call is admitted unless the breaker is open and younger than the timeout or half-open with all slots taken, and the rejection says which. |
| `BreakerRuns.AdmissionLeaves` | src/krossdb/resilience/circuit_breaker.py:83-103 | An admission leaves a closed breaker as it is and takes a probe slot otherwise. |
| `BreakerRuns.SuccessCloses` | src/krossdb/resilience/circuit_breaker.py:105-110 | One success closes a half-open breaker with nothing counted, and the next call is admitted whenever it comes. |
| `BreakerRuns.FailureReopens` | src/krossdb/resilience/circuit_breaker.py:112-116 | One failure opens it again for exactly one timeout. |
| `BreakerRuns.OneSuccessRecovers` | src/krossdb/resilience/circuit_breaker.py:83-110 | From any reachable state with nothing outstanding, one call once the timeout has passed is admitted and its success leaves the breaker closed. |
| `BreakerRuns.LateReportsChangeNothing` | src/krossdb/resilience/circuit_breaker.py:105-119 | A report that comes while the breaker is open neither closes it nor keeps it open longer. |
| `BreakerRuns.AbandonmentDecidesNothing` | src/krossdb/resilience/circuit_breaker.py:121-126 | A cancelled call changes neither the state nor the count of failures. |
| `GuardReports.EndingDecides` | src/krossdb/resilience/circuit_breaker.py:140-153 | What each ending of a guarded block does to a closed and to a half-open breaker, given the failure types. |
| `GuardReports.OtherTypesNeverOpen` | src/krossdb/resilience/circuit_breaker.py:133-138 | Any number of exceptions outside the failure types leaves a closed breaker closed with nothing counted and closes a half-open one. |
| `GuardReports.CountedTypesOpenIff` | src/krossdb/resilience/circuit_breaker.py:112-119 | Counted exceptions in a row open a closed breaker iff they reach the threshold. |
| `BreakerRuns.AssertionsHold` | src/krossdb/resilience/circuit_breaker.py:65-68 | Both assertions that `_opened_at` is set hold in every reachable state. |
| `BreakerRuns.FailureCountIsTheRun` | src/krossdb/resilience/circuit_breaker.py:105-119 | While closed, the failure count is the number of counted failures reported since the last success, and below the threshold. |
| `BreakerRuns.OpensExactlyAtTheThreshold` | src/krossdb/resilience/circuit_breaker.py:112-119 | A closed breaker opens exactly on the threshold-th consecutive counted failure and records that moment. |
| `BreakerRuns.NothingAdmittedWhileRecovering` | src/krossdb/resilience/circuit_breaker.py:85-95 | No call is admitted within the recovery timeout of any earlier opening. |
| `BreakerRuns.OpeningsSpaced` | src/krossdb/resilience/circuit_breaker.py:70-103 | Openings are at least a recovery timeout apart, cumulatively. |
| `BreakerRuns.HalfOpenErasBound` | src/krossdb/resilience/circuit_breaker.py:83-95 | Half-open eras number at most floor((now - first opening) / timeout). |
| `BreakerRuns.ProbeTimeBound` | src/krossdb/resilience/circuit_breaker.py:70-103 | Half-open admissions are at most the limit times floor((now - first opening) / timeout) plus the slots freed by abandonments, in every concurrent run. |
| `BreakerRuns.Reachable` | src/krossdb/resilience/circuit_breaker.py:83-126 | The slot, clock and probe invariants hold after every run. |
| `CircuitBreakers.CircuitBreaker.AllowsCalls` | src/krossdb/resilience/circuit_breaker.py:57-68 | The lock-free answer, as the value model gives it. |
| `CircuitBreakers.CircuitBreaker.MoveTo` | src/krossdb/resilience/circuit_breaker.py:70-81 | The fields after a transition. |
| `CircuitBreakers.CircuitBreaker.BeforeCall` | src/krossdb/resilience/circuit_breaker.py:83-103 | Admission or rejection and the fields after it. |
| `CircuitBreakers.CircuitBreaker.OnSuccess` | src/krossdb/resilience/circuit_breaker.py:105-110 | The fields after a success report. |
| `CircuitBreakers.CircuitBreaker.OnFailure` | src/krossdb/resilience/circuit_breaker.py:112-119 | The fields after a failure report. |
| `CircuitBreakers.CircuitBreaker.OnAbandoned` | src/krossdb/resilience/circuit_breaker.py:121-126 | The fields after a cancelled call. |
| `CircuitBreakers.CircuitBreaker.Leave` | src/krossdb/resilience/circuit_breaker.py:140-153 | Which report the end of a guarded block makes. |
| `ResilientReads.MasterCallsStayOnTheMaster` | src/krossdb/adapters/relational/base.py:131-139 | A master call touches the master or nothing, and no other node's breaker. |
| `ResilientReads.RejectedIff` | src/krossdb/adapters/relational/base.py:161-187 | In any pool, whatever is in progress, a call is rejected iff it fell to the master and the master's breaker rejects it or it went to a replica at its probe limit. |
| `ResilientReads.ReadsAreRejectedByTheMasterOnly` | src/krossdb/adapters/relational/base.py:131-139 | A rejection of a read is the master's own iff the replica chosen is not at its probe limit. |
| `ResilientReads.ReadAttemptsAreRejectedByTheMasterOnly` | src/krossdb/adapters/relational/base.py:189-195 | In sequential use, every attempt of a retried read touches a node unless it fell to the master and the master rejected it. |
| `ResilientReads.BusyProbeRejectsAReadTheMasterCouldServe` | src/krossdb/resilience/circuit_breaker.py:65-66 | A replica at its probe limit rejects a read that the closed master would have served. |
| `ResilientReads.OutageTouchBound` | src/krossdb/resilience/circuit_breaker.py:57-119 | During a total outage of a single node over time T, any sequence of attempts touches it at most failure_threshold + floor(T / recovery_timeout) times. |
| `ResilientReads.OutageReadsBound` | src/krossdb/resilience/retry.py:76-95 | The same bound for any sequence of retried reads, each with its own retry settings. |
| `BalancedReads.ReadsFollowTheCycle` | src/krossdb/adapters/relational/base.py:131-139 | Whatever happens to the breakers between selections, the i-th read is offered the i-th result of the balancer's cycle; it goes there iff that replica's breaker allows calls then, and to the master otherwise. |
| `BalancedReads.ReadsAreFair` | src/krossdb/adapters/relational/routing.py:27-37 | While the replicas whose turn it is allow calls, any number of reads gives each replica its weighted share, within one weight. |
| `BalancedReads.AnsweredReadsTouchTheCycle` | src/krossdb/adapters/relational/base.py:161-195 | From a healthy adapter, reads that the nodes answer, constraint violations included, touch the replicas exactly in the balancer's order and leave every breaker closed. |
| `BalancedReads.AnsweredReadsAreFair` | src/krossdb/adapters/relational/base.py:161-195 | So their touches are within one weight of each replica's share. |
| `BalancedReads.TouchedIsChosen` | src/krossdb/adapters/relational/base.py:161-187 | A touched node is the one selected, no other node's breaker changes, and a node that answered has nothing counted against it. |
| `BalancedReads.MasterCallsKeepTheTurn` | src/krossdb/adapters/relational/base.py:131-139 | Master calls leave the balancer alone. |
| `BalancedReads.ReplicaRecovers` | src/krossdb/adapters/relational/base.py:161-187 | An open replica is closed again by the first read it answers after its timeout. |
| `BalancedReads.FailureClasses` | src/krossdb/resilience/circuit_breaker.py:34-38 | Which failures count against a node and which are retried by default. |
| `Retries.AttemptsAreBounded` | src/krossdb/resilience/retry.py:76-95 | The loop makes between one and `max_attempts` attempts; all but the last end in a failure that is retried, when it makes fewer the last does not, and it ends as its last attempt does. |
| `Retries.RejectionsAreRetriedOnlyIfListed` | src/krossdb/resilience/retry.py:68-86 | A breaker rejection is retried iff `retry_on` lists it, although the documentation says never. |
| `Retries.LoopIsItsAttempts` | src/krossdb/resilience/retry.py:76-95 | The loop leaves the state and touches the nodes, in order, of its attempts made one after the other. |
| `Retries.TasksAreTheirAttempts` | src/krossdb/resilience/retry.py:76-95 | So has a sequence of loops. |
| `Adapters.SQLAlchemyAdapter.SelectKey` | src/krossdb/adapters/relational/base.py:131-139 | The key chosen and the position of the balancer object, as on values. |
| `Adapters.SQLAlchemyAdapter.Acquire` | src/krossdb/adapters/relational/base.py:161-187 | The node touched, the ending and every breaker object afterwards, as on values. |
| `Adapters.SQLAlchemyAdapter.constructor` | src/krossdb/adapters/relational/base.py:79-101 | Every node gets a fresh breaker of its own, and the replicas a balancer over their weights. |
| `Adapters.SQLAlchemyAdapter.Enter` | src/krossdb/resilience/circuit_breaker.py:140-140 | The node's breaker admits or rejects, and no other breaker changes. |
| `Adapters.SQLAlchemyAdapter.Leave` | src/krossdb/resilience/circuit_breaker.py:141-153 | The node's breaker takes the report, and no other breaker changes. |
| `Adapters.SQLAlchemyAdapter.RunRead` | src/krossdb/resilience/retry.py:76-95 | The attempt loop on the breaker and balancer objects gives the outcome of the recursive `WithRetry`. |
| `LoadBalancing.WindowFairness` | src/krossdb/adapters/relational/routing.py:27-37 | Any window of total-weight many results, from any position, holds each key exactly as often as its weight. |
| `LoadBalancing.WeightedFairness` | src/krossdb/adapters/relational/routing.py:27-37 | Any n consecutive results hold key i between floor(n/W)*w and floor(n/W)*w + w times. |
| `LoadBalancing.WholeTurn` | src/krossdb/adapters/relational/routing.py:31-37 | A turn from any position is a rotation of the sequence and returns to that position. |
| `LoadBalancing.ExpandedCounts` | src/krossdb/adapters/relational/routing.py:27-29 | The expanded sequence holds each key as often as its weights sum to. |
| `LoadBalancing.LoadBalancer.Create` | src/krossdb/adapters/relational/routing.py:19-25 | Which arguments are rejected and with which error. |
| `LoadBalancing.LoadBalancer.constructor` | src/krossdb/adapters/relational/routing.py:27-32 | The loop builds the expanded sequence. |
| `LoadBalancing.LoadBalancer.Next` | src/krossdb/adapters/relational/routing.py:35-37 | The result and the new position are those of the cycle. |
| `Criteria.MatchesAll` | src/krossdb/interfaces/repository.py:124-127 | A specification is accepted iff every filter is. |
| `Criteria.MatchesStopsAtFirst` | src/krossdb/interfaces/repository.py:124-127 | The answer is that of the first filter that does not accept, a rejection or an exception. |
| `Criteria.RaisesIff` | src/krossdb/interfaces/repository.py:87-121 | A filter raises iff it orders a non-null field against something incomparable, or asks for membership in what is neither a list, a mapping nor, for a text, a text. |
| `Criteria.Negations` | src/krossdb/interfaces/repository.py:87-121 | Each filter and its negation give opposite answers or both raise. |
| `Criteria.TextOrder` | src/krossdb/interfaces/repository.py:99-106 | Texts compare by their first difference, and a text comes before its continuations. |
| `Criteria.SubstringMeans` | src/krossdb/interfaces/repository.py:111-112 | A text contains another iff it is that one with something before and after. |
| `Criteria.PythonValues` | src/krossdb/interfaces/repository.py:94-114 | Which values are falsy, and that a flag equals and is ordered as the number it stands for. |
| `Criteria.TypedNeverRaises` | src/krossdb/interfaces/repository.py:87-121 | On the typed fragment the evaluator never raises. |
| `MongoCompiler.CriteriaToQuery` | src/krossdb/repositories/document_repository.py:64-85 | The merge loop builds the query that `Compile` denotes. |
| `MongoCompiler.CompilePreservesMeaning` | src/krossdb/repositories/document_repository.py:64-85 | A document satisfies the merged query iff it satisfies every filter's own clause, for every meaning of the operators, if each merge the loop makes joins two operator documents or two empty ones: repeated fields, overlapping operators, scalar clashes and dicts that are never merged included. |
| `MongoCompiler.CompileIsExactIff` | src/krossdb/repositories/document_repository.py:64-85 | For filters that some document satisfies: the merged query means all of them, for every document and meaning of the operators, iff each merge is of that kind. |
| `MongoCompiler.MergeMeansBothIff` | src/krossdb/repositories/document_repository.py:72-80 | Merging two disjoint dicts means their conjunction, for all documents and operator meanings, iff both are operator documents or both are empty. |
| `MongoCompiler.EmptyDocumentIsLostInAMerge` | src/krossdb/repositories/document_repository.py:49-50 | An equality with an empty document disappears when a later operator on the field is merged into it. |
| `MongoCompiler.QueryAgreesWithEvaluator` | src/krossdb/repositories/document_repository.py:46-85 | On the typed fragment the compiled query selects exactly the documents the Python evaluator accepts. |
| `MongoCompiler.ContainsAgreesIff` | src/krossdb/repositories/document_repository.py:46-62 | CONTAINS agrees with the evaluator iff the server's match of the escaped pattern finds what the evaluator finds. |
| `SqlCompiler.ApplyCriteria` | src/krossdb/repositories/relational_repository.py:79-84 | The loop succeeds iff every filter has a condition, and then gives one for each, in order. |
| `SqlCompiler.NoConditionIff` | src/krossdb/repositories/relational_repository.py:45-76 | A filter has no condition iff it orders against None, True or False, or asks for membership in what is not a list. |
| `SqlCompiler.ChainAgreesExceptOnNulls` | src/krossdb/repositories/relational_repository.py:45-84 | Under three-valued logic the WHERE chain selects a row iff the evaluator accepts it and no NE or NOT_IN filter meets a null field in it. |
| `SqlCompiler.ConditionAgrees` | src/krossdb/repositories/relational_repository.py:45-73 | The same for one condition. |
| `SqlCompiler.IsNullAgreesIff` | src/krossdb/repositories/relational_repository.py:69-73 | An IS_NULL filter means the same in SQL and in the evaluator, on every row, iff its value is False or truthy. |
| `SqlCompiler.OmittedIsNullDisagrees` | src/krossdb/repositories/relational_repository.py:69-73 | With the value omitted, 0, empty text or an empty list it selects null fields in SQL and the others in the evaluator. |
| `SqlCompiler.ContainsAgreesIff` | src/krossdb/repositories/relational_repository.py:67-68 | CONTAINS agrees with the evaluator iff the database's LIKE finds what the evaluator finds; on a null field both reject. |
| `QdrantCompiler.CriteriaToFilter` | src/krossdb/repositories/vector_repository.py:47-55 | No filter for no criteria, otherwise the must and must_not lists of `AddConditions`. |
| `QdrantCompiler.FilterMeansEach` | src/krossdb/repositories/vector_repository.py:58-90 | The two lists together select the points that pass every filter they were compiled from. |
| `QdrantCompiler.FilterAgreesExceptInTraps` | src/krossdb/repositories/vector_repository.py:58-90 | On expressible criteria the compiled filter selects what the evaluator accepts unless a filter is in a trap, and each filter by itself agrees iff it is in none: NE on a stored null, or a field the payload does not hold of which the evaluator sees a value. |
| `QdrantCompiler.ContainsAgreesIff` | src/krossdb/repositories/vector_repository.py:58-90 | CONTAINS agrees with the evaluator iff the server's full-text match finds what the evaluator finds. |
| `VectorWrites.UpdateIsExactIff` | src/krossdb/repositories/vector_repository.py:147-167 | For any criteria and changes, `update` leaves the points, as they are read, and the reply of the reference iff not, on a point that is there: accepted and reached, and the criteria reject what was written or reading it back hides a new id or vector; accepted and not reached, and the changes would change it; reached and not accepted, and they did change it. |
| `VectorWrites.ReachedIff` | src/krossdb/repositories/vector_repository.py:117-126 | When the server reaches exactly what the evaluator accepts, by criterion: on a stored field unless NE meets null; on one not stored unless IS_NULL; on `id`, which the payload does not hold, unless NOT_IN lists it or EQ, NE or IN accepts it; on `vector` always. |
| `VectorWrites.HiddenIff` | src/krossdb/repositories/vector_repository.py:122-126 | Reading back shows the changes iff they name neither id nor vector with a new value. |
| `VectorWrites.TenantGuardKeepsUpdateExact` | src/krossdb/multitenancy/context.py:107-114 | In a tenant's scope the tenant filter never goes wrong: only the caller's further criteria or a new id or vector can, and without criteria `update` succeeds iff the point exists and is the tenant's. |
| `VectorWrites.SelfDefeatingUpdateIsReportedMissing` | src/krossdb/repositories/vector_repository.py:158-167 | A change that breaks its own criterion is written and then reported as not found. |
| `VectorWrites.NeOnNullReportsAWriteThatDidNotHappen` | src/krossdb/repositories/vector_repository.py:64-67 | Where NE meets a null field nothing is written and success is reported. |
| `VectorWrites.CriteriaOnTheIdGoWrong` | src/krossdb/repositories/vector_repository.py:147-167 | Under EQ on the id nothing is written and success is reported; under NOT_IN a rejected point is written and reported missing. |
| `VectorWrites.NewVectorIsNotStored` | src/krossdb/repositories/vector_repository.py:117-126 | An update to a new vector reports success with the old one. |
| `VectorWrites.DeleteRefinesReference` | src/krossdb/repositories/vector_repository.py:169-180 | `delete` removes the point iff the server's filter reaches it and says truthfully whether it did; it is the reference's `delete` iff the evaluator, not raising, answers as the filter does. |
| `VectorWrites.ScopedBulkDeleteRefinesReference` | src/krossdb/repositories/vector_repository.py:261-279 | Scoped `bulk_delete` removes the points retrieved as accepted that the filter reaches and counts the accepted ones; it is the reference's iff each targeted point is accepted without its vector iff with it, and reached if accepted. |
| `VectorWrites.BulkDeleteCountsADeleteThatDidNotHappen` | src/krossdb/repositories/vector_repository.py:266-279 | Where NE meets a null field scoped `bulk_delete` removes nothing and counts one, `delete` reports nothing removed, and the reference removes the point; under EQ on the id `bulk_delete` does the same. |
| `VectorWrites.UnscopedBulkDeleteCountsIff` | src/krossdb/repositories/vector_repository.py:251-259 | Unscoped `bulk_delete` removes the same points; its count is exact iff every id is present and none repeats. |
| `VectorWrites.RaisingCriteria` | src/krossdb/repositories/vector_repository.py:147-279 | Where the evaluator raises, `update` raises after its write, `delete` never does, and a scoped `bulk_delete` raises and removes nothing. |
| `VectorWrites.ReferenceBulkMeaning` | tests/conftest.py:119-126 | The reference `bulk_delete` removes the accepted ids and counts each once. |
| `VectorRepositories.QdrantRepository.Update` | src/krossdb/repositories/vector_repository.py:147-167 | The collection and the reply, as on values. |
| `VectorRepositories.QdrantRepository.Delete` | src/krossdb/repositories/vector_repository.py:169-180 | The collection and the reply, as on values. |
| `VectorRepositories.QdrantRepository.Owned` | src/krossdb/repositories/vector_repository.py:267-272 | The retrieve round trip finds exactly the accepted ids that are present, or raises as the evaluator does. |
| `VectorRepositories.QdrantRepository.BulkDelete` | src/krossdb/repositories/vector_repository.py:248-279 | The collection and the count, as on values. |
| `Inserts.FailsIff` | src/krossdb/repositories/relational_repository.py:234-247 | Item i fails iff it collides with a starting row or with an earlier item that succeeded. |
| `Inserts.ConflictsOnOne` | src/krossdb/repositories/relational_repository.py:234-247 | A single unique column is broken by exactly the rows with the same non-null value. |
| `Inserts.NullsDoNotConflict` | src/krossdb/repositories/relational_repository.py:234-247 | A row with a null in each constraint conflicts with nothing. |
| `Inserts.OutcomesPartition` | src/krossdb/repositories/relational_repository.py:231-248 | Succeeded and failed split the indices; the rows are the starting rows followed by the successes in order. |
| `Inserts.InsertEachKeepsUnique` | src/krossdb/repositories/relational_repository.py:234-247 | Unique rows stay unique. |
| `Sessions.SqlSession.BulkCreate` | src/krossdb/repositories/relational_repository.py:228-248 | The savepoint loop is sequential insertion: earlier pending rows survive every failure, the transaction is not broken, and a later rollback restores the rows of its beginning. |
| `Sessions.SqlSession.Insert` | src/krossdb/repositories/relational_repository.py:241-244 | A conflicting insert breaks the transaction and changes no row. |
| `Sessions.SqlSession.InsertNested` | src/krossdb/repositories/relational_repository.py:236-247 | One item in its savepoint goes in iff it collides with no row, and the transaction works either way. |
| `Sessions.SqlSession.RollbackToSavepoint` | src/krossdb/repositories/relational_repository.py:236-240 | Back to the rows at the savepoint, and the transaction works again. |
| `TenantScope.OthersUntouched` | src/krossdb/multitenancy/context.py:93-168 | Whatever a tenant calls, every other tenant's rows stay as they are. |
| `TenantScope.RepliesAreLocal` | src/krossdb/multitenancy/context.py:93-168 | The reply to any call, and the tenant's rows after it, are those on the tenant's own rows alone, as long as the call asks for no key that another tenant has. |
| `TenantScope.UpdateIsLocalIff` | src/krossdb/multitenancy/context.py:107-114 | An update's effect depends only on own rows iff it does not move a row to a primary key another tenant has. |
| `TenantScope.BulkUpdateIsLocalIff` | src/krossdb/multitenancy/context.py:150-161 | `bulk_update` depends only on own rows after each of its updates iff none of them moves a row to a key another tenant has by then. |
| `TenantScope.BulkCreateIsLocalIff` | src/krossdb/multitenancy/context.py:136-148 | `bulk_create` depends only on own rows iff no other tenant has the key of any of its items. |
| `TenantScope.CreateIsLocalIff` | src/krossdb/multitenancy/context.py:96-105 | A create's reply depends only on own rows iff no other tenant has the primary key. |
| `TenantScope.MovedRowIsReportedMissingIff` | src/krossdb/repositories/relational_repository.py:151-176 | `update` writes and yet raises record-not-found iff its chain selects the row and the changes move it to another key, which is free. |
| `TenantScope.KeysStayDistinct` | src/krossdb/multitenancy/context.py:93-168 | Primary keys stay distinct. |
| `TenantScope.Noninterference` | src/krossdb/multitenancy/context.py:42-168 | In any interleaved run in which a tenant never asks for a key that another has at that moment, its replies and final rows are what its own calls alone give on its own rows. |
| `TenantScope.CreatorsForever` | src/krossdb/multitenancy/context.py:42-55 | Every row carries the tenant that created it, after every run. |
| `TenantScope.ScopedChainSelectsOnlyOwn` | src/krossdb/multitenancy/context.py:69-77 | Criteria with the tenant filter appended select own rows only. |
| `ScopedOperations.NoScopeNoAccess` | src/krossdb/multitenancy/context.py:79-168 | Outside a tenant's scope every operation fails and nothing changes; only `get_by_id` of a key that no row has finds nothing instead. |
| `ScopedOperations.GetMeans` | src/krossdb/multitenancy/context.py:79-94 | `get_by_id` finds the row with the key iff it is the tenant's. |
| `ScopedOperations.CreateMeans` | src/krossdb/multitenancy/context.py:96-105 | `create` appends the entity with the tenant's stamp unless it carries another's or its key is taken; then nothing changes. |
| `ScopedOperations.UpdateFails` | src/krossdb/multitenancy/context.py:107-114 | When an `update` changes nothing, and the error for each reason. |
| `ScopedOperations.UpdateMeans` | src/krossdb/multitenancy/context.py:107-114 | Otherwise it merges the changes into the tenant's row with the key that satisfies every criterion, and leaves every other row as it is. |
| `ScopedOperations.DeleteMeans` | src/krossdb/multitenancy/context.py:116-119 | A row goes iff it is the tenant's, has the key and satisfies every criterion; the others keep their order, and the reply says whether one went. |
| `ScopedOperations.BulkDeleteMeans` | src/krossdb/multitenancy/context.py:163-168 | A row goes iff it is the tenant's, its key is listed and it satisfies every criterion; the count is that of the rows that went. |
| `ScopedOperations.FindMeans` | src/krossdb/multitenancy/context.py:121-131 | A page is the asked-for part of exactly the tenant's rows that satisfy every criterion, as the database orders them, with their number. |
| `ScopedOperations.CountMeans` | src/krossdb/multitenancy/context.py:133-134 | `count` counts exactly these rows. |
| `ScopedOperations.BatchIsRejected` | src/krossdb/multitenancy/context.py:136-161 | One foreign stamp or one reassignment rejects the whole batch. |
| `ScopedOperations.BulkCreateIsEachCreate` | src/krossdb/repositories/relational_repository.py:228-248 | Otherwise `bulk_create` is its single creates one after the other, with their outcomes. |
| `ScopedOperations.BulkUpdateIsEachUpdate` | src/krossdb/repositories/relational_repository.py:250-263 | `bulk_update` is its single updates one after the other, with their outcomes; only a criterion without a condition ends it early. |
| `ScopedRepositories.SQLAlchemyRepository.Update` | src/krossdb/repositories/relational_repository.py:151-176 | Table and reply of update with readback, as on values. |
| `ScopedRepositories.SQLAlchemyRepository.BulkUpdate` | src/krossdb/repositories/relational_repository.py:250-263 | Table and outcomes of the loop, as on values. |
| `ScopedRepositories.TenantScopedRepository.Create` | src/krossdb/multitenancy/context.py:96-105 | Table and reply of the scoped call, as on values. |
| `ScopedRepositories.TenantScopedRepository.Update` | src/krossdb/multitenancy/context.py:107-114 | Table and reply of the scoped call, as on values. |
| `ScopedRepositories.TenantScopedRepository.Delete` | src/krossdb/multitenancy/context.py:116-119 | Table and reply of the scoped call, as on values. |
| `ScopedRepositories.TenantScopedRepository.BulkCreate` | src/krossdb/multitenancy/context.py:136-148 | Table and reply of the scoped call; one foreign stamp rejects the batch. |
| `ScopedRepositories.TenantScopedRepository.BulkUpdate` | src/krossdb/multitenancy/context.py:150-161 | Table and reply of the scoped call; one reassignment rejects the batch. |
| `ScopedRepositories.TenantScopedRepository.BulkDelete` | src/krossdb/multitenancy/context.py:163-168 | Table and reply of the scoped call, as on values. |
| `Idempotency.AtMostOneOperationPerKey` | src/krossdb/core/idempotency.py:68-74 | All calls in progress for a key share one lock, whatever the weak dictionary dropped, and at most one of them is past it. |
| `Idempotency.ExecutionsOutliveTheirEntry` | src/krossdb/core/idempotency.py:74-88 | Between two cached executions of one key, the first one's entry expired. |
| `Idempotency.FinishedOperations` | src/krossdb/core/idempotency.py:85-88 | In every run, the operations of a key that finished are its cached executions, plus those whose cache write raised or was cancelled, plus one if a call is writing now. |
| `Idempotency.UnstoredRunsAgain` | src/krossdb/core/idempotency.py:49-56 | After a call whose cache write raised or was cancelled, the next one for the key runs its own operation to the end. |
| `Idempotency.ReplayReturnsTheLastExecution` | src/krossdb/core/idempotency.py:75-83 | A caller with the same fingerprint gets the result of the last cached execution, one with another gets a conflict. |
| `Idempotency.RepliesAreResults` | src/krossdb/core/idempotency.py:74-88 | Over any run a caller is told its own operation's result; or that of an operation run for the same key and fingerprint; or a conflict, and then one was run for the key with another fingerprint; or its own failure. |
| `Idempotency.ExecutionsRan` | src/krossdb/core/idempotency.py:85-88 | Every cached execution is an operation some call asked for, with the result it returned. |
| `Idempotency.StoppingFreesTheKey` | src/krossdb/core/idempotency.py:74-85 | A raising or cancelled operation caches nothing and lets the next waiting call go on at once. |
| `Idempotency.WaitersAreNotStranded` | src/krossdb/core/idempotency.py:70-74 | A waiting call can take the lock or its holder is a call in progress for the same key. |
| `Idempotency.AloneIsARun` | src/krossdb/core/idempotency.py:63-88 | With no other call in progress, a call gets through its awaits and ends as `Alone` says. |
| `IdempotencyManagers.IdempotencyManager.Run` | src/krossdb/core/idempotency.py:63-88 | The cache and the reply of an uncontended call; an empty key is rejected and changes nothing. |
| `ConnectionFactory.DatabaseFactory.ConnectAll` | src/krossdb/factory/db_factory.py:87-109 | All or none: on a failure the factory is empty and of the adapters made on the way exactly those stay live whose disconnect raises; of those it held before also the ones whose names were connected again stay live, out of its reach. |
| `ConnectionFactory.DatabaseFactory.DisconnectAll` | src/krossdb/factory/db_factory.py:118-125 | Everything the factory holds is released but what a raising disconnect leaves live. |
| `ConnectionFactory.DatabaseFactory.Create` | src/krossdb/factory/db_factory.py:80-85 | Duplicate names are rejected. |

## Left out

- Drivers, connection pools, SQLAlchemy, Motor, Qdrant and Redis clients: only the table, document, point and lock semantics stated above.
- Locks on dialects without SKIP LOCKED (SQLite): the pipeline assumes they exist, as the store's documentation does.
- A commit that reaches the database although the client sees an error: to the pipeline it is a commit.
- A second finish inside a caller's block in the run of a whole block: the single calls are modelled, blocks finish at most once.
- SqlRelays.HeadOfLineDelay: one relay whose batches commit; what arrives was created later than the record waiting.
- Databases that refuse every further statement once one has failed: a body that catches a failed write goes on here.
- Unit-of-work blocks that do not finish in nested order, and use of one unit by several tasks.
- The constructor check that a SQL outbox store belongs to the unit's adapter: `Transactional` stores do.
- The breaker's bookkeeping cancelled half-way, and its `call` wrapper around `guard`.
- Backoff durations: only how many attempts are made and whether another one follows.
- Calls that overlap on one adapter object: `RejectedIff` covers pools with calls in progress, the retry loop is sequential. Reads inside a unit of work, which are not retried; `_verify_node` and health checks.
- What each database's text match finds: CONTAINS is outside the fragment of the agreement theorems, and `ContainsAgreesIff` says for each backend exactly when it agrees.
- Array-valued fields, text collation, unknown columns, and updates with no changes.
- MongoCompiler.CompileIsExactIff: filters that no document satisfies, for which a wrong merge need not show.
- SqlCompiler.ChainAgreesExceptOnNulls: membership lists without null items and non-null range bounds only.
- QdrantCompiler.FilterAgreesExceptInTraps: filters a Qdrant condition can express (typed, equality with a value, numeric bounds); the client refuses to build others. The theorems on writes hold for any criteria, in sequential use.
- VectorWrites.ScopedBulkDeleteRefinesReference: criteria that raise on a targeted point, where the reference has deleted some points before it raises and the repository none.
- VectorWrites.ReferenceBulkMeaning: the same.
- IdempotencyManagers.IdempotencyManager.Run: the object serves one task at a time and has no lock dictionary; interleaved tasks, locks and the weak dictionary are in the runs of `Idempotency`.
- Pagination of Qdrant's `scroll`.
- TenantScope.Noninterference: relational table with a primary key, each operation atomic; runs in which the tenant asks for a key another tenant has are excluded, because they do interfere (`CreateIsLocalIff`, `UpdateIsLocalIff` and their bulk forms).
- Tenant scoping over the vector repository's `create`, which is an upsert.
- Hashing and JSON encoding in the idempotency manager: fingerprints are compared as given, results come back as stored; several workers; caches that evict entries early.
- What ORDER BY does: any arrangement of the rows found. Vector search and the document repository's writes.
- Adapter classes and their registry in the factory: an adapter that cannot be resolved is one outcome of connecting.
- Logging, metrics, tracing, audit, settings, exception mapping, schema tools, the CLI, `cache_aside` and the event dispatcher.
