/** What the pipeline's state is, read off the events that led to it: no function here looks at a state. */
module OutboxText {
  import opened Wrappers
  import opened OutboxRecords
  import opened PipelineModel

  /** The events since the unit of work `tx` began. */
  function SinceBegin(trace: seq<Event>, tx: Tx): seq<Event> {
    if trace == [] then [] else
    var n := |trace| - 1;
    if trace[n] == Begin(tx) then [] else SinceBegin(trace[..n], tx) + [trace[n]]
  }

  /** The rows that `tx` writes in these events, in order. */
  function RowsOf(events: seq<Event>, tx: Tx): seq<string> {
    if events == [] then [] else
    var n := |events| - 1;
    RowsOf(events[..n], tx) + if events[n].Write? && events[n].tx == tx then [events[n].row] else []
  }

  /** The records of the domain events that `tx` registers in them, in order. */
  function RecordsOf(events: seq<Event>, tx: Tx): seq<Record> {
    if events == [] then [] else
    var n := |events| - 1;
    var e := events[n];
    RecordsOf(events[..n], tx) + if e.Register? && e.tx == tx then [Record(e.id, e.payload, e.at, None, 0)] else []
  }

  function FlushesOf(events: seq<Event>, tx: Tx): nat {
    if events == [] then 0 else
    var n := |events| - 1;
    FlushesOf(events[..n], tx) + if events[n] == Flush(tx) then 1 else 0
  }

  /** The unit of work `tx` has begun and not ended since. */
  predicate Writing(trace: seq<Event>, tx: Tx) {
    trace != [] &&
    var n := |trace| - 1;
    if trace[n] == Begin(tx) then true else if trace[n] in {Commit(tx), Rollback(tx)} then false else Writing(trace[..n], tx)
  }

  /** All that committed units of work wrote, in commit order. */
  function CommittedRows(trace: seq<Event>): seq<string> {
    if trace == [] then [] else
    var n := |trace| - 1;
    CommittedRows(trace[..n]) + if trace[n].Commit? then RowsOf(SinceBegin(trace[..n], trace[n].tx), trace[n].tx) else []
  }

  /** The records of all that they registered. */
  function CommittedRecords(trace: seq<Event>): seq<Record> {
    if trace == [] then [] else
    var n := |trace| - 1;
    CommittedRecords(trace[..n]) + if trace[n].Commit? then RecordsOf(SinceBegin(trace[..n], trace[n].tx), trace[n].tx) else []
  }

  /** The events since the batch `tx` was claimed. */
  function SinceClaim(trace: seq<Event>, tx: Tx): seq<Event> {
    if trace == [] then [] else
    var n := |trace| - 1;
    if trace[n].Claim? && trace[n].tx == tx then [] else SinceClaim(trace[..n], tx) + [trace[n]]
  }

  /** What the batch's relay was made with. */
  function ConfigOf(trace: seq<Event>, tx: Tx): Option<Config> {
    if trace == [] then None else
    var n := |trace| - 1;
    if trace[n].Claim? && trace[n].tx == tx then Some(trace[n].config) else ConfigOf(trace[..n], tx)
  }

  /** The batch `tx` has been claimed and not ended since. */
  predicate Relaying(trace: seq<Event>, tx: Tx) {
    trace != [] &&
    var n := |trace| - 1;
    if trace[n].Claim? && trace[n].tx == tx then true
    else if trace[n] in {CommitBatch(tx), Abort(tx)} then false else Relaying(trace[..n], tx)
  }

  /** The ids that the batch's query returned. */
  function FetchedIn(events: seq<Event>, tx: Tx): seq<Id> {
    if events == [] then [] else
    var n := |events| - 1;
    if events[n].Fetch? && events[n].tx == tx then Ids(events[n].records) else FetchedIn(events[..n], tx)
  }

  /** How its publishes went, in order. */
  function ResultsIn(events: seq<Event>, tx: Tx): seq<bool> {
    if events == [] then [] else
    var n := |events| - 1;
    ResultsIn(events[..n], tx) + if events[n] == PublishOk(tx) then [true] else if events[n] == PublishFail(tx) then [false] else []
  }

  function MarkedIn(events: seq<Event>, tx: Tx): Option<int> {
    if events == [] then None else
    var n := |events| - 1;
    if events[n].Mark? && events[n].tx == tx then Some(events[n].now) else MarkedIn(events[..n], tx)
  }

  /** Of the first ids, those whose publish went as `wanted`. */
  function Picked(ids: seq<Id>, results: seq<bool>, wanted: bool): seq<Id> {
    if results == [] || |results| > |ids| then [] else
    var n := |results| - 1;
    Picked(ids, results[..n], wanted) + if results[n] == wanted then [ids[n]] else []
  }

  /** The ids the batch in progress has published, or failed to. */
  function PublishedBy(trace: seq<Event>, tx: Tx, ok: bool): seq<Id> {
    var events := SinceClaim(trace, tx);
    Picked(FetchedIn(events, tx), ResultsIn(events, tx), ok)
  }

  /** The id that its next publish is about. */
  function NextOf(trace: seq<Event>, tx: Tx): seq<Id> {
    var events := SinceClaim(trace, tx);
    var n := |ResultsIn(events, tx)|;
    if n < |FetchedIn(events, tx)| then [FetchedIn(events, tx)[n]] else []
  }

  /** Everything published, or tried in vain, in order. */
  function PublishLog(trace: seq<Event>, ok: bool): seq<Id> {
    if trace == [] then [] else
    var n := |trace| - 1;
    PublishLog(trace[..n], ok)
      + if (if ok then trace[n].PublishOk? else trace[n].PublishFail?) then NextOf(trace[..n], trace[n].tx) else []
  }

  /** How many batches that did not commit had that outcome for `id`. */
  function LostOutcomes(trace: seq<Event>, id: Id, ok: bool): nat {
    if trace == [] then 0 else
    var n := |trace| - 1;
    LostOutcomes(trace[..n], id, ok) + if trace[n].Abort? && id in PublishedBy(trace[..n], trace[n].tx, ok) then 1 else 0
  }
}

/** That the state is what the events say. */
module OutboxHistory {
  import opened Wrappers
  import opened OutboxRecords
  import opened SqlStore
  import opened PipelineModel
  import opened OutboxPipeline
  import opened OutboxText

  // ---------------------------------------------------------------- units of work

  lemma {:induction false} SinceOneMore(trace: seq<Event>, e: Event, tx: Tx)
    ensures SinceBegin(trace + [e], tx) == if e == Begin(tx) then [] else SinceBegin(trace, tx) + [e]
    ensures Writing(trace + [e], tx) == (e == Begin(tx) || (e != Commit(tx) && e != Rollback(tx) && Writing(trace, tx)))
    ensures SinceClaim(trace + [e], tx) == if e.Claim? && e.tx == tx then [] else SinceClaim(trace, tx) + [e]
    ensures Relaying(trace + [e], tx) ==
      ((e.Claim? && e.tx == tx) || (e != CommitBatch(tx) && e != Abort(tx) && Relaying(trace, tx)))
  {
    assert (trace + [e])[..|trace|] == trace;
  }

  lemma {:induction false} OneMoreEvent(events: seq<Event>, e: Event, tx: Tx)
    ensures RowsOf(events + [e], tx) == RowsOf(events, tx) + if e.Write? && e.tx == tx then [e.row] else []
    ensures RecordsOf(events + [e], tx)
      == RecordsOf(events, tx) + if e.Register? && e.tx == tx then [Record(e.id, e.payload, e.at, None, 0)] else []
    ensures FlushesOf(events + [e], tx) == FlushesOf(events, tx) + if e == Flush(tx) then 1 else 0
  {
    assert (events + [e])[..|events|] == events;
  }

  predicate WriterMatches(w: World, tx: Tx, writing: bool, since: seq<Event>) {
    && (tx in w.writers <==> writing)
    && (tx in w.writers ==> w.writers[tx] == Writer(RowsOf(since, tx), RecordsOf(since, tx), FlushesOf(since, tx)))
  }

  lemma {:induction false} OtherWriterStays(w: World, e: Event, tx: Tx, writing: bool, since: seq<Event>)
    requires Enabled(w, e) && WriterMatches(w, tx, writing, since) && e.tx != tx
    ensures WriterMatches(Apply(w, e), tx, writing, since + [e])
  {
    OneMoreEvent(since, e, tx);
    var v := Apply(w, e);
    assert tx in v.writers <==> tx in w.writers;
    assert tx in w.writers ==> v.writers[tx] == w.writers[tx];
  }

  /** Events of a unit of work that go on with it. */
  lemma {:induction false} WriterGoesOn(w: World, e: Event, writing: bool, since: seq<Event>)
    requires (e.Write? || e.Register? || e.Flush?) && Enabled(w, e) && WriterMatches(w, e.tx, writing, since)
    ensures WriterMatches(Apply(w, e), e.tx, writing, since + [e])
  {
    OneMoreEvent(since, e, e.tx);
  }

  /** Events that begin or end it, and a relay's under the same number. */
  lemma {:induction false} WriterBeginsOrEnds(w: World, e: Event, writing: bool, since: seq<Event>)
    requires !e.Write? && !e.Register? && !e.Flush? && Enabled(w, e) && WriterMatches(w, e.tx, writing, since)
    ensures WriterMatches(Apply(w, e), e.tx, e.Begin? || (!e.Commit? && !e.Rollback? && writing), if e.Begin? then [] else since + [e])
  {
    OneMoreEvent(since, e, e.tx);
  }

  lemma {:induction false} WriterStep(w: World, e: Event, tx: Tx, writing: bool, since: seq<Event>)
    requires Enabled(w, e) && WriterMatches(w, tx, writing, since)
    ensures WriterMatches(Apply(w, e), tx,
                          e == Begin(tx) || (e != Commit(tx) && e != Rollback(tx) && writing),
                          if e == Begin(tx) then [] else since + [e])
  {
    if e.tx != tx {
      OtherWriterStays(w, e, tx, writing, since);
    } else if e.Write? || e.Register? || e.Flush? {
      WriterGoesOn(w, e, writing, since);
    } else {
      WriterBeginsOrEnds(w, e, writing, since);
    }
  }

  /** A unit of work is in progress exactly if it has begun and not ended since, and then it holds exactly the rows it
      wrote and a fresh record of each event it registered since it began, in order. */
  lemma {:induction false} WriterIsItsEvents(trace: seq<Event>, tx: Tx)
    requires Valid(trace)
    ensures tx in Run(trace).writers <==> Writing(trace, tx)
    ensures tx in Run(trace).writers ==>
      var since, u := SinceBegin(trace, tx), Run(trace).writers[tx];
      u.writes == RowsOf(since, tx) && u.events == RecordsOf(since, tx) && u.flushed == FlushesOf(since, tx)
  {
    if trace != [] {
      var before, e := trace[..|trace| - 1], trace[|trace| - 1];
      assert trace == before + [e];
      WriterIsItsEvents(before, tx);
      SinceOneMore(before, e, tx);
      WriterStep(Run(before), e, tx, Writing(before, tx), SinceBegin(before, tx));
    }
  }

  lemma {:induction false} CommitAt(w: World, tx: Tx)
    requires WritersInv(w) && Enabled(w, Commit(tx))
    ensures var v, events := Apply(w, Commit(tx)), w.writers[tx].events;
      && (forall i :: 0 <= i < |events| ==> events[i].id !in w.rows && events[i].id in v.rows && v.rows[events[i].id] == events[i])
      && (forall id :: id in v.rows <==> id in w.rows || id in Ids(events))
      && (forall id :: id in w.rows ==> v.rows[id] == w.rows[id])
  {
    var events := w.writers[tx].events;
    CommittedEvents(w, tx);
    AddedKeys(w.rows, events);
    forall i | 0 <= i < |events|
      ensures events[i].id !in w.rows
      ensures events[i].id in Added(w.rows, events) && Added(w.rows, events)[events[i].id] == events[i]
    {
      AddedAt(w.rows, events, i);
      assert Ids(events)[i] == events[i].id;
    }
  }

  /** A commit adds what the unit of work wrote, and one unpublished, never attempted row for each event it registered;
      the rows there were stay as they are, and nothing else is added. */
  lemma {:induction false} CommitInstallsWhatWasRegistered(trace: seq<Event>, tx: Tx)
    requires Valid(trace) && Enabled(Run(trace), Commit(tx))
    ensures var w, v, since := Run(trace), Apply(Run(trace), Commit(tx)), SinceBegin(trace, tx);
      var records := RecordsOf(since, tx);
      && v.business == w.business + RowsOf(since, tx)
      && (forall i :: 0 <= i < |records| ==> records[i].id in v.rows && v.rows[records[i].id] == records[i])
      && (forall id :: id in v.rows <==> id in w.rows || id in Ids(records))
      && (forall id :: id in w.rows ==> v.rows[id] == w.rows[id])
  {
    Reachable(trace);
    WriterIsItsEvents(trace, tx);
    CommitAt(Run(trace), tx);
  }

  lemma {:induction false} LedgerOneMore(ledger: seq<Writer>, u: Writer)
    ensures Writes(ledger + [u]) == Writes(ledger) + u.writes && Events(ledger + [u]) == Events(ledger) + u.events
  {
    assert (ledger + [u])[..|ledger|] == ledger;
  }

  lemma {:induction false} LedgerIsTheCommits(trace: seq<Event>)
    requires Valid(trace)
    ensures Writes(Run(trace).ledger) == CommittedRows(trace) && Events(Run(trace).ledger) == CommittedRecords(trace)
  {
    if trace != [] {
      var before, e := trace[..|trace| - 1], trace[|trace| - 1];
      LedgerIsTheCommits(before);
      if e.Commit? {
        WriterIsItsEvents(before, e.tx);
        LedgerOneMore(Run(before).ledger, Run(before).writers[e.tx]);
      } else {
        LedgerSame(Run(before), e);
      }
    }
  }

  lemma {:induction false} LedgerSame(w: World, e: Event)
    requires Enabled(w, e) && !e.Commit?
    ensures Apply(w, e).ledger == w.ledger
  {
  }

  /** All or nothing over any run: the committed business data is what the committed units of work wrote, in commit
      order; the committed outbox has exactly one row for each event they registered, as it was registered but for its
      publication and attempts; and there is nothing of any other unit of work. */
  lemma {:induction false} WritersAreAtomic(trace: seq<Event>)
    requires Valid(trace)
    ensures var w, records := Run(trace), CommittedRecords(trace);
      && w.business == CommittedRows(trace)
      && NoRepeats(Ids(records))
      && w.rows.Keys == (set id | id in Ids(records))
      && (forall i :: 0 <= i < |records| ==> KeptAs(w.rows, records[i]))
  {
    LedgerIsTheDatabase(trace);
    LedgerIsTheCommits(trace);
  }

  // ---------------------------------------------------------------- batches

  lemma {:induction false} OneMoreOutcome(events: seq<Event>, e: Event, tx: Tx)
    ensures FetchedIn(events + [e], tx) == if e.Fetch? && e.tx == tx then Ids(e.records) else FetchedIn(events, tx)
    ensures ResultsIn(events + [e], tx)
      == if e == PublishOk(tx) then ResultsIn(events, tx) + [true]
         else if e == PublishFail(tx) then ResultsIn(events, tx) + [false] else ResultsIn(events, tx)
    ensures MarkedIn(events + [e], tx) == if e.Mark? && e.tx == tx then Some(e.now) else MarkedIn(events, tx)
  {
    assert (events + [e])[..|events|] == events;
  }

  lemma {:induction false} OneMorePicked(ids: seq<Id>, results: seq<bool>, result: bool, wanted: bool)
    requires |results| < |ids|
    ensures Picked(ids, results + [result], wanted)
      == Picked(ids, results, wanted) + if result == wanted then [ids[|results|]] else []
  {
    assert (results + [result])[..|results|] == results;
  }

  /** The batch as these events describe it. */
  ghost predicate BatchMatches(w: World, tx: Tx, relaying: bool, since: seq<Event>) {
    && (tx in w.relays <==> relaying)
    && (tx in w.relays ==>
          var b, ids, results := w.relays[tx], FetchedIn(since, tx), ResultsIn(since, tx);
          && b.fetched == ids && |results| == b.Done() <= |ids|
          && b.published == Picked(ids, results, true) && b.failed == Picked(ids, results, false)
          && (b.stage.Claimed? ==> ids == [] && results == [])
          && (b.stage.Marked? || b.stage.Counted? ==> MarkedIn(since, tx) == Some(b.stage.now)))
  }

  lemma {:induction false} OtherBatchesStay(w: World, e: Event, tx: Tx, relaying: bool, since: seq<Event>)
    requires Enabled(w, e) && BatchMatches(w, tx, relaying, since) && e.tx != tx
    ensures BatchMatches(Apply(w, e), tx, relaying, since + [e])
  {
    OneMoreOutcome(since, e, tx);
  }

  lemma {:induction false} PublishMatches(w: World, e: Event, relaying: bool, since: seq<Event>)
    requires (e.PublishOk? || e.PublishFail?) && Enabled(w, e) && BatchMatches(w, e.tx, relaying, since)
    ensures BatchMatches(Apply(w, e), e.tx, relaying, since + [e])
  {
    var ids, results := FetchedIn(since, e.tx), ResultsIn(since, e.tx);
    OneMoreOutcome(since, e, e.tx);
    OneMorePicked(ids, results, e.PublishOk?, true);
    OneMorePicked(ids, results, e.PublishOk?, false);
  }

  lemma {:induction false} FetchMatches(w: World, e: Event, relaying: bool, since: seq<Event>)
    requires e.Fetch? && Enabled(w, e) && BatchMatches(w, e.tx, relaying, since)
    ensures BatchMatches(Apply(w, e), e.tx, relaying, since + [e])
  {
    OneMoreOutcome(since, e, e.tx);
    assert Picked(Ids(e.records), [], true) == [] && Picked(Ids(e.records), [], false) == [];
  }

  lemma {:induction false} BatchMoves(w: World, e: Event, relaying: bool, since: seq<Event>)
    requires !e.PublishOk? && !e.PublishFail? && !e.Fetch? && Enabled(w, e) && BatchMatches(w, e.tx, relaying, since)
    ensures BatchMatches(Apply(w, e), e.tx, e.Claim? || (!e.CommitBatch? && !e.Abort? && relaying),
                         if e.Claim? then [] else since + [e])
  {
    OneMoreOutcome(since, e, e.tx);
  }

  lemma {:induction false} BatchStep(w: World, e: Event, tx: Tx, relaying: bool, since: seq<Event>)
    requires Enabled(w, e) && BatchMatches(w, tx, relaying, since)
    ensures BatchMatches(Apply(w, e), tx,
                         (e.Claim? && e.tx == tx) || (e != CommitBatch(tx) && e != Abort(tx) && relaying),
                         if e.Claim? && e.tx == tx then [] else since + [e])
  {
    if e.tx != tx {
      OtherBatchesStay(w, e, tx, relaying, since);
    } else if e.PublishOk? || e.PublishFail? {
      PublishMatches(w, e, relaying, since);
    } else if e.Fetch? {
      FetchMatches(w, e, relaying, since);
    } else {
      BatchMoves(w, e, relaying, since);
    }
  }

  /** A batch is in progress exactly if it was claimed and has not ended since; then it holds the ids its query returned
      and has published, or failed to, exactly those of them that its publish events say, in order. */
  lemma {:induction false} BatchIsItsEvents(trace: seq<Event>, tx: Tx)
    requires Valid(trace)
    ensures tx in Run(trace).relays <==> Relaying(trace, tx)
    ensures tx in Run(trace).relays ==>
      var b, since := Run(trace).relays[tx], SinceClaim(trace, tx);
      && b.fetched == FetchedIn(since, tx) && b.Done() == |ResultsIn(since, tx)|
      && b.published == PublishedBy(trace, tx, true) && b.failed == PublishedBy(trace, tx, false)
      && (b.stage.Marked? || b.stage.Counted? ==> MarkedIn(since, tx) == Some(b.stage.now))
    ensures BatchMatches(Run(trace), tx, Relaying(trace, tx), SinceClaim(trace, tx))
  {
    if trace != [] {
      var before, e := trace[..|trace| - 1], trace[|trace| - 1];
      assert trace == before + [e];
      BatchIsItsEvents(before, tx);
      SinceOneMore(before, e, tx);
      BatchStep(Run(before), e, tx, Relaying(before, tx), SinceClaim(before, tx));
    }
  }

  lemma {:induction false} ConfigStep(w: World, e: Event, tx: Tx, config: Option<Config>)
    requires Enabled(w, e) && (tx in w.relays ==> config == Some(w.relays[tx].config))
    ensures var v := Apply(w, e);
      tx in v.relays ==> (if e.Claim? && e.tx == tx then Some(e.config) else config) == Some(v.relays[tx].config)
  {
  }

  /** A batch keeps to the limits its relay was made with. */
  lemma {:induction false} ConfigIsTheClaims(trace: seq<Event>, tx: Tx)
    requires Valid(trace)
    ensures tx in Run(trace).relays ==> ConfigOf(trace, tx) == Some(Run(trace).relays[tx].config)
  {
    if trace != [] {
      var before, e := trace[..|trace| - 1], trace[|trace| - 1];
      ConfigIsTheClaims(before, tx);
      ConfigStep(Run(before), e, tx, ConfigOf(before, tx));
    }
  }

  lemma {:induction false} LogSame(w: World, e: Event, ok: bool)
    requires Enabled(w, e) && !(if ok then e.PublishOk? else e.PublishFail?)
    ensures Log(Apply(w, e), ok) == Log(w, ok)
  {
  }

  /** The broker saw exactly what the publish events say, in order; and so did the failures. */
  lemma {:induction false} LogIsThePublishes(trace: seq<Event>, ok: bool)
    requires Valid(trace)
    ensures Log(Run(trace), ok) == PublishLog(trace, ok)
  {
    if trace != [] {
      var before, e := trace[..|trace| - 1], trace[|trace| - 1];
      LogIsThePublishes(before, ok);
      if if ok then e.PublishOk? else e.PublishFail? {
        BatchIsItsEvents(before, e.tx);
      } else {
        LogSame(Run(before), e, ok);
      }
    }
  }

  lemma {:induction false} AbortsSame(w: World, e: Event)
    requires Enabled(w, e)
    ensures Apply(w, e).aborts == if e.Abort? then w.aborts + [w.relays[e.tx]] else w.aborts
  {
  }

  lemma {:induction false} LostIsTheAborts(trace: seq<Event>, id: Id, ok: bool)
    requires Valid(trace)
    ensures Lost(Run(trace).aborts, id, ok) == LostOutcomes(trace, id, ok)
  {
    if trace != [] {
      var before, e := trace[..|trace| - 1], trace[|trace| - 1];
      LostIsTheAborts(before, id, ok);
      AbortsSame(Run(before), e);
      if e.Abort? {
        BatchIsItsEvents(before, e.tx);
        LostGrows(Run(before).aborts, Run(before).relays[e.tx], id, ok);
      }
    }
  }

  /** A batch's commit books what its events say, at the time its mark says: a row it published is published then, one
      it failed to has one attempt more, and every other row is as it was. */
  lemma {:induction false} BatchCommitBooksItsResults(trace: seq<Event>, tx: Tx, id: Id)
    requires Valid(trace) && Enabled(Run(trace), CommitBatch(tx)) && id in Run(trace).rows
    ensures var w, rows := Run(trace), Apply(Run(trace), CommitBatch(tx)).rows;
      id in rows && MarkedIn(SinceClaim(trace, tx), tx).Some? &&
      rows[id] ==
        if id in PublishedBy(trace, tx, true) then w.rows[id].(publishedAt := MarkedIn(SinceClaim(trace, tx), tx))
        else if id in PublishedBy(trace, tx, false) then w.rows[id].(attempts := w.rows[id].attempts + 1)
        else w.rows[id]
  {
    Reachable(trace);
    BatchIsItsEvents(trace, tx);
    assert BatchInv(Run(trace).relays[tx]);
    SettledAt(Run(trace).rows, Run(trace).relays[tx], id);
  }

  /** Every publish event is accounted for, without regard to any state but the committed table: in the table, in the
      batch in progress that holds the record, or in a batch that did not commit. */
  lemma {:induction false} PublishEventsAreAccounted(trace: seq<Event>, id: Id, ok: bool)
    requires Valid(trace)
    ensures multiset(PublishLog(trace, ok))[id]
      == Booked(Run(trace).rows, id, ok) + InFlight(Run(trace), id, ok) + LostOutcomes(trace, id, ok)
  {
    PublishesAreAccounted(trace, id, ok);
    LogIsThePublishes(trace, ok);
    LostIsTheAborts(trace, id, ok);
  }

  /** A query leaves out an eligible row that nobody has locked only for a full batch of rows no younger. */
  lemma {:induction false} FetchTakesTheOldest(trace: seq<Event>, tx: Tx, records: seq<Record>, id: Id)
    requires Valid(trace) && Enabled(Run(trace), Fetch(tx, records))
    requires var w := Run(trace);
      id in w.rows && id !in w.locks && Eligible(w.rows[id], w.relays[tx].config.maxAttempts)
    ensures var w := Run(trace);
      w.rows[id] in records ||
      (|records| == w.relays[tx].config.batchSize && forall i :: 0 <= i < |records| ==> records[i].createdAt <= w.rows[id].createdAt)
  {
    var w := Run(trace);
    assert id in Unlocked(w) && Unlocked(w)[id] == w.rows[id];
    EligibleIsFiltered(Unlocked(w), w.relays[tx].config.maxAttempts, id);
  }

  // ---------------------------------------------------------------- nothing is in the way of a commit

  /** From `w` these events can happen one after the other. */
  predicate CanRun(w: World, events: seq<Event>)
    decreases |events|
  {
    events == [] || (Enabled(w, events[0]) && CanRun(Apply(w, events[0]), events[1..]))
  }

  lemma {:induction false} First(w: World, e: Event, rest: seq<Event>)
    requires Enabled(w, e) && CanRun(Apply(w, e), rest)
    ensures CanRun(w, [e] + rest)
  {
    assert ([e] + rest)[1..] == rest;
  }

  lemma {:induction false} ValidOn(trace: seq<Event>, more: seq<Event>)
    requires Valid(trace) && CanRun(Run(trace), more)
    ensures Valid(trace + more)
    decreases |more|
  {
    if more == [] {
      assert trace + more == trace;
    } else {
      assert (trace + [more[0]])[..|trace|] == trace;
      ValidOn(trace + [more[0]], more[1..]);
      assert trace + more == trace + [more[0]] + more[1..];
    }
  }

  /** The keys of the events still to be inserted are free and distinct. */
  predicate KeysFree(w: World, u: Writer) {
    && u.flushed <= |u.events|
    && (forall i :: u.flushed <= i < |u.events| ==> u.events[i].id !in w.rows && u.events[i].id !in w.reserved)
    && (forall i, j :: u.flushed <= i < j < |u.events| ==> u.events[i].id != u.events[j].id)
  }

  lemma {:induction false} FlushGoesOn(w: World, tx: Tx)
    requires tx in w.writers && KeysFree(w, w.writers[tx]) && w.writers[tx].flushed < |w.writers[tx].events|
    ensures Enabled(w, Flush(tx))
    ensures var v := Apply(w, Flush(tx));
      && tx in v.writers && KeysFree(v, v.writers[tx]) && v.writers[tx].events == w.writers[tx].events
      && v.writers[tx].flushed == w.writers[tx].flushed + 1
  {
  }

  lemma {:induction false} FlushesCanRun(w: World, tx: Tx) returns (more: seq<Event>)
    requires tx in w.writers && KeysFree(w, w.writers[tx])
    ensures CanRun(w, more) && more != [] && more[|more| - 1] == Commit(tx)
    ensures forall i :: 0 <= i < |more| - 1 ==> more[i] == Flush(tx)
    decreases |w.writers[tx].events| - w.writers[tx].flushed
  {
    if w.writers[tx].flushed == |w.writers[tx].events| {
      First(w, Commit(tx), []);
      more := [Commit(tx)];
    } else {
      FlushGoesOn(w, tx);
      var rest := FlushesCanRun(Apply(w, Flush(tx)), tx);
      First(w, Flush(tx), rest);
      more := [Flush(tx)] + rest;
    }
  }

  /** A unit of work whose events have free keys can insert them all and commit. */
  lemma {:induction false} CommitIsInReach(trace: seq<Event>, tx: Tx) returns (more: seq<Event>)
    requires Valid(trace) && tx in Run(trace).writers && KeysFree(Run(trace), Run(trace).writers[tx])
    ensures Valid(trace + more) && more != [] && more[|more| - 1] == Commit(tx)
    ensures forall i :: 0 <= i < |more| - 1 ==> more[i] == Flush(tx)
  {
    more := FlushesCanRun(Run(trace), tx);
    ValidOn(trace, more);
  }

  lemma {:induction false} PublishGoesOn(w: World, tx: Tx, e: Event)
    requires Pending(w, tx) && e in {PublishOk(tx), PublishFail(tx)}
    ensures Enabled(w, e)
    ensures var v := Apply(w, e);
      && tx in v.relays && v.relays[tx].stage.Publishing?
      && v.relays[tx].fetched == w.relays[tx].fetched && v.relays[tx].Done() == w.relays[tx].Done() + 1
  {
  }

  lemma {:induction false} MarkGoesOn(w: World, tx: Tx, now: int)
    requires Enabled(w, Mark(tx, now))
    ensures var v := Apply(w, Mark(tx, now));
      if w.relays[tx].failed == [] then Enabled(v, CommitBatch(tx))
      else Enabled(v, RecordFailed(tx)) && Enabled(Apply(v, RecordFailed(tx)), CommitBatch(tx))
  {
  }

  lemma {:induction false} EndCanRun(w: World, tx: Tx, now: int) returns (more: seq<Event>)
    requires Enabled(w, Mark(tx, now))
    ensures CanRun(w, more) && more != [] && more[|more| - 1] == CommitBatch(tx)
  {
    MarkGoesOn(w, tx, now);
    var v := Apply(w, Mark(tx, now));
    var rest := [CommitBatch(tx)];
    if w.relays[tx].failed == [] {
      First(v, CommitBatch(tx), []);
    } else {
      First(Apply(v, RecordFailed(tx)), CommitBatch(tx), []);
      First(v, RecordFailed(tx), rest);
      rest := [RecordFailed(tx)] + rest;
    }
    First(w, Mark(tx, now), rest);
    more := [Mark(tx, now)] + rest;
  }

  lemma {:induction false} PublishesCanRun(w: World, tx: Tx, results: seq<bool>, now: int) returns (more: seq<Event>)
    requires tx in w.relays && w.relays[tx].stage.Publishing? && |results| == |w.relays[tx].fetched| - w.relays[tx].Done()
    ensures CanRun(w, more) && |more| > |results| && more[|more| - 1] == CommitBatch(tx)
    ensures forall i :: 0 <= i < |results| ==> more[i] == if results[i] then PublishOk(tx) else PublishFail(tx)
    decreases |results|
  {
    if results == [] {
      more := EndCanRun(w, tx, now);
    } else {
      var e := if results[0] then PublishOk(tx) else PublishFail(tx);
      PublishGoesOn(w, tx, e);
      var rest := PublishesCanRun(Apply(w, e), tx, results[1..], now);
      First(w, e, rest);
      more := [e] + rest;
    }
  }

  /** A batch that has fetched can have its publishes go in any way, and then commit. */
  lemma {:induction false} BatchCommitIsInReach(trace: seq<Event>, tx: Tx, results: seq<bool>, now: int) returns (more: seq<Event>)
    requires Valid(trace) && tx in Run(trace).relays && Run(trace).relays[tx].stage.Publishing?
    requires |results| == |Run(trace).relays[tx].fetched| - Run(trace).relays[tx].Done()
    ensures Valid(trace + more) && |more| > |results| && more[|more| - 1] == CommitBatch(tx)
    ensures forall i :: 0 <= i < |results| ==> more[i] == if results[i] then PublishOk(tx) else PublishFail(tx)
  {
    more := PublishesCanRun(Run(trace), tx, results, now);
    ValidOn(trace, more);
  }
}
