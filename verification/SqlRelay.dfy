/** The relay's progress bounds on the SQL store, whatever results the queries return: equal creation times are broken
    any way, and records may be committed out of creation order. */
module SqlRelays {
  import opened Multiples
  import opened OutboxInserts
  import opened OutboxRecords
  import opened SqlStore
  import opened StoreSimulation
  import opened Wrappers
  import RelayBatches

  type Round = RelayBatches.Round

  // ---------------------------------------------------------------- attempts left over a set of records

  function Left(rows: Rows, m: nat, id: nat): nat {
    if id in rows && Eligible(rows[id], Some(m)) then m - rows[id].attempts else 0
  }

  ghost function Pick(ids: set<nat>): (id: nat)
    requires ids != {}
    ensures id in ids
  {
    var id :| id in ids; id
  }

  ghost function Sum(rows: Rows, m: nat, ids: set<nat>): nat {
    if ids == {} then 0 else Left(rows, m, Pick(ids)) + Sum(rows, m, ids - {Pick(ids)})
  }

  /** When each record in `hit` loses an attempt and none gains any, so does the sum. */
  lemma {:induction false} SumDrops(rows: Rows, after: Rows, m: nat, ids: set<nat>, hit: set<nat>)
    requires forall id :: id in ids ==> Left(after, m, id) + (if id in hit then 1 else 0) <= Left(rows, m, id)
    ensures Sum(after, m, ids) + |ids * hit| <= Sum(rows, m, ids)
    decreases |ids|
  {
    if ids != {} {
      var id := Pick(ids);
      SumDrops(rows, after, m, ids - {id}, hit);
      assert ids * hit == if id in hit then (ids - {id}) * hit + {id} else (ids - {id}) * hit;
    } else {
      assert ids * hit == {};
    }
  }

  lemma {:induction false} SumSame(rows: Rows, after: Rows, m: nat, ids: set<nat>)
    requires forall id :: id in ids ==> Left(after, m, id) == Left(rows, m, id)
    ensures Sum(after, m, ids) == Sum(rows, m, ids)
    decreases |ids|
  {
    if ids != {} {
      SumSame(rows, after, m, ids - {Pick(ids)});
    }
  }

  // ---------------------------------------------------------------- one batch

  function IdSet(ids: seq<nat>): set<nat> { set id | id in ids }

  lemma {:induction false} IdSetSize(ids: seq<nat>)
    requires NoRepeats(ids)
    ensures |IdSet(ids)| == |ids|
  {
    if ids != [] {
      var n := |ids| - 1;
      IdSetSize(ids[..n]);
      assert ids == ids[..n] + [ids[n]];
      assert IdSet(ids) == IdSet(ids[..n]) + {ids[n]};
    }
  }

  /** A query's result: distinct eligible rows of the table. */
  lemma {:induction false} FetchedFrom(rows: Rows, limit: nat, maxAttempts: Option<int>, fetched: seq<Record>)
    requires Keyed(rows) && Ordered(Filtered(rows, maxAttempts), limit, fetched)
    ensures DistinctIds(fetched) && NoRepeats(Ids(fetched)) && IdSet(Ids(fetched)) <= rows.Keys
    ensures forall i :: 0 <= i < |fetched| ==>
      fetched[i].id in rows && rows[fetched[i].id] == fetched[i] && Eligible(fetched[i], maxAttempts)
  {
    forall i | 0 <= i < |fetched|
      ensures fetched[i].id in rows && rows[fetched[i].id] == fetched[i] && Eligible(fetched[i], maxAttempts)
    {
      assert fetched[i] in fetched;
    }
  }

  lemma {:induction false} EachHasAnOutcome(fetched: seq<Record>, ok: RelayBatches.Publisher, j: nat, id: nat)
    ensures HasId(fetched, id) <==>
      id in RelayBatches.Outcomes(fetched, ok, j, true) || id in RelayBatches.Outcomes(fetched, ok, j, false)
  {
    if fetched != [] {
      EachHasAnOutcome(fetched[1..], ok, j + 1, id);
      assert HasId(fetched, id) <==> fetched[0].id == id || HasId(fetched[1..], id) by {
        assert forall i :: 0 < i < |fetched| ==> fetched[i] == fetched[1..][i - 1];
        assert forall i :: 0 <= i < |fetched| - 1 ==> fetched[1..][i] == fetched[i + 1];
      }
    }
  }

  /** A batch takes an attempt, at least, off each record it fetched, whichever publishes fail, and leaves the rest. */
  lemma {:induction false} BatchAt(rows: Rows, limit: nat, m: nat, fetched: seq<Record>, round: Round, id: nat)
    requires Keyed(rows) && Ordered(Filtered(rows, Some(m)), limit, fetched) && id in rows
    ensures var after := SqlBatch(rows, fetched, round).1;
      && id in after && after[id].(publishedAt := rows[id].publishedAt, attempts := rows[id].attempts) == rows[id]
      && (id !in Ids(fetched) ==> after[id] == rows[id])
      && (id in Ids(fetched) ==> Left(after, m, id) + 1 <= Left(rows, m, id))
      && (rows[id].attempts <= m ==> after[id].attempts <= m)
  {
    FetchedFrom(rows, limit, Some(m), fetched);
    EachHasAnOutcome(fetched, round.ok, 0, id);
    IdsHave(fetched, id);
    if id in Ids(fetched) {
      var i :| 0 <= i < |fetched| && Ids(fetched)[i] == id;
      assert fetched[i].id == id;
    }
  }

  lemma {:induction false} IdsHave(records: seq<Record>, id: nat)
    ensures id in Ids(records) <==> HasId(records, id)
  {
    forall i | 0 <= i < |records| ensures Ids(records)[i] == records[i].id {
    }
    if HasId(records, id) {
      var i :| 0 <= i < |records| && records[i].id == id;
      assert Ids(records)[i] == id;
    }
  }

  /** The attempts left over any records fall by at least the number of them that were fetched. */
  lemma {:induction false} SqlBatchReducesWork(rows: Rows, limit: nat, m: nat, fetched: seq<Record>, round: Round, ids: set<nat>)
    requires Keyed(rows) && Ordered(Filtered(rows, Some(m)), limit, fetched) && ids <= rows.Keys
    ensures var after := SqlBatch(rows, fetched, round).1;
      && Keyed(after) && after.Keys == rows.Keys
      && Sum(after, m, ids) + |ids * IdSet(Ids(fetched))| <= Sum(rows, m, ids)
  {
    var after := SqlBatch(rows, fetched, round).1;
    forall id | id in rows
      ensures after[id].id == id
      ensures Left(after, m, id) + (if id in IdSet(Ids(fetched)) then 1 else 0) <= Left(rows, m, id)
    {
      BatchAt(rows, limit, m, fetched, round, id);
    }
    SumDrops(rows, after, m, ids, IdSet(Ids(fetched)));
  }

  /** Saved records come on top of the table as it is. */
  lemma {:induction false} SaveAddsRows(rows: Rows, fetched: seq<Record>, round: Round)
    requires Keyed(SqlBatch(rows, fetched, round).1)
    ensures var after, next := SqlBatch(rows, fetched, round).1, SqlAfter(rows, fetched, round);
      && Keyed(next)
      && (forall id :: id in after ==> id in next && next[id] == after[id])
      && (forall id :: id in next && id !in after ==> exists i :: 0 <= i < |round.arrivals| && next[id] == round.arrivals[i])
  {
    var after, next := SqlBatch(rows, fetched, round).1, SqlAfter(rows, fetched, round);
    InsertMeaning(after, round.arrivals);
    forall id | id in next && id !in after
      ensures next[id].id == id && exists i :: 0 <= i < |round.arrivals| && next[id] == round.arrivals[i]
    {
      assert HasId(round.arrivals, id);
      var i :| 0 <= i < |round.arrivals| && round.arrivals[i].id == id;
      assert next[round.arrivals[i].id] == round.arrivals[i];
    }
  }

  function SqlRun(rows: Rows, rounds: seq<Round>, fetches: seq<seq<Record>>): Rows
    requires |fetches| == |rounds|
    decreases |rounds|
  {
    if rounds == [] then rows else SqlRun(SqlAfter(rows, fetches[0], rounds[0]), rounds[1..], fetches[1..])
  }

  // ---------------------------------------------------------------- head-of-line delay

  /** The other records that may come before `rid` in a fetch. */
  function Older(rows: Rows, rid: nat): set<nat>
    requires rid in rows
  {
    set id | id in rows && id != rid && rows[id].createdAt <= rows[rid].createdAt
  }

  predicate ArrivesAfter(round: Round, at: int) {
    forall i :: 0 <= i < |round.arrivals| ==> round.arrivals[i].createdAt > at
  }

  /** A batch that passes an eligible record by is full, and all of it older. */
  lemma {:induction false} PassingBatchIsFull(rows: Rows, rid: nat, limit: nat, m: nat, fetched: seq<Record>)
    requires Keyed(rows) && Ordered(Filtered(rows, Some(m)), limit, fetched)
    requires rid in rows && Eligible(rows[rid], Some(m)) && rows[rid] !in fetched
    ensures |fetched| == limit && IdSet(Ids(fetched)) <= Older(rows, rid) && |IdSet(Ids(fetched))| == limit
    ensures rid !in Ids(fetched)
  {
    FetchedFrom(rows, limit, Some(m), fetched);
    IdSetSize(Ids(fetched));
    assert rows[rid] in Filtered(rows, Some(m));
    forall id | id in Ids(fetched) ensures id in Older(rows, rid) {
      var i :| 0 <= i < |fetched| && Ids(fetched)[i] == id;
      assert fetched[i].id == id && fetched[i] in fetched;
    }
  }

  lemma {:induction false} OlderStays(rows: Rows, rid: nat, limit: nat, m: nat, fetched: seq<Record>, round: Round)
    requires Keyed(rows) && Ordered(Filtered(rows, Some(m)), limit, fetched)
    requires rid in rows && rid !in Ids(fetched) && ArrivesAfter(round, rows[rid].createdAt)
    ensures var next := SqlAfter(rows, fetched, round);
      && Keyed(next) && rid in next && next[rid] == rows[rid] && Older(next, rid) == Older(rows, rid)
      && (forall id :: id in rows ==> id in next && next[id] == SqlBatch(rows, fetched, round).1[id])
  {
    SqlBatchReducesWork(rows, limit, m, fetched, round, {});
    SaveAddsRows(rows, fetched, round);
    BatchAt(rows, limit, m, fetched, round, rid);
    forall id | id in rows ensures SqlAfter(rows, fetched, round)[id].createdAt == rows[id].createdAt {
      BatchAt(rows, limit, m, fetched, round, id);
    }
  }

  /** Every batch that passes the record by takes `limit` attempts off the older ones. */
  lemma {:induction false} PassedBy(rows: Rows, rid: nat, limit: nat, m: nat, fetched: seq<Record>, round: Round)
    requires Keyed(rows) && Ordered(Filtered(rows, Some(m)), limit, fetched)
    requires rid in rows && Eligible(rows[rid], Some(m)) && rows[rid] !in fetched
    requires ArrivesAfter(round, rows[rid].createdAt)
    ensures var next := SqlAfter(rows, fetched, round);
      && Keyed(next) && rid in next && next[rid] == rows[rid]
      && Sum(next, m, Older(next, rid)) + limit <= Sum(rows, m, Older(rows, rid))
  {
    var after, next, older := SqlBatch(rows, fetched, round).1, SqlAfter(rows, fetched, round), Older(rows, rid);
    PassingBatchIsFull(rows, rid, limit, m, fetched);
    OlderStays(rows, rid, limit, m, fetched, round);
    SqlBatchReducesWork(rows, limit, m, fetched, round, older);
    assert older * IdSet(Ids(fetched)) == IdSet(Ids(fetched));
    SumSame(after, next, m, older);
  }

  predicate AllArriveAfter(rounds: seq<Round>, at: int) {
    forall k :: 0 <= k < |rounds| ==> ArrivesAfter(rounds[k], at)
  }

  lemma {:induction false} SqlRunFirst(rows: Rows, rounds: seq<Round>, fetches: seq<seq<Record>>, k: nat)
    requires |fetches| == |rounds| && k < |rounds|
    ensures SqlRun(rows, rounds[..k + 1], fetches[..k + 1])
      == SqlRun(SqlAfter(rows, fetches[0], rounds[0]), rounds[1..][..k], fetches[1..][..k])
  {
    assert rounds[..k + 1][1..] == rounds[1..][..k] && fetches[..k + 1][1..] == fetches[1..][..k];
  }

  /** The record can be waited for: it is eligible, what arrives is younger, and `q` full batches outlast the older. */
  ghost predicate Waiting(rows: Rows, rid: nat, limit: nat, m: nat, rounds: seq<Round>, fetches: seq<seq<Record>>, q: nat) {
    && Keyed(rows) && rid in rows && Eligible(rows[rid], Some(m)) && 0 < limit
    && |fetches| == |rounds| && Allowed(rows, limit, Some(m), rounds, fetches)
    && AllArriveAfter(rounds, rows[rid].createdAt)
    && Sum(rows, m, Older(rows, rid)) < Times(q + 1, limit) && q < |rounds|
  }

  lemma {:induction false} StillWaiting(rows: Rows, rid: nat, limit: nat, m: nat, rounds: seq<Round>, fetches: seq<seq<Record>>, q: nat)
    requires Waiting(rows, rid, limit, m, rounds, fetches, q) && rows[rid] !in fetches[0]
    ensures q > 0
    ensures var next := SqlAfter(rows, fetches[0], rounds[0]);
      Waiting(next, rid, limit, m, rounds[1..], fetches[1..], q - 1) && next[rid] == rows[rid]
  {
    PassedBy(rows, rid, limit, m, fetches[0], rounds[0]);
    assert Times(0, limit) == 0 && Times(1, limit) == Times(0, limit) + limit;
  }

  lemma {:induction false} DelayedByWork(rows: Rows, rid: nat, limit: nat, m: nat, rounds: seq<Round>, fetches: seq<seq<Record>>, q: nat)
    returns (i: nat)
    requires Waiting(rows, rid, limit, m, rounds, fetches, q)
    ensures i <= q && rows[rid] in fetches[i]
    ensures var t := SqlRun(rows, rounds[..i], fetches[..i]); rid in t && t[rid] == rows[rid]
    decreases |rounds|
  {
    if rows[rid] in fetches[0] {
      i := 0;
    } else {
      StillWaiting(rows, rid, limit, m, rounds, fetches, q);
      var k := DelayedByWork(SqlAfter(rows, fetches[0], rounds[0]), rid, limit, m, rounds[1..], fetches[1..], q - 1);
      i := k + 1;
      SqlRunFirst(rows, rounds, fetches, k);
    }
  }

  /** An eligible record is fetched within floor(S / limit) + 1 batches, where S is the attempts left over the eligible
      records at least as old, whichever publishes fail and however the query breaks ties, as long as what arrives is
      younger. */
  lemma {:induction false} HeadOfLineDelay(rows: Rows, rid: nat, limit: nat, m: nat, rounds: seq<Round>, fetches: seq<seq<Record>>) returns (i: nat)
    requires Keyed(rows) && rid in rows && Eligible(rows[rid], Some(m)) && 0 < limit
    requires |fetches| == |rounds| && Allowed(rows, limit, Some(m), rounds, fetches)
    requires AllArriveAfter(rounds, rows[rid].createdAt)
    requires |rounds| > Sum(rows, m, Older(rows, rid)) / limit
    ensures i <= Sum(rows, m, Older(rows, rid)) / limit && i < |rounds| && rows[rid] in fetches[i]
    ensures var t := SqlRun(rows, rounds[..i], fetches[..i]); rid in t && t[rid] == rows[rid]
  {
    var q, rest := Divided(Sum(rows, m, Older(rows, rid)), limit);
    i := DelayedByWork(rows, rid, limit, m, rounds, fetches, q);
  }

  // ---------------------------------------------------------------- draining

  predicate AttemptsBounded(rows: Rows, m: nat) {
    forall id :: id in rows ==> rows[id].attempts <= m
  }

  /** A batch without arrivals leaves the same ids and bounded attempts, and work goes down unless there was none. */
  lemma {:induction false} DrainStep(rows: Rows, limit: nat, m: nat, fetched: seq<Record>, round: Round)
    requires Keyed(rows) && AttemptsBounded(rows, m) && 0 < limit && round.arrivals == []
    requires Ordered(Filtered(rows, Some(m)), limit, fetched)
    ensures var next := SqlAfter(rows, fetched, round);
      && Keyed(next) && next.Keys == rows.Keys && AttemptsBounded(next, m)
      && Sum(next, m, next.Keys) + |fetched| <= Sum(rows, m, rows.Keys)
      && (Filtered(rows, Some(m)) != {} ==> fetched != [])
  {
    SqlBatchReducesWork(rows, limit, m, fetched, round, rows.Keys);
    FetchedFrom(rows, limit, Some(m), fetched);
    IdSetSize(Ids(fetched));
    assert rows.Keys * IdSet(Ids(fetched)) == IdSet(Ids(fetched));
    assert Insert(SqlBatch(rows, fetched, round).1, []).Some?;
    forall id | id in rows ensures SqlAfter(rows, fetched, round)[id].attempts <= m {
      BatchAt(rows, limit, m, fetched, round, id);
    }
  }

  lemma {:induction false} NothingLeft(rows: Rows, m: nat, ids: set<nat>)
    requires Sum(rows, m, ids) == 0
    ensures forall id :: id in ids ==> Left(rows, m, id) == 0
    decreases |ids|
  {
    if ids != {} {
      NothingLeft(rows, m, ids - {Pick(ids)});
      assert ids == (ids - {Pick(ids)}) + {Pick(ids)};
    }
  }

  /** Without new saves, as many batches as there are attempts left drain the table: nothing is eligible, and each
      record is published or has exactly `m` failed attempts. */
  lemma {:induction false} DrainTerminates(rows: Rows, limit: nat, m: nat, rounds: seq<Round>, fetches: seq<seq<Record>>)
    requires Keyed(rows) && AttemptsBounded(rows, m) && 0 < limit
    requires |fetches| == |rounds| && Allowed(rows, limit, Some(m), rounds, fetches)
    requires forall k :: 0 <= k < |rounds| ==> rounds[k].arrivals == []
    requires |rounds| >= Sum(rows, m, rows.Keys)
    ensures var t := SqlRun(rows, rounds, fetches);
      && t.Keys == rows.Keys && Filtered(t, Some(m)) == {}
      && forall id :: id in t ==> t[id].publishedAt.Some? || t[id].attempts == m
    decreases |rounds|
  {
    if rounds == [] {
      NothingLeft(rows, m, rows.Keys);
      assert forall id :: id in rows ==> Left(rows, m, id) == 0;
    } else {
      DrainStep(rows, limit, m, fetches[0], rounds[0]);
      if Filtered(rows, Some(m)) == {} {
        NoneEligible(rows, m);
      }
      DrainTerminates(SqlAfter(rows, fetches[0], rounds[0]), limit, m, rounds[1..], fetches[1..]);
    }
  }

  lemma {:induction false} NoneEligible(rows: Rows, m: nat)
    requires Filtered(rows, Some(m)) == {}
    ensures Sum(rows, m, rows.Keys) == 0
  {
    forall id | id in rows ensures Left(rows, m, id) == 0 {
      EligibleIsFiltered(rows, Some(m), id);
    }
    NoneIsZero(rows, m, rows.Keys);
  }

  lemma {:induction false} NoneIsZero(rows: Rows, m: nat, ids: set<nat>)
    requires forall id :: id in ids ==> Left(rows, m, id) == 0
    ensures Sum(rows, m, ids) == 0
    decreases |ids|
  {
    if ids != {} {
      NoneIsZero(rows, m, ids - {Pick(ids)});
    }
  }

  // ---------------------------------------------------------------- the polling loop

  function Unpublished(rows: Rows): set<nat> { set id | id in rows && rows[id].publishedAt.None? }

  /** A turn of `run`: the table after it, and whether it goes straight on. */
  function SqlTurn(rows: Rows, limit: nat, fetched: seq<Record>, iteration: RelayBatches.Iteration): (Rows, bool) {
    if iteration.raises then (rows, false) else
    var (published, after) := SqlBatch(rows, fetched, RelayBatches.Round(iteration.ok, iteration.now, []));
    (after, |published| >= limit)
  }

  /** How often a run goes straight on. */
  function StraightOn(rows: Rows, limit: nat, iterations: seq<RelayBatches.Iteration>, fetches: seq<seq<Record>>): nat
    requires |fetches| == |iterations|
    decreases |iterations|
  {
    if iterations == [] then 0 else
    var (after, straight) := SqlTurn(rows, limit, fetches[0], iterations[0]);
    StraightOn(after, limit, iterations[1..], fetches[1..]) + if straight then 1 else 0
  }

  predicate TurnsAllowed(rows: Rows, limit: nat, maxAttempts: Option<int>, iterations: seq<RelayBatches.Iteration>, fetches: seq<seq<Record>>)
    requires |fetches| == |iterations|
    decreases |iterations|
  {
    iterations == [] ||
    ((!iterations[0].raises ==> Ordered(Filtered(rows, maxAttempts), limit, fetches[0]))
     && TurnsAllowed(SqlTurn(rows, limit, fetches[0], iterations[0]).0, limit, maxAttempts, iterations[1..], fetches[1..]))
  }

  lemma {:induction false} PublishedWereUnpublished(rows: Rows, limit: nat, maxAttempts: Option<int>, fetched: seq<Record>, round: Round)
    requires Keyed(rows) && Ordered(Filtered(rows, maxAttempts), limit, fetched)
    ensures var published := SqlBatch(rows, fetched, round).0;
      IdSet(published) <= Unpublished(rows) && |IdSet(published)| == |published|
  {
    var published := SqlBatch(rows, fetched, round).0;
    FetchedFrom(rows, limit, maxAttempts, fetched);
    RelayBatches.OutcomesDoNotRepeat(fetched, round.ok, 0, true);
    RelayBatches.OutcomesAreFetched(fetched, round.ok, 0, true);
    IdSetSize(published);
    forall id | id in IdSet(published) ensures id in Unpublished(rows) {
      assert HasId(fetched, id);
      var i :| 0 <= i < |fetched| && fetched[i].id == id;
    }
  }

  /** A batch takes exactly the records it published off the unpublished ones. */
  lemma {:induction false} PublishedLeave(rows: Rows, limit: nat, maxAttempts: Option<int>, fetched: seq<Record>, round: Round)
    requires Keyed(rows) && Ordered(Filtered(rows, maxAttempts), limit, fetched)
    ensures var (published, after) := SqlBatch(rows, fetched, round);
      Keyed(after) && |Unpublished(after)| + |published| == |Unpublished(rows)|
  {
    PublishedWereUnpublished(rows, limit, maxAttempts, fetched, round);
    var (published, after) := SqlBatch(rows, fetched, round);
    assert Unpublished(after) == Unpublished(rows) - IdSet(published);
  }

  /** On the table, too, a turn goes straight on exactly if it did not raise and the unpublished rows fell by a full batch. */
  lemma {:induction false} StraightOnIff(rows: Rows, limit: nat, maxAttempts: Option<int>, fetched: seq<Record>,
                                         iteration: RelayBatches.Iteration)
    requires Keyed(rows) && (!iteration.raises ==> Ordered(Filtered(rows, maxAttempts), limit, fetched))
    ensures var (after, straight) := SqlTurn(rows, limit, fetched, iteration);
      && |Unpublished(after)| <= |Unpublished(rows)| && (iteration.raises ==> after == rows)
      && (straight <==> !iteration.raises && |Unpublished(rows)| - |Unpublished(after)| >= limit)
  {
    if !iteration.raises {
      PublishedLeave(rows, limit, maxAttempts, fetched, RelayBatches.Round(iteration.ok, iteration.now, []));
    }
  }

  lemma {:induction false} StraightOnPublishes(rows: Rows, limit: nat, maxAttempts: Option<int>,
                                               iterations: seq<RelayBatches.Iteration>, fetches: seq<seq<Record>>)
    requires Keyed(rows) && |fetches| == |iterations| && TurnsAllowed(rows, limit, maxAttempts, iterations, fetches)
    ensures Times(StraightOn(rows, limit, iterations, fetches), limit) <= |Unpublished(rows)|
    decreases |iterations|
  {
    if iterations != [] {
      var turn := iterations[0];
      if !turn.raises {
        PublishedLeave(rows, limit, maxAttempts, fetches[0], RelayBatches.Round(turn.ok, turn.now, []));
      }
      StraightOnPublishes(SqlTurn(rows, limit, fetches[0], turn).0, limit, maxAttempts, iterations[1..], fetches[1..]);
    }
  }

  /** With no new saves `run` goes straight on at most unpublished / batch_size times. */
  lemma {:induction false} BackToBackBound(rows: Rows, limit: nat, maxAttempts: Option<int>,
                        iterations: seq<RelayBatches.Iteration>, fetches: seq<seq<Record>>)
    requires Keyed(rows) && |fetches| == |iterations| && TurnsAllowed(rows, limit, maxAttempts, iterations, fetches) && 0 < limit
    ensures StraightOn(rows, limit, iterations, fetches) <= |Unpublished(rows)| / limit
  {
    StraightOnPublishes(rows, limit, maxAttempts, iterations, fetches);
    QuotientBound(StraightOn(rows, limit, iterations, fetches), limit, |Unpublished(rows)|);
  }
}
