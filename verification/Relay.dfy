/** One relay's batches on a store whose batches commit, and how they progress. */
module RelayBatches {
  import SqlStore
  import opened Multiples
  import opened Wrappers
  import opened OutboxRecords

  /** Whether publishing the batch's `i`-th record succeeds. */
  type Publisher = nat -> bool

  /** Ids of the fetched records from the `j`-th on whose publish went as `wanted`. */
  function Outcomes(fetched: seq<Record>, ok: Publisher, j: nat, wanted: bool): seq<nat> {
    if fetched == [] then [] else
    var rest := Outcomes(fetched[1..], ok, j + 1, wanted);
    if ok(j) == wanted then [fetched[0].id] + rest else rest
  }

  datatype Batch = Batch(store: seq<Record>, published: nat)

  /** `run_once` as the relay does it: fetch, publish each, mark the successes, count the failures. */
  function RunOnce(s: seq<Record>, limit: nat, maxAttempts: Option<int>, ok: Publisher, now: int): Batch {
    var fetched := Take(Eligibles(s, maxAttempts), limit);
    var published, failed := Outcomes(fetched, ok, 0, true), Outcomes(fetched, ok, 0, false);
    Batch(CountAll(MarkAll(s, published, now), failed), |published|)
  }

  function Attempt(r: Record, ok: bool, now: int): Record {
    if ok then r.(publishedAt := Some(now)) else r.(attempts := r.attempts + 1)
  }

  /** What a batch means: walk the store from its oldest record, trying eligible ones while the batch has room. */
  function Walk(s: seq<Record>, room: nat, maxAttempts: Option<int>, ok: Publisher, j: nat, now: int): (r: seq<Record>)
    ensures |r| == |s|
  {
    if s == [] then []
    else if room > 0 && Eligible(s[0], maxAttempts) then
      [Attempt(s[0], ok(j), now)] + Walk(s[1..], room - 1, maxAttempts, ok, j + 1, now)
    else [s[0]] + Walk(s[1..], room, maxAttempts, ok, j, now)
  }

  // ---------------------------------------------------------------- the batch is the walk

  lemma {:induction false} OutcomesAreFetched(fetched: seq<Record>, ok: Publisher, j: nat, wanted: bool)
    ensures forall id :: id in Outcomes(fetched, ok, j, wanted) ==> HasId(fetched, id)
  {
    if fetched != [] {
      OutcomesAreFetched(fetched[1..], ok, j + 1, wanted);
      var rest := Outcomes(fetched[1..], ok, j + 1, wanted);
      forall id | id in rest ensures HasId(fetched, id) {
        var i :| 0 <= i < |fetched[1..]| && fetched[1..][i].id == id;
        assert fetched[i + 1].id == id;
      }
      assert HasId(fetched, fetched[0].id);
    }
  }

  lemma {:induction false} FirstIsFresh(s: seq<Record>)
    requires DistinctIds(s) && s != []
    ensures DistinctIds(s[1..]) && !HasId(s[1..], s[0].id)
  {
  }

  lemma {:induction false} OutcomesDoNotRepeat(fetched: seq<Record>, ok: Publisher, j: nat, wanted: bool)
    requires DistinctIds(fetched)
    ensures NoRepeats(Outcomes(fetched, ok, j, wanted))
  {
    if fetched != [] {
      FirstIsFresh(fetched);
      OutcomesDoNotRepeat(fetched[1..], ok, j + 1, wanted);
      OutcomesAreFetched(fetched[1..], ok, j + 1, wanted);
      assert fetched[0].id !in Outcomes(fetched[1..], ok, j + 1, wanted);
    }
  }

  lemma {:induction false} FetchedAreStored(s: seq<Record>, limit: nat, maxAttempts: Option<int>)
    ensures forall id :: HasId(Take(Eligibles(s, maxAttempts), limit), id) ==> HasId(s, id)
    ensures DistinctIds(s) ==> DistinctIds(Take(Eligibles(s, maxAttempts), limit))
  {
    var e := Eligibles(s, maxAttempts);
    EligiblesMembers(s, maxAttempts);
    if DistinctIds(s) {
      SqlStore.EligiblesDistinct(s, maxAttempts);
    }
    forall id | HasId(Take(e, limit), id) ensures HasId(s, id) {
      var i :| 0 <= i < |Take(e, limit)| && Take(e, limit)[i].id == id;
      assert e[i] in s;
      var k :| 0 <= k < |s| && s[k] == e[i];
    }
  }

  /** Marks and counts by id, in one pass. */
  function Effect(s: seq<Record>, published: seq<nat>, failed: seq<nat>, now: int): (r: seq<Record>)
    ensures |r| == |s|
  {
    if s == [] then [] else
    var rest := Effect(s[1..], published, failed, now);
    if s[0].id in published then [Attempt(s[0], true, now)] + rest
    else if s[0].id in failed then [Attempt(s[0], false, now)] + rest
    else [s[0]] + rest
  }

  lemma {:induction false} EffectAt(s: seq<Record>, published: seq<nat>, failed: seq<nat>, now: int, i: nat)
    requires i < |s|
    ensures Effect(s, published, failed, now)[i] ==
      if s[i].id in published then Attempt(s[i], true, now)
      else if s[i].id in failed then Attempt(s[i], false, now) else s[i]
  {
    if i > 0 {
      EffectAt(s[1..], published, failed, now, i - 1);
    }
  }

  lemma {:induction false} EffectIgnores(s: seq<Record>, id: nat, published: seq<nat>, failed: seq<nat>, now: int)
    requires !HasId(s, id)
    ensures Effect(s, [id] + published, failed, now) == Effect(s, published, failed, now)
    ensures Effect(s, published, [id] + failed, now) == Effect(s, published, failed, now)
  {
    if s != [] {
      assert !HasId(s[1..], id) by {
        assert forall i :: 0 <= i < |s| - 1 ==> s[1..][i] == s[i + 1];
      }
      assert s[0].id != id;
      EffectIgnores(s[1..], id, published, failed, now);
    }
  }

  lemma {:induction false} EffectOfFirst(s: seq<Record>, published: seq<nat>, failed: seq<nat>, now: int, ok: bool)
    requires s != [] && !HasId(s[1..], s[0].id) && s[0].id !in published && s[0].id !in failed
    ensures Effect(s, if ok then [s[0].id] + published else published, if ok then failed else [s[0].id] + failed, now)
      == [Attempt(s[0], ok, now)] + Effect(s[1..], published, failed, now)
    ensures Effect(s, published, failed, now) == [s[0]] + Effect(s[1..], published, failed, now)
  {
    EffectIgnores(s[1..], s[0].id, published, failed, now);
  }

  lemma {:induction false} StrangersHaveNoOutcome(s: seq<Record>, room: nat, maxAttempts: Option<int>, ok: Publisher, j: nat, id: nat)
    requires !HasId(s, id)
    ensures var fetched := Take(Eligibles(s, maxAttempts), room);
      id !in Outcomes(fetched, ok, j, true) && id !in Outcomes(fetched, ok, j, false)
  {
    var fetched := Take(Eligibles(s, maxAttempts), room);
    OutcomesAreFetched(fetched, ok, j, true);
    OutcomesAreFetched(fetched, ok, j, false);
    FetchedAreStored(s, room, maxAttempts);
  }

  predicate WalkMatches(s: seq<Record>, room: nat, maxAttempts: Option<int>, ok: Publisher, j: nat, now: int) {
    var fetched := Take(Eligibles(s, maxAttempts), room);
    Walk(s, room, maxAttempts, ok, j, now) == Effect(s, Outcomes(fetched, ok, j, true), Outcomes(fetched, ok, j, false), now)
  }

  lemma {:induction false} FirstIsTried(s: seq<Record>, room: nat, maxAttempts: Option<int>, ok: Publisher, j: nat, now: int)
    requires DistinctIds(s) && s != [] && room > 0 && Eligible(s[0], maxAttempts)
    requires WalkMatches(s[1..], room - 1, maxAttempts, ok, j + 1, now)
    ensures WalkMatches(s, room, maxAttempts, ok, j, now)
  {
    var fetched, more := Take(Eligibles(s, maxAttempts), room), Take(Eligibles(s[1..], maxAttempts), room - 1);
    assert fetched == [s[0]] + more && fetched[1..] == more;
    FirstIsFresh(s);
    StrangersHaveNoOutcome(s[1..], room - 1, maxAttempts, ok, j + 1, s[0].id);
    EffectOfFirst(s, Outcomes(more, ok, j + 1, true), Outcomes(more, ok, j + 1, false), now, ok(j));
  }

  lemma {:induction false} FirstIsSkipped(s: seq<Record>, room: nat, maxAttempts: Option<int>, ok: Publisher, j: nat, now: int)
    requires DistinctIds(s) && s != [] && !(room > 0 && Eligible(s[0], maxAttempts))
    requires WalkMatches(s[1..], room, maxAttempts, ok, j, now)
    ensures WalkMatches(s, room, maxAttempts, ok, j, now)
  {
    var fetched := Take(Eligibles(s, maxAttempts), room);
    assert fetched == Take(Eligibles(s[1..], maxAttempts), room);
    FirstIsFresh(s);
    StrangersHaveNoOutcome(s[1..], room, maxAttempts, ok, j, s[0].id);
    EffectOfFirst(s, Outcomes(fetched, ok, j, true), Outcomes(fetched, ok, j, false), now, true);
  }

  lemma {:induction false} WalkIsEffect(s: seq<Record>, room: nat, maxAttempts: Option<int>, ok: Publisher, j: nat, now: int)
    requires DistinctIds(s)
    ensures WalkMatches(s, room, maxAttempts, ok, j, now)
  {
    if s != [] {
      FirstIsFresh(s);
      if room > 0 && Eligible(s[0], maxAttempts) {
        WalkIsEffect(s[1..], room - 1, maxAttempts, ok, j + 1, now);
        FirstIsTried(s, room, maxAttempts, ok, j, now);
      } else {
        WalkIsEffect(s[1..], room, maxAttempts, ok, j, now);
        FirstIsSkipped(s, room, maxAttempts, ok, j, now);
      }
    }
  }

  /** Fetching first and updating by id afterwards does exactly what the walk does. */
  lemma {:induction false} RunOnceIsTheWalk(s: seq<Record>, limit: nat, maxAttempts: Option<int>, ok: Publisher, now: int)
    requires DistinctIds(s)
    ensures RunOnce(s, limit, maxAttempts, ok, now).store == Walk(s, limit, maxAttempts, ok, 0, now)
  {
    var fetched := Take(Eligibles(s, maxAttempts), limit);
    var published, failed := Outcomes(fetched, ok, 0, true), Outcomes(fetched, ok, 0, false);
    OutcomesAreFetched(fetched, ok, 0, true);
    OutcomesAreFetched(fetched, ok, 0, false);
    FetchedAreStored(s, limit, maxAttempts);
    OutcomesDoNotRepeat(fetched, ok, 0, false);
    OutcomesDisjoint(fetched, ok, 0);
    WalkIsEffect(s, limit, maxAttempts, ok, 0, now);
    var marked := MarkAll(s, published, now);
    forall i | 0 <= i < |s| ensures CountAll(marked, failed)[i] == Effect(s, published, failed, now)[i] {
      MarkAllAt(s, published, now, i);
      CountAllAt(marked, failed, i);
      NoRepeatsCount(failed, s[i].id);
      EffectAt(s, published, failed, now, i);
    }
  }

  lemma {:induction false} OutcomesDisjoint(fetched: seq<Record>, ok: Publisher, j: nat)
    requires DistinctIds(fetched)
    ensures forall id :: id in Outcomes(fetched, ok, j, true) ==> id !in Outcomes(fetched, ok, j, false)
  {
    if fetched != [] {
      FirstIsFresh(fetched);
      OutcomesDisjoint(fetched[1..], ok, j + 1);
      OutcomesAreFetched(fetched[1..], ok, j + 1, true);
      OutcomesAreFetched(fetched[1..], ok, j + 1, false);
    }
  }

  lemma {:induction false} WalkKeepsIds(s: seq<Record>, room: nat, maxAttempts: Option<int>, ok: Publisher, j: nat, now: int)
    ensures var r := Walk(s, room, maxAttempts, ok, j, now);
      forall i :: 0 <= i < |s| ==> r[i].id == s[i].id && r[i].createdAt == s[i].createdAt
  {
    if s != [] {
      if room > 0 && Eligible(s[0], maxAttempts) {
        WalkKeepsIds(s[1..], room - 1, maxAttempts, ok, j + 1, now);
      } else {
        WalkKeepsIds(s[1..], room, maxAttempts, ok, j, now);
      }
    }
  }

  // ---------------------------------------------------------------- draining

  /** Attempts left over all eligible records. */
  function Work(s: seq<Record>, maxAttempts: nat): nat {
    if s == [] then 0
    else Work(s[1..], maxAttempts) + if Eligible(s[0], Some(maxAttempts)) then maxAttempts - s[0].attempts else 0
  }

  /** A batch takes at least one attempt off each record it fetched, whichever publishes fail. */
  lemma {:induction false} BatchReducesWork(s: seq<Record>, room: nat, maxAttempts: nat, ok: Publisher, j: nat, now: int)
    ensures Work(Walk(s, room, Some(maxAttempts), ok, j, now), maxAttempts)
            + |Take(Eligibles(s, Some(maxAttempts)), room)| <= Work(s, maxAttempts)
  {
    if s != [] {
      var r := Walk(s, room, Some(maxAttempts), ok, j, now);
      if room > 0 && Eligible(s[0], Some(maxAttempts)) {
        BatchReducesWork(s[1..], room - 1, maxAttempts, ok, j + 1, now);
        assert r[1..] == Walk(s[1..], room - 1, Some(maxAttempts), ok, j + 1, now);
      } else {
        BatchReducesWork(s[1..], room, maxAttempts, ok, j, now);
        assert r[1..] == Walk(s[1..], room, Some(maxAttempts), ok, j, now);
      }
    }
  }

  predicate AttemptsBounded(s: seq<Record>, maxAttempts: nat) {
    forall i :: 0 <= i < |s| ==> s[i].attempts <= maxAttempts
  }

  lemma {:induction false} BatchKeepsAttemptsBounded(s: seq<Record>, room: nat, maxAttempts: nat, ok: Publisher, j: nat, now: int)
    requires AttemptsBounded(s, maxAttempts)
    ensures AttemptsBounded(Walk(s, room, Some(maxAttempts), ok, j, now), maxAttempts)
  {
    if s != [] {
      assert AttemptsBounded(s[1..], maxAttempts);
      if room > 0 && Eligible(s[0], Some(maxAttempts)) {
        BatchKeepsAttemptsBounded(s[1..], room - 1, maxAttempts, ok, j + 1, now);
      } else {
        BatchKeepsAttemptsBounded(s[1..], room, maxAttempts, ok, j, now);
      }
    }
  }

  /** One batch and the records saved before the next. */
  datatype Round = Round(ok: Publisher, now: int, arrivals: seq<Record>)

  function After(s: seq<Record>, limit: nat, maxAttempts: Option<int>, round: Round): seq<Record> {
    RunOnce(s, limit, maxAttempts, round.ok, round.now).store + round.arrivals
  }

  function Rounds(s: seq<Record>, limit: nat, maxAttempts: Option<int>, rounds: seq<Round>): seq<Record>
    decreases |rounds|
  {
    if rounds == [] then s else Rounds(After(s, limit, maxAttempts, rounds[0]), limit, maxAttempts, rounds[1..])
  }

  /** Batches drain: with no arrivals, after as many batches as there were attempts left nothing is eligible, and then
      every record is published or has exactly `maxAttempts` failed attempts. */
  lemma {:induction false} DrainTerminates(s: seq<Record>, limit: nat, maxAttempts: nat, rounds: seq<Round>)
    requires DistinctIds(s) && AttemptsBounded(s, maxAttempts) && 0 < limit
    requires |rounds| >= Work(s, maxAttempts) && forall i :: 0 <= i < |rounds| ==> rounds[i].arrivals == []
    ensures var r := Rounds(s, limit, Some(maxAttempts), rounds);
      && Eligibles(r, Some(maxAttempts)) == []
      && forall i :: 0 <= i < |r| ==> r[i].publishedAt.Some? || r[i].attempts == maxAttempts
    decreases |rounds|
  {
    if rounds == [] {
      NoWorkNoneEligible(s, maxAttempts);
      Quiescent(s, maxAttempts);
    } else {
      var next := After(s, limit, Some(maxAttempts), rounds[0]);
      RunOnceIsTheWalk(s, limit, Some(maxAttempts), rounds[0].ok, rounds[0].now);
      BatchReducesWork(s, limit, maxAttempts, rounds[0].ok, 0, rounds[0].now);
      BatchKeepsAttemptsBounded(s, limit, maxAttempts, rounds[0].ok, 0, rounds[0].now);
      WalkKeepsIds(s, limit, Some(maxAttempts), rounds[0].ok, 0, rounds[0].now);
      assert next == Walk(s, limit, Some(maxAttempts), rounds[0].ok, 0, rounds[0].now);
      if Eligibles(s, Some(maxAttempts)) == [] {
        NoneEligibleNoWork(s, maxAttempts);
      }
      DrainTerminates(next, limit, maxAttempts, rounds[1..]);
    }
  }

  lemma {:induction false} NoWorkNoneEligible(s: seq<Record>, maxAttempts: nat)
    requires Work(s, maxAttempts) == 0
    ensures Eligibles(s, Some(maxAttempts)) == []
  {
    if s != [] {
      NoWorkNoneEligible(s[1..], maxAttempts);
    }
  }

  lemma {:induction false} NoneEligibleNoWork(s: seq<Record>, maxAttempts: nat)
    requires Eligibles(s, Some(maxAttempts)) == []
    ensures Work(s, maxAttempts) == 0
  {
    if s != [] {
      NoneEligibleNoWork(s[1..], maxAttempts);
    }
  }

  lemma {:induction false} Quiescent(s: seq<Record>, maxAttempts: nat)
    requires AttemptsBounded(s, maxAttempts) && Eligibles(s, Some(maxAttempts)) == []
    ensures forall i :: 0 <= i < |s| ==> s[i].publishedAt.Some? || s[i].attempts == maxAttempts
  {
    if s != [] {
      Quiescent(s[1..], maxAttempts);
      assert forall i :: 0 < i < |s| ==> s[i] == s[1..][i - 1];
    }
  }

  // ---------------------------------------------------------------- head-of-line delay

  /** The `n`-th record is in the next batch. */
  predicate Attempted(s: seq<Record>, n: nat, limit: nat, maxAttempts: Option<int>)
    requires n < |s|
  {
    Eligible(s[n], maxAttempts) && |Eligibles(s[..n], maxAttempts)| < limit
  }

  /** ... which is to say that the fetch returns it. */
  lemma {:induction false} AttemptedMeansFetched(s: seq<Record>, n: nat, limit: nat, maxAttempts: Option<int>)
    requires n < |s| && DistinctIds(s)
    ensures Attempted(s, n, limit, maxAttempts) <==> s[n] in Take(Eligibles(s, maxAttempts), limit)
  {
    var before, after := s[..n], s[n + 1..];
    assert s == before + ([s[n]] + after);
    EligiblesSplit(before, [s[n]] + after, maxAttempts);
    EligiblesSplit([s[n]], after, maxAttempts);
    assert [s[n]][1..] == [];
    var e := Eligibles(s, maxAttempts);
    var k := |Eligibles(before, maxAttempts)|;
    SqlStore.EligiblesDistinct(s, maxAttempts);
    EligiblesMembers(s, maxAttempts);
    if Eligible(s[n], maxAttempts) {
      assert e[k] == s[n];
    }
  }

  lemma {:induction false} EligiblesSplit(a: seq<Record>, b: seq<Record>, maxAttempts: Option<int>)
    ensures Eligibles(a + b, maxAttempts) == Eligibles(a, maxAttempts) + Eligibles(b, maxAttempts)
    decreases |a|
  {
    var ea, eb := Eligibles(a, maxAttempts), Eligibles(b, maxAttempts);
    if a == [] {
      assert a + b == b;
      assert ea + eb == eb;
    } else {
      var first, rest := a[0], a[1..];
      EligiblesSplit(rest, b, maxAttempts);
      assert (a + b)[1..] == rest + b && (a + b)[0] == first;
      var more := Eligibles(rest, maxAttempts);
      if Eligible(first, maxAttempts) {
        assert ea == [first] + more;
        assert Eligibles(a + b, maxAttempts) == [first] + (more + eb);
        assert [first] + (more + eb) == ([first] + more) + eb;
      } else {
        assert ea == more;
      }
    }
  }

  /** A batch treats the older part of the store as if the rest were not there. */
  lemma {:induction false} WalkPrefix(s: seq<Record>, n: nat, room: nat, maxAttempts: Option<int>, ok: Publisher, j: nat, now: int)
    requires n <= |s|
    ensures Walk(s, room, maxAttempts, ok, j, now)[..n] == Walk(s[..n], room, maxAttempts, ok, j, now)
  {
    if n > 0 {
      var r, rest := Walk(s, room, maxAttempts, ok, j, now), s[1..];
      assert s[..n][1..] == rest[..n - 1] && s[..n][0] == s[0];
      if room > 0 && Eligible(s[0], maxAttempts) {
        WalkPrefix(rest, n - 1, room - 1, maxAttempts, ok, j + 1, now);
        assert r[..n] == [Attempt(s[0], ok(j), now)] + Walk(rest, room - 1, maxAttempts, ok, j + 1, now)[..n - 1];
      } else {
        WalkPrefix(rest, n - 1, room, maxAttempts, ok, j, now);
        assert r[..n] == [s[0]] + Walk(rest, room, maxAttempts, ok, j, now)[..n - 1];
      }
    }
  }

  lemma {:induction false} WalkSparesLater(s: seq<Record>, n: nat, room: nat, maxAttempts: Option<int>, ok: Publisher, j: nat, now: int)
    requires n < |s| && |Eligibles(s[..n], maxAttempts)| >= room
    ensures Walk(s, room, maxAttempts, ok, j, now)[n] == s[n]
  {
    if n > 0 {
      assert s[..n][1..] == s[1..][..n - 1];
      if room > 0 && Eligible(s[0], maxAttempts) {
        WalkSparesLater(s[1..], n - 1, room - 1, maxAttempts, ok, j + 1, now);
      } else {
        WalkSparesLater(s[1..], n - 1, room, maxAttempts, ok, j, now);
      }
    }
  }

  ghost predicate ArrivalsAreNew(s: seq<Record>, limit: nat, maxAttempts: Option<int>, rounds: seq<Round>)
    decreases |rounds|
  {
    rounds == [] ||
    (DistinctIds(After(s, limit, maxAttempts, rounds[0]))
     && ArrivalsAreNew(After(s, limit, maxAttempts, rounds[0]), limit, maxAttempts, rounds[1..]))
  }

  /** Every batch that passes the record by takes `limit` attempts off the older ones. */
  lemma {:induction false} PassedBy(s: seq<Record>, n: nat, limit: nat, maxAttempts: nat, round: Round)
    requires DistinctIds(s) && n < |s| && Eligible(s[n], Some(maxAttempts))
    requires !Attempted(s, n, limit, Some(maxAttempts))
    ensures var t := After(s, limit, Some(maxAttempts), round);
      n < |t| && t[n] == s[n] && Work(t[..n], maxAttempts) + limit <= Work(s[..n], maxAttempts)
  {
    var walked := Walk(s, limit, Some(maxAttempts), round.ok, 0, round.now);
    RunOnceIsTheWalk(s, limit, Some(maxAttempts), round.ok, round.now);
    WalkPrefix(s, n, limit, Some(maxAttempts), round.ok, 0, round.now);
    WalkSparesLater(s, n, limit, Some(maxAttempts), round.ok, 0, round.now);
    BatchReducesWork(s[..n], limit, maxAttempts, round.ok, 0, round.now);
    assert After(s, limit, Some(maxAttempts), round)[..n] == walked[..n];
  }

  lemma {:induction false} DelayedByWork(s: seq<Record>, n: nat, limit: nat, maxAttempts: nat, rounds: seq<Round>, q: nat)
    returns (i: nat)
    requires DistinctIds(s) && n < |s| && Eligible(s[n], Some(maxAttempts)) && 0 < limit
    requires ArrivalsAreNew(s, limit, Some(maxAttempts), rounds)
    requires Work(s[..n], maxAttempts) < Times(q + 1, limit) && q <= |rounds|
    ensures i <= q
    ensures var t := Rounds(s, limit, Some(maxAttempts), rounds[..i]);
      n < |t| && t[n] == s[n] && Attempted(t, n, limit, Some(maxAttempts))
    decreases |rounds|
  {
    if Attempted(s, n, limit, Some(maxAttempts)) {
      i := 0;
    } else {
      var idle := Round(_ => true, 0, []);
      PassedBy(s, n, limit, maxAttempts, idle);
      if q > 0 {
        PassedBy(s, n, limit, maxAttempts, rounds[0]);
        var next := After(s, limit, Some(maxAttempts), rounds[0]);
        var k := DelayedByWork(next, n, limit, maxAttempts, rounds[1..], q - 1);
        i := k + 1;
        RoundsStep(s, limit, Some(maxAttempts), rounds, k);
      }
    }
  }

  lemma {:induction false} RoundsStep(s: seq<Record>, limit: nat, maxAttempts: Option<int>, rounds: seq<Round>, k: nat)
    requires k < |rounds|
    ensures Rounds(s, limit, maxAttempts, rounds[..k + 1])
      == Rounds(After(s, limit, maxAttempts, rounds[0]), limit, maxAttempts, rounds[1..][..k])
  {
    assert rounds[..k + 1][0] == rounds[0] && rounds[..k + 1][1..] == rounds[1..][..k];
  }

  /** An eligible record is attempted within floor(S / limit) + 1 batches, where S is the attempts left over eligible
      records older than it, whichever publishes fail and whatever newer records arrive. */
  lemma {:induction false} HeadOfLineDelay(s: seq<Record>, n: nat, limit: nat, maxAttempts: nat, rounds: seq<Round>) returns (i: nat)
    requires DistinctIds(s) && n < |s| && Eligible(s[n], Some(maxAttempts)) && 0 < limit
    requires ArrivalsAreNew(s, limit, Some(maxAttempts), rounds)
    requires |rounds| >= Work(s[..n], maxAttempts) / limit
    ensures i <= Work(s[..n], maxAttempts) / limit && i <= |rounds|
    ensures var t := Rounds(s, limit, Some(maxAttempts), rounds[..i]);
      n < |t| && t[n] == s[n] && Attempted(t, n, limit, Some(maxAttempts))
  {
    var q, rest := Divided(Work(s[..n], maxAttempts), limit);
    i := DelayedByWork(s, n, limit, maxAttempts, rounds, q);
  }

  // ---------------------------------------------------------------- the polling loop

  /** One turn of `run`: the batch raises before it commits, or commits with these publish outcomes. */
  datatype Iteration = Iteration(raises: bool, ok: Publisher, now: int)

  /** How a run paced itself: turns that went straight on, and turns that slept. */
  datatype Pace = Pace(store: seq<Record>, straightOn: nat, sleeps: nat)

  function Turn(pace: Pace, limit: nat, maxAttempts: Option<int>, iteration: Iteration): Pace {
    if iteration.raises then pace.(sleeps := pace.sleeps + 1) else
    var batch := RunOnce(pace.store, limit, maxAttempts, iteration.ok, iteration.now);
    if batch.published >= limit then Pace(batch.store, pace.straightOn + 1, pace.sleeps)
    else Pace(batch.store, pace.straightOn, pace.sleeps + 1)
  }

  function Turns(s: seq<Record>, limit: nat, maxAttempts: Option<int>, iterations: seq<Iteration>): Pace
    decreases |iterations|
  {
    if iterations == [] then Pace(s, 0, 0) else
    var n := |iterations| - 1;
    Turn(Turns(s, limit, maxAttempts, iterations[..n]), limit, maxAttempts, iterations[n])
  }

  function Unpublished(s: seq<Record>): nat {
    if s == [] then 0 else Unpublished(s[1..]) + if s[0].publishedAt.None? then 1 else 0
  }

  /** A batch takes exactly the records it published off the unpublished ones. */
  lemma {:induction false} PublishedLeave(s: seq<Record>, room: nat, maxAttempts: Option<int>, ok: Publisher, j: nat, now: int)
    ensures Unpublished(Walk(s, room, maxAttempts, ok, j, now))
            + |Outcomes(Take(Eligibles(s, maxAttempts), room), ok, j, true)| == Unpublished(s)
  {
    if s != [] {
      var rest, fetched := s[1..], Take(Eligibles(s, maxAttempts), room);
      var r := Walk(s, room, maxAttempts, ok, j, now);
      if room > 0 && Eligible(s[0], maxAttempts) {
        assert fetched[0] == s[0] && fetched[1..] == Take(Eligibles(rest, maxAttempts), room - 1);
        assert r[1..] == Walk(rest, room - 1, maxAttempts, ok, j + 1, now);
        PublishedLeave(rest, room - 1, maxAttempts, ok, j + 1, now);
      } else {
        assert fetched == Take(Eligibles(rest, maxAttempts), room);
        assert r[1..] == Walk(rest, room, maxAttempts, ok, j, now);
        PublishedLeave(rest, room, maxAttempts, ok, j, now);
      }
    }
  }

  lemma {:induction false} BatchPublishes(s: seq<Record>, limit: nat, maxAttempts: Option<int>, iteration: Iteration)
    requires DistinctIds(s)
    ensures var batch := RunOnce(s, limit, maxAttempts, iteration.ok, iteration.now);
      DistinctIds(batch.store) && Unpublished(batch.store) + batch.published == Unpublished(s)
  {
    RunOnceIsTheWalk(s, limit, maxAttempts, iteration.ok, iteration.now);
    PublishedLeave(s, limit, maxAttempts, iteration.ok, 0, iteration.now);
    WalkKeepsIds(s, limit, maxAttempts, iteration.ok, 0, iteration.now);
  }

  /** A turn of `run` sleeps exactly if it raised or published less than a full batch: if the unpublished records fell by
      less than the limit. Otherwise it goes straight on. */
  lemma {:induction false} SleepsIff(s: seq<Record>, limit: nat, maxAttempts: Option<int>, iterations: seq<Iteration>, i: nat)
    requires DistinctIds(s) && i < |iterations|
    ensures var before, after := Turns(s, limit, maxAttempts, iterations[..i]), Turns(s, limit, maxAttempts, iterations[..i + 1]);
      && Unpublished(after.store) <= Unpublished(before.store)
      && if iterations[i].raises || Unpublished(before.store) - Unpublished(after.store) < limit
         then after.sleeps == before.sleeps + 1 && after.straightOn == before.straightOn
         else after.straightOn == before.straightOn + 1 && after.sleeps == before.sleeps
    ensures iterations[i].raises ==> Turns(s, limit, maxAttempts, iterations[..i + 1]).store == Turns(s, limit, maxAttempts, iterations[..i]).store
  {
    assert iterations[..i + 1][..i] == iterations[..i];
    StraightOnPublishes(s, limit, maxAttempts, iterations[..i]);
    BatchPublishes(Turns(s, limit, maxAttempts, iterations[..i]).store, limit, maxAttempts, iterations[i]);
  }

  lemma {:induction false} TurnPublishes(pace: Pace, limit: nat, maxAttempts: Option<int>, iteration: Iteration)
    requires DistinctIds(pace.store)
    ensures var next := Turn(pace, limit, maxAttempts, iteration);
      && DistinctIds(next.store) && next.straightOn + next.sleeps == pace.straightOn + pace.sleeps + 1
      && Times(next.straightOn, limit) + Unpublished(next.store) <= Times(pace.straightOn, limit) + Unpublished(pace.store)
  {
    BatchPublishes(pace.store, limit, maxAttempts, iteration);
  }

  lemma {:induction false} StraightOnPublishes(s: seq<Record>, limit: nat, maxAttempts: Option<int>, iterations: seq<Iteration>)
    requires DistinctIds(s)
    ensures var pace := Turns(s, limit, maxAttempts, iterations);
      && DistinctIds(pace.store) && pace.straightOn + pace.sleeps == |iterations|
      && Times(pace.straightOn, limit) + Unpublished(pace.store) <= Unpublished(s)
    decreases |iterations|
  {
    if iterations != [] {
      var n := |iterations| - 1;
      StraightOnPublishes(s, limit, maxAttempts, iterations[..n]);
      TurnPublishes(Turns(s, limit, maxAttempts, iterations[..n]), limit, maxAttempts, iterations[n]);
    }
  }

  /** With no new saves `run` goes straight on at most unpublished / batch_size times; every other turn sleeps. */
  lemma {:induction false} BackToBackBound(s: seq<Record>, limit: nat, maxAttempts: Option<int>, iterations: seq<Iteration>)
    requires DistinctIds(s) && 0 < limit
    ensures Turns(s, limit, maxAttempts, iterations).straightOn <= Unpublished(s) / limit
    ensures Turns(s, limit, maxAttempts, iterations).sleeps >= |iterations| - Unpublished(s) / limit
  {
    StraightOnPublishes(s, limit, maxAttempts, iterations);
    var pace := Turns(s, limit, maxAttempts, iterations);
    QuotientBound(pace.straightOn, limit, Unpublished(s));
  }
}

/** The in-memory store stands in for the SQL store: a relay on either publishes the same records in the same order. */
module StoreSimulation {
  import opened OutboxRecords
  import opened RelayBatches
  import opened SqlStore
  import opened Wrappers

  /** What a batch publishes and leaves in the table when the query returned `fetched`. */
  function SqlBatch(rows: Rows, fetched: seq<Record>, round: Round): (seq<nat>, Rows) {
    var published, failed := Outcomes(fetched, round.ok, 0, true), Outcomes(fetched, round.ok, 0, false);
    (published, CountFailed(Mark(rows, published, round.now), failed))
  }

  function MemoryBatch(s: seq<Record>, limit: nat, maxAttempts: Option<int>, round: Round): seq<nat> {
    Outcomes(Take(Eligibles(s, maxAttempts), limit), round.ok, 0, true)
  }

  /** Everything a run publishes; new records are saved after each batch. */
  function MemoryPublications(s: seq<Record>, limit: nat, maxAttempts: Option<int>, rounds: seq<Round>): seq<nat>
    decreases |rounds|
  {
    if rounds == [] then [] else
    MemoryBatch(s, limit, maxAttempts, rounds[0])
    + MemoryPublications(After(s, limit, maxAttempts, rounds[0]), limit, maxAttempts, rounds[1..])
  }

  /** The same on the table, the queries having returned `fetches`; None when a save breaks the primary key. */
  function SqlPublications(rows: Rows, rounds: seq<Round>, fetches: seq<seq<Record>>): Option<seq<nat>>
    requires |fetches| == |rounds|
    decreases |rounds|
  {
    if rounds == [] then Some([]) else
    var (published, after) := SqlBatch(rows, fetches[0], rounds[0]);
    var saved := Insert(after, rounds[0].arrivals);
    if saved.None? then None else
    var rest := SqlPublications(saved.value, rounds[1..], fetches[1..]);
    if rest.None? then None else Some(published + rest.value)
  }

  /** The table after a batch and the save that follows it; a save that breaks the primary key is rolled back. */
  function SqlAfter(rows: Rows, fetched: seq<Record>, round: Round): Rows {
    var after := SqlBatch(rows, fetched, round).1;
    var saved := Insert(after, round.arrivals);
    if saved.Some? then saved.value else after
  }

  /** Each query returned a result that its filter, order and limit allow. */
  predicate Allowed(rows: Rows, limit: nat, maxAttempts: Option<int>, rounds: seq<Round>, fetches: seq<seq<Record>>)
    requires |fetches| == |rounds|
    decreases |rounds|
  {
    rounds == [] ||
    (Ordered(Filtered(rows, maxAttempts), limit, fetches[0])
     && Allowed(SqlAfter(rows, fetches[0], rounds[0]), limit, maxAttempts, rounds[1..], fetches[1..]))
  }

  /** New records come with fresh ids and in increasing creation order. */
  predicate ArrivalsInOrder(s: seq<Record>, limit: nat, maxAttempts: Option<int>, rounds: seq<Round>)
    decreases |rounds|
  {
    rounds == [] ||
    (var next := After(s, limit, maxAttempts, rounds[0]);
     InOrder(next) && DistinctIds(next) && ArrivalsInOrder(next, limit, maxAttempts, rounds[1..]))
  }

  lemma {:induction false} BatchKeepsSame(s: seq<Record>, rows: Rows, limit: nat, maxAttempts: Option<int>, fetched: seq<Record>, round: Round)
    requires Same(s, rows) && InOrder(s) && Ordered(Filtered(rows, maxAttempts), limit, fetched)
    ensures var (published, after) := SqlBatch(rows, fetched, round);
      && published == MemoryBatch(s, limit, maxAttempts, round)
      && Same(RunOnce(s, limit, maxAttempts, round.ok, round.now).store, after)
  {
    SameFilter(s, rows, maxAttempts);
    EligiblesInOrder(s, maxAttempts);
    EligiblesDistinct(s, maxAttempts);
    OnlyOneOrder(Eligibles(s, maxAttempts), limit, fetched);
    var published, failed := Outcomes(fetched, round.ok, 0, true), Outcomes(fetched, round.ok, 0, false);
    FetchedAreStored(s, limit, maxAttempts);
    OutcomesDoNotRepeat(fetched, round.ok, 0, false);
    NoRepeatsAtMostOnce(failed);
    StepKeepsSame(s, rows, MarkPublished(published, round.now));
    StepKeepsSame(MarkAll(s, published, round.now), Mark(rows, published, round.now), RecordFailedAttempts(failed));
  }

  /** Whichever allowed results the queries return, the SQL store's run publishes what the in-memory store's does. */
  lemma {:induction false} PublicationsAgree(s: seq<Record>, rows: Rows, limit: nat, maxAttempts: Option<int>,
                                             rounds: seq<Round>, fetches: seq<seq<Record>>)
    requires Same(s, rows) && InOrder(s) && ArrivalsInOrder(s, limit, maxAttempts, rounds)
    requires |fetches| == |rounds| && Allowed(rows, limit, maxAttempts, rounds, fetches)
    ensures SqlPublications(rows, rounds, fetches) == Some(MemoryPublications(s, limit, maxAttempts, rounds))
    decreases |rounds|
  {
    if rounds != [] {
      var round := rounds[0];
      BatchKeepsSame(s, rows, limit, maxAttempts, fetches[0], round);
      var t, after := RunOnce(s, limit, maxAttempts, round.ok, round.now).store, SqlBatch(rows, fetches[0], round).1;
      SaveKeepsSame(t, after, round.arrivals);
      PublicationsAgree(t + round.arrivals, Insert(after, round.arrivals).value, limit, maxAttempts, rounds[1..], fetches[1..]);
    }
  }
}

/** The relay over the in-memory store. */
module OutboxRelays {
  import opened InMemoryStores
  import opened OutboxRecords
  import opened Wrappers
  import RelayBatches

  class OutboxRelay {
    const store: InMemoryOutboxStore
    const batchSize: nat
    const maxAttempts: Option<int>

    ghost predicate Valid() { ValidFetch(batchSize, maxAttempts) }

    constructor (store: InMemoryOutboxStore, batchSize: nat, maxAttempts: Option<int>)
      requires ValidFetch(batchSize, maxAttempts)
      ensures Valid() && this.store == store && this.batchSize == batchSize && this.maxAttempts == maxAttempts
    {
      this.store := store;
      this.batchSize := batchSize;
      this.maxAttempts := maxAttempts;
    }

    /** The constructor with its checks. */
    static method Create(store: InMemoryOutboxStore, batchSize: int, maxAttempts: Option<int>)
      returns (r: Result<OutboxRelay, ValueError>)
      ensures r.Ok? <==> batchSize > 0 && (maxAttempts.None? || maxAttempts.value > 0)
      ensures r.Ok? ==> fresh(r.value) && r.value.Valid() && r.value.store == store
      ensures r.Ok? ==> r.value.batchSize == batchSize && r.value.maxAttempts == maxAttempts
    {
      if batchSize <= 0 {
        return Err(ValueError);
      }
      if maxAttempts.Some? && maxAttempts.value <= 0 {
        return Err(ValueError);
      }
      var relay := new OutboxRelay(store, batchSize, maxAttempts);
      return Ok(relay);
    }

    method RunOnce(ok: RelayBatches.Publisher, now: int) returns (count: nat)
      requires Valid()
      modifies store
      ensures RelayBatches.Batch(store.records, count) == RelayBatches.RunOnce(old(store.records), batchSize, maxAttempts, ok, now)
    {
      var fetch := store.FetchUnpublished(batchSize, maxAttempts);
      var records := fetch.value;
      var published, failed: seq<nat> := [], [];
      var j := 0;
      while j < |records|
        invariant 0 <= j <= |records|
        invariant published + RelayBatches.Outcomes(records[j..], ok, j, true) == RelayBatches.Outcomes(records, ok, 0, true)
        invariant failed + RelayBatches.Outcomes(records[j..], ok, j, false) == RelayBatches.Outcomes(records, ok, 0, false)
      {
        if ok(j) {
          published := published + [records[j].id];
        } else {
          failed := failed + [records[j].id];
        }
        assert records[j..][1..] == records[j + 1..];
        j := j + 1;
      }
      assert records[j..] == [];
      assert published == RelayBatches.Outcomes(records, ok, 0, true);
      assert failed == RelayBatches.Outcomes(records, ok, 0, false);
      store.MarkPublished(published, now);
      if failed != [] {
        store.RecordFailedAttempts(failed);
      }
      count := |published|;
    }

    /** `run` until `stop`, which comes after the listed turns. */
    method Run(pollInterval: real, iterations: seq<RelayBatches.Iteration>) returns (r: Result<RelayBatches.Pace, ValueError>)
      requires Valid()
      modifies store
      ensures r.Err? <==> pollInterval <= 0.0
      ensures r.Err? ==> store.records == old(store.records)
      ensures r.Ok? ==> r.value == RelayBatches.Turns(old(store.records), batchSize, maxAttempts, iterations)
      ensures r.Ok? ==> store.records == r.value.store
    {
      if pollInterval <= 0.0 {
        return Err(ValueError);
      }
      var straightOn, sleeps := 0, 0;
      var i := 0;
      while i < |iterations|
        invariant 0 <= i <= |iterations|
        invariant RelayBatches.Pace(store.records, straightOn, sleeps)
          == RelayBatches.Turns(old(store.records), batchSize, maxAttempts, iterations[..i])
      {
        var published := 0;
        if !iterations[i].raises {
          published := RunOnce(iterations[i].ok, iterations[i].now);
        }
        if published >= batchSize {
          straightOn := straightOn + 1;
        } else {
          sleeps := sleeps + 1;
        }
        assert iterations[..i + 1][..i] == iterations[..i];
        i := i + 1;
      }
      assert iterations[..i] == iterations;
      return Ok(RelayBatches.Pace(store.records, straightOn, sleeps));
    }
  }
}
