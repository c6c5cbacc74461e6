/** Every concurrent run of one breaker: calls are admitted at one moment and report at a later one, possibly in
    another era. `World` adds to the breaker the outstanding calls, each tagged with the era that admitted it, and the
    history the theorems are about. */
module BreakerRuns {
  import opened Wrappers
  import opened BreakerModel

  /** `at` is the monotonic clock's reading when the breaker's lock is held. */
  datatype Event =
    | Call(id: nat, at: real)
    | Succeed(id: nat, at: real)
    | Fail(id: nat, at: real)
    | Abandon(id: nat, at: real)

  datatype World = World(
    b: Breaker,
    now: real,
    era: nat,               // state changes so far
    calls: map<nat, nat>,   // outstanding calls and the era that admitted each
    openings: seq<real>,    // when the breaker opened
    halfEras: nat,          // half-open eras so far
    probes: nat,            // calls admitted while half-open
    freed: nat,             // abandonments that freed a probe slot
    stale: nat,             // those made in this era by calls of an earlier one
    absorbed: nat           // probes of this era abandoned while no slot was taken
  )

  function Start(t: real): World { World(FRESH, t, 0, map[], [], 0, 0, 0, 0, 0) }

  predicate Enabled(w: World, e: Event) {
    w.now <= e.at && (e.Call? <==> e.id !in w.calls)
  }

  /** Moves to breaker `b` at time `at`, recording a change of state. */
  function Advance(w: World, b: Breaker, at: real): World {
    if b.state == w.b.state then w.(b := b, now := at)
    else w.(b := b, now := at, era := w.era + 1, stale := 0, absorbed := 0,
            openings := if b.state.Open? then w.openings + [at] else w.openings,
            halfEras := if b.state.HalfOpen? then w.halfEras + 1 else w.halfEras)
  }

  function Apply(c: Config, w: World, e: Event): World
    requires Enabled(w, e)
  {
    match e
    case Call(id, at) =>
      var (b, admission) := BeforeCall(c, w.b, at);
      var v := Advance(w, b, at);
      if admission.Admitted? then
        v.(calls := v.calls[id := v.era], probes := if b.state.HalfOpen? then v.probes + 1 else v.probes)
      else v
    case Succeed(id, at) => Advance(w, OnSuccess(w.b, at), at).(calls := w.calls - {id})
    case Fail(id, at) => Advance(w, OnFailure(c, w.b, at), at).(calls := w.calls - {id})
    case Abandon(id, at) =>
      var frees := w.b.state.HalfOpen? && w.b.inFlight > 0;
      Advance(w, OnAbandoned(w.b), at).(
        calls := w.calls - {id},
        freed := if frees then w.freed + 1 else w.freed,
        stale := if frees && w.calls[id] != w.era then w.stale + 1 else w.stale,
        absorbed := if w.b.state.HalfOpen? && !frees && w.calls[id] == w.era then w.absorbed + 1 else w.absorbed)
  }

  /** `trace` can happen, starting at time `t`. */
  ghost predicate Valid(c: Config, t: real, trace: seq<Event>)
    decreases |trace|, 0
  {
    trace == [] ||
    (Valid(c, t, trace[..|trace| - 1]) && Enabled(Run(c, t, trace[..|trace| - 1]), trace[|trace| - 1]))
  }

  ghost function Run(c: Config, t: real, trace: seq<Event>): World
    requires Valid(c, t, trace)
    decreases |trace|, 1
  {
    if trace == [] then Start(t) else Apply(c, Run(c, t, trace[..|trace| - 1]), trace[|trace| - 1])
  }

  /** The calls of era `era` still outstanding. */
  function Outstanding(w: World, era: nat): set<nat> {
    set id | id in w.calls && w.calls[id] == era
  }

  /** The probes of the present half-open era still outstanding. */
  function Probes(w: World): set<nat> { Outstanding(w, w.era) }

  // ---------------------------------------------------------------- invariants

  ghost predicate SlotsInv(c: Config, w: World) {
    && (forall id :: id in w.calls ==> w.calls[id] <= w.era)
    && (w.b.state.HalfOpen? ==> 0 <= w.b.inFlight <= c.halfOpenMaxCalls)
    && (w.b.state.HalfOpen? ==> w.b.inFlight <= |Probes(w)| == w.b.inFlight + w.stale - w.absorbed)
  }

  ghost predicate ClockInv(c: Config, w: World) {
    Clock(c, w.b, w.now, w.openings, w.halfEras)
  }

  predicate Clock(c: Config, b: Breaker, now: real, openings: seq<real>, halfEras: nat) {
    var n := |openings|;
    && (b.state.Closed? ==> b.failureCount < c.failureThreshold && b.openedAt.None?)
    && (!b.state.Closed? ==> n > 0 && b.openedAt == Some(openings[n - 1]))
    && (n > 0 ==> openings[n - 1] <= now)
    && (n > 0 && !b.state.Open? ==> openings[n - 1] + c.recoveryTimeout <= now)
    && (forall i :: 0 < i < n ==> openings[i - 1] + c.recoveryTimeout <= openings[i])
    && halfEras == if b.state.Open? then n - 1 else n
  }

  /** Each past half-open era admitted at most the limit, plus one for each slot freed. */
  ghost predicate ProbesInv(c: Config, w: World) {
    && (w.halfEras == 0 ==> w.probes == 0)
    && if w.b.state.HalfOpen? then
      w.halfEras >= 1 && w.probes <= c.halfOpenMaxCalls * (w.halfEras - 1) + w.freed + w.b.inFlight
    else w.probes <= c.halfOpenMaxCalls * w.halfEras + w.freed
  }

  lemma {:induction false} CallKeepsSlots(c: Config, w: World, e: Event)
    requires SlotsInv(c, w) && Enabled(w, e) && e.Call?
    ensures SlotsInv(c, Apply(c, w, e))
  {
    var v := Apply(c, w, e);
    if v.b.state.HalfOpen? {
      if w.b.state.HalfOpen? {
        assert e.id in v.calls ==> Probes(v) == Probes(w) + {e.id};
        assert e.id !in v.calls ==> Probes(v) == Probes(w);
      } else {
        assert Probes(v) == {e.id};
      }
    }
  }

  lemma {:induction false} ReportKeepsSlots(c: Config, w: World, e: Event)
    requires SlotsInv(c, w) && Enabled(w, e) && !e.Call?
    ensures SlotsInv(c, Apply(c, w, e))
  {
    var v := Apply(c, w, e);
    if v.b.state.HalfOpen? {
      assert Probes(v) == Probes(w) - {e.id};
    }
  }

  lemma {:induction false} SlotsStep(c: Config, w: World, e: Event)
    requires SlotsInv(c, w) && Enabled(w, e)
    ensures SlotsInv(c, Apply(c, w, e))
  {
    if e.Call? {
      CallKeepsSlots(c, w, e);
    } else {
      ReportKeepsSlots(c, w, e);
    }
  }

  /** A move the breaker can make at `at`, as far as its clock and failure count go. */
  predicate Timely(c: Config, b: Breaker, moved: Breaker, at: real) {
    && (moved.state.Closed? ==> moved.failureCount < c.failureThreshold && moved.openedAt.None?)
    && (moved.state == b.state ==> moved.openedAt == b.openedAt)
    && (moved.state.HalfOpen? && !b.state.HalfOpen? ==>
          b.state.Open? && moved.openedAt == b.openedAt && b.openedAt.Some? && b.openedAt.value + c.recoveryTimeout <= at)
    && (moved.state.Open? && !b.state.Open? ==> moved.openedAt == Some(at))
    && (moved.state.Closed? ==> !b.state.Open?)
  }

  lemma {:induction false} AdvanceKeepsClock(c: Config, w: World, b: Breaker, at: real)
    requires ClockInv(c, w) && w.now <= at && Timely(c, w.b, b, at)
    ensures var v := Advance(w, b, at); Clock(c, v.b, v.now, v.openings, v.halfEras)
  {
  }

  lemma {:induction false} MovesAreTimely(c: Config, b: Breaker, at: real)
    requires b.state.Closed? ==> b.failureCount < c.failureThreshold && b.openedAt.None?
    ensures Timely(c, b, BeforeCall(c, b, at).0, at) && Timely(c, b, OnSuccess(b, at), at)
    ensures Timely(c, b, OnFailure(c, b, at), at) && Timely(c, b, OnAbandoned(b), at)
  {
  }

  lemma {:induction false} ClockStep(c: Config, w: World, e: Event)
    requires ClockInv(c, w) && Enabled(w, e)
    ensures ClockInv(c, Apply(c, w, e))
  {
    MovesAreTimely(c, w.b, e.at);
    match e
    case Call(_, _) => AdvanceKeepsClock(c, w, BeforeCall(c, w.b, e.at).0, e.at);
    case Succeed(_, _) => AdvanceKeepsClock(c, w, OnSuccess(w.b, e.at), e.at);
    case Fail(_, _) => AdvanceKeepsClock(c, w, OnFailure(c, w.b, e.at), e.at);
    case Abandon(_, _) => AdvanceKeepsClock(c, w, OnAbandoned(w.b), e.at);
  }

  lemma {:induction false} ProbesStep(c: Config, w: World, e: Event)
    requires SlotsInv(c, w) && ClockInv(c, w) && ProbesInv(c, w) && Enabled(w, e)
    ensures ProbesInv(c, Apply(c, w, e))
  {
    var v := Apply(c, w, e);
    var m := c.halfOpenMaxCalls;
    assert m * v.halfEras == m * (v.halfEras - 1) + m;
    assert m * w.halfEras == m * (w.halfEras - 1) + m;
    if w.b.state.HalfOpen? && e.Fail? {
      assert v.b.state.Open?;
    }
  }

  lemma {:induction false} Reachable(c: Config, t: real, trace: seq<Event>)
    requires Valid(c, t, trace)
    ensures SlotsInv(c, Run(c, t, trace)) && ClockInv(c, Run(c, t, trace)) && ProbesInv(c, Run(c, t, trace))
  {
    if trace != [] {
      var before := trace[..|trace| - 1];
      Reachable(c, t, before);
      SlotsStep(c, Run(c, t, before), trace[|trace| - 1]);
      ClockStep(c, Run(c, t, before), trace[|trace| - 1]);
      ProbesStep(c, Run(c, t, before), trace[|trace| - 1]);
    }
  }

  // ---------------------------------------------------------------- theorems

  /** The counter is never negative, never above the limit and never above the probes outstanding. It falls short of
      them by the slots that calls of earlier eras freed in this one, less the probes of this era abandoned at zero; so
      it is exact exactly when these balance, in every half-open state of every run. */
  lemma {:induction false} ProbeCounterBounds(c: Config, t: real, trace: seq<Event>)
    requires Valid(c, t, trace)
    requires Run(c, t, trace).b.state.HalfOpen?
    ensures var w := Run(c, t, trace);
      && 0 <= w.b.inFlight <= c.halfOpenMaxCalls
      && w.b.inFlight <= |Probes(w)| == w.b.inFlight + w.stale - w.absorbed
      && (w.b.inFlight == |Probes(w)| <==> w.stale == w.absorbed)
  {
    Reachable(c, t, trace);
  }

  /** In a half-open era where the counter is exact, the next event leaves it exact unless it is the abandonment of a
      call of an earlier era while some slot is taken; that one always makes it inexact. */
  lemma {:induction false} CounterStaysExactIff(c: Config, t: real, trace: seq<Event>, e: Event)
    requires Valid(c, t, trace) && Enabled(Run(c, t, trace), e)
    requires var w, v := Run(c, t, trace), Apply(c, Run(c, t, trace), e);
      w.b.state.HalfOpen? && v.b.state.HalfOpen? && w.b.inFlight == |Probes(w)|
    ensures var w, v := Run(c, t, trace), Apply(c, Run(c, t, trace), e);
      v.b.inFlight == |Probes(v)| <==> !(e.Abandon? && w.calls[e.id] < w.era && w.b.inFlight > 0)
  {
    Reachable(c, t, trace);
    ExactStep(c, Run(c, t, trace), e);
  }

  lemma {:induction false} ExactStep(c: Config, w: World, e: Event)
    requires SlotsInv(c, w) && Enabled(w, e) && w.b.state.HalfOpen? && w.b.inFlight == |Probes(w)|
    requires Apply(c, w, e).b.state.HalfOpen?
    ensures Apply(c, w, e).b.inFlight == |Probes(Apply(c, w, e))|
      <==> !(e.Abandon? && w.calls[e.id] < w.era && w.b.inFlight > 0)
  {
    var v := Apply(c, w, e);
    if e.Call? {
      assert e.id in v.calls ==> Probes(v) == Probes(w) + {e.id};
      assert e.id !in v.calls ==> Probes(v) == Probes(w);
    } else {
      assert Probes(v) == Probes(w) - {e.id};
      if e.id in Probes(w) {
        assert |Probes(w)| > 0;
      }
    }
  }

  const ONE_PROBE: Config := Config(1, 1.0, 1)

  const STALE_CANCEL := [Call(0, 0.0), Call(1, 0.0), Fail(0, 0.0), Call(2, 1.0), Abandon(1, 1.0)]

  /** Before its last event: the breaker failed, recovered and let call 2 probe, with call 1 of the first era still out. */
  const STALE_CALL: World :=
    World(Breaker(HalfOpen, 1, Some(0.0), 1), 1.0, 2, map[1 := 0, 2 := 2], [0.0], 1, 1, 0, 0, 0)

  lemma {:induction false} StaleCallIsReachable()
    ensures Valid(ONE_PROBE, 0.0, STALE_CANCEL[..4]) && Run(ONE_PROBE, 0.0, STALE_CANCEL[..4]) == STALE_CALL
  {
    var s := STALE_CANCEL;
    assert s[..0] == [];
    RunExtends(ONE_PROBE, 0.0, s, 0);
    RunExtends(ONE_PROBE, 0.0, s, 1);
    assert Run(ONE_PROBE, 0.0, s[..2]) == World(FRESH, 0.0, 0, map[0 := 0, 1 := 0], [], 0, 0, 0, 0, 0);
    RunExtends(ONE_PROBE, 0.0, s, 2);
    assert Run(ONE_PROBE, 0.0, s[..3]) == World(Breaker(Open, 1, Some(0.0), 0), 0.0, 1, map[1 := 0], [0.0], 0, 0, 0, 0, 0);
    RunExtends(ONE_PROBE, 0.0, s, 3);
  }

  /** A run with limit 1 in which nothing of an earlier era is outstanding any more and the counter still misses the
      probe in flight: a call admitted while closed was cancelled while half-open. A second probe is then admitted. */
  lemma {:induction false} StaleCancellationBreaksTheLimit()
    ensures Valid(ONE_PROBE, 0.0, STALE_CANCEL)
    ensures var w := Run(ONE_PROBE, 0.0, STALE_CANCEL);
      && w.b.state.HalfOpen? && w.calls.Keys == Probes(w) == {2} && w.b.inFlight == 0
      && Probes(Apply(ONE_PROBE, w, Call(3, 1.0))) == {2, 3}
  {
    StaleCallIsReachable();
    RunExtends(ONE_PROBE, 0.0, STALE_CANCEL, 4);
    assert STALE_CANCEL[..5] == STALE_CANCEL;
    assert Apply(ONE_PROBE, STALE_CALL, Abandon(1, 1.0)).calls == map[2 := 2];
  }

  lemma {:induction false} RunExtends(c: Config, t: real, s: seq<Event>, n: nat)
    requires n < |s| && Valid(c, t, s[..n]) && Enabled(Run(c, t, s[..n]), s[n])
    ensures Valid(c, t, s[..n + 1]) && Run(c, t, s[..n + 1]) == Apply(c, Run(c, t, s[..n]), s[n])
  {
    assert s[..n + 1][..n] == s[..n];
  }

  /** The breaker cannot wedge: with nothing outstanding, a call is admitted unless the breaker is open and younger than
      the timeout, and `AllowsCalls` says so beforehand. */
  lemma {:induction false} NeverWedged(c: Config, t: real, trace: seq<Event>, at: real)
    requires Valid(c, t, trace)
    requires Run(c, t, trace).calls == map[] && Run(c, t, trace).now <= at
    ensures var b := Run(c, t, trace).b;
      && (b.state.Open? ==> b.openedAt.Some?)
      && BeforeCall(c, b, at).1.Admitted? == !(b.state.Open? && at < b.openedAt.value + c.recoveryTimeout)
      && AllowsCalls(c, b, at) == Some(BeforeCall(c, b, at).1.Admitted?)
  {
    Reachable(c, t, trace);
    assert Probes(Run(c, t, trace)) == {};
  }

  /** Both `assert self._opened_at is not None` statements hold in every reachable state. */
  lemma {:induction false} AssertionsHold(c: Config, t: real, trace: seq<Event>, at: real)
    requires Valid(c, t, trace)
    ensures !BeforeCall(c, Run(c, t, trace).b, at).1.AssertionFailed?
    ensures AllowsCalls(c, Run(c, t, trace).b, at).Some?
  {
    Reachable(c, t, trace);
  }

  // ---------------------------------------------------------------- what each call and report does

  /** Admits calls without keeping them: closed, with no failure counted. */
  predicate Recovered(b: Breaker) { b.state.Closed? && b.failureCount == 0 && b.openedAt == None }

  /** When a call is admitted, in every reachable state: unless the breaker is open and younger than the timeout, or
      half-open with all its probe slots taken; and the rejection says which. `AllowsCalls` knows the first only. */
  lemma {:induction false} AdmittedIff(c: Config, t: real, trace: seq<Event>, at: real)
    requires Valid(c, t, trace) && Run(c, t, trace).now <= at
    ensures var b := Run(c, t, trace).b;
      && (b.state.Open? ==> b.openedAt.Some?)
      && var young, full := b.state.Open? && at < b.openedAt.value + c.recoveryTimeout, b.state.HalfOpen? && b.inFlight == c.halfOpenMaxCalls;
      && (BeforeCall(c, b, at).1.Admitted? <==> !young && !full)
      && (BeforeCall(c, b, at).1.RejectedOpen? <==> young) && (BeforeCall(c, b, at).1.RejectedProbeLimit? <==> full)
      && AllowsCalls(c, b, at) == Some(!young)
  {
    Reachable(c, t, trace);
  }

  /** An admitted call finds the breaker closed or half-open; the first after the timeout makes it half-open. */
  lemma {:induction false} AdmissionLeaves(c: Config, t: real, trace: seq<Event>, at: real)
    requires Valid(c, t, trace) && Run(c, t, trace).now <= at && BeforeCall(c, Run(c, t, trace).b, at).1.Admitted?
    ensures var b, entered := Run(c, t, trace).b, BeforeCall(c, Run(c, t, trace).b, at).0;
      if b.state.Closed? then entered == b
      else entered.state.HalfOpen? && entered.inFlight == (if b.state.HalfOpen? then b.inFlight else 0) + 1
  {
    Reachable(c, t, trace);
  }

  /** One reported success closes a half-open breaker: nothing is counted against it any more and the next call is
      admitted, whenever it comes. */
  lemma {:induction false} SuccessCloses(c: Config, t: real, trace: seq<Event>, id: nat, at: real, later: real)
    requires Valid(c, t, trace) && Enabled(Run(c, t, trace), Succeed(id, at)) && at <= later
    requires Run(c, t, trace).b.state.HalfOpen?
    ensures var v := Apply(c, Run(c, t, trace), Succeed(id, at));
      Recovered(v.b) && BeforeCall(c, v.b, later).1.Admitted? && AllowsCalls(c, v.b, later) == Some(true)
  {
  }

  /** One reported failure opens it again, for a whole timeout from then. */
  lemma {:induction false} FailureReopens(c: Config, t: real, trace: seq<Event>, id: nat, at: real, later: real)
    requires Valid(c, t, trace) && Enabled(Run(c, t, trace), Fail(id, at)) && at <= later
    requires Run(c, t, trace).b.state.HalfOpen?
    ensures var v := Apply(c, Run(c, t, trace), Fail(id, at));
      && v.b.state.Open? && v.b.openedAt == Some(at)
      && (BeforeCall(c, v.b, later).1.Admitted? <==> at + c.recoveryTimeout <= later)
  {
  }

  /** A report that comes while the breaker is open neither closes it nor keeps it open longer. */
  lemma {:induction false} LateReportsChangeNothing(c: Config, t: real, trace: seq<Event>, e: Event)
    requires Valid(c, t, trace) && Enabled(Run(c, t, trace), e) && !e.Call? && Run(c, t, trace).b.state.Open?
    ensures var w, v := Run(c, t, trace), Apply(c, Run(c, t, trace), e);
      v.b.state.Open? && v.b.openedAt == w.b.openedAt && v.openings == w.openings
  {
  }

  /** An abandoned call decides nothing: the state and the count of failures stay. */
  lemma {:induction false} AbandonmentDecidesNothing(c: Config, t: real, trace: seq<Event>, id: nat, at: real)
    requires Valid(c, t, trace) && Enabled(Run(c, t, trace), Abandon(id, at))
    ensures var w, v := Run(c, t, trace), Apply(c, Run(c, t, trace), Abandon(id, at));
      && v.b == w.b.(inFlight := v.b.inFlight)
      && v.b.inFlight == if w.b.state.HalfOpen? && w.b.inFlight > 0 then w.b.inFlight - 1 else w.b.inFlight
  {
  }

  /** The breaker always recovers: with no call outstanding, one that comes once the timeout has passed is admitted, and
      its success leaves the breaker closed and ready for the next. */
  lemma {:induction false} OneSuccessRecovers(c: Config, t: real, trace: seq<Event>, id: nat, at: real, done: real)
    requires Valid(c, t, trace) && Run(c, t, trace).calls == map[] && Run(c, t, trace).now <= at <= done
    requires var b := Run(c, t, trace).b; b.state.Open? && b.openedAt.Some? ==> b.openedAt.value + c.recoveryTimeout <= at
    ensures var called := Apply(c, Run(c, t, trace), Call(id, at));
      && called.calls.Keys == {id} && Enabled(called, Succeed(id, done))
      && var v := Apply(c, called, Succeed(id, done));
      && Recovered(v.b) && v.calls == map[]
      && Valid(c, t, trace + [Call(id, at)] + [Succeed(id, done)]) && Run(c, t, trace + [Call(id, at)] + [Succeed(id, done)]) == v
  {
    Reachable(c, t, trace);
    var w := Run(c, t, trace);
    NeverWedged(c, t, trace, at);
    CallThenSucceed(c, w, id, at, done);
    OneMore(c, t, trace, Call(id, at));
    OneMore(c, t, trace + [Call(id, at)], Succeed(id, done));
  }

  lemma {:induction false} CallThenSucceed(c: Config, w: World, id: nat, at: real, done: real)
    requires ClockInv(c, w) && w.calls == map[] && w.now <= at <= done && BeforeCall(c, w.b, at).1.Admitted?
    ensures var called := Apply(c, w, Call(id, at));
      && called.calls.Keys == {id} && Enabled(called, Succeed(id, done))
      && var v := Apply(c, called, Succeed(id, done)); Recovered(v.b) && v.calls == map[]
  {
  }

  lemma {:induction false} OneMore(c: Config, t: real, trace: seq<Event>, e: Event)
    requires Valid(c, t, trace) && Enabled(Run(c, t, trace), e)
    ensures Valid(c, t, trace + [e]) && Run(c, t, trace + [e]) == Apply(c, Run(c, t, trace), e)
  {
    assert (trace + [e])[..|trace|] == trace;
  }

  /** Counted failures reported since the last success. */
  ghost function FailureRun(trace: seq<Event>): nat {
    if trace == [] then 0 else
    match trace[|trace| - 1]
    case Succeed(_, _) => 0
    case Fail(_, _) => FailureRun(trace[..|trace| - 1]) + 1
    case _ => FailureRun(trace[..|trace| - 1])
  }

  lemma {:induction false} FailureCountIsTheRun(c: Config, t: real, trace: seq<Event>)
    requires Valid(c, t, trace) && Run(c, t, trace).b.state.Closed?
    ensures Run(c, t, trace).b.failureCount == FailureRun(trace) < c.failureThreshold
  {
    Reachable(c, t, trace);
    if trace != [] {
      var before := trace[..|trace| - 1];
      if Run(c, t, before).b.state.Closed? {
        FailureCountIsTheRun(c, t, before);
      } else {
        assert trace[|trace| - 1].Succeed?;
      }
    }
  }

  /** A closed breaker opens exactly on the threshold-th consecutive counted failure, and does nothing else. */
  lemma {:induction false} OpensExactlyAtTheThreshold(c: Config, t: real, trace: seq<Event>, e: Event)
    requires Valid(c, t, trace) && Enabled(Run(c, t, trace), e) && Run(c, t, trace).b.state.Closed?
    ensures var v := Apply(c, Run(c, t, trace), e);
      && (v.b.state.Open? <==> e.Fail? && FailureRun(trace + [e]) == c.failureThreshold)
      && !v.b.state.HalfOpen?
      && (v.b.state.Open? ==> v.b.openedAt == Some(e.at))
  {
    FailureCountIsTheRun(c, t, trace);
    assert (trace + [e])[..|trace|] == trace;
  }

  /** No call is admitted within the recovery timeout of any opening before it. */
  lemma {:induction false} NothingAdmittedWhileRecovering(c: Config, t: real, trace: seq<Event>, at: real, i: nat)
    requires Valid(c, t, trace) && Run(c, t, trace).now <= at
    requires BeforeCall(c, Run(c, t, trace).b, at).1.Admitted?
    requires i < |Run(c, t, trace).openings|
    ensures Run(c, t, trace).openings[i] + c.recoveryTimeout <= at
  {
    Reachable(c, t, trace);
    AdmissionsWait(c, Run(c, t, trace), at, i);
  }

  lemma {:induction false} AdmissionsWait(c: Config, w: World, at: real, i: nat)
    requires ClockInv(c, w) && w.now <= at && BeforeCall(c, w.b, at).1.Admitted? && i < |w.openings|
    ensures w.openings[i] + c.recoveryTimeout <= at
  {
    OpeningsAscend(c, w, i, |w.openings| - 1);
  }

  lemma {:induction false} OpeningsAscend(c: Config, w: World, i: nat, j: nat)
    requires ClockInv(c, w) && i <= j < |w.openings|
    ensures w.openings[i] <= w.openings[j]
    decreases j
  {
    if i < j {
      OpeningsAscend(c, w, i, j - 1);
    }
  }

  lemma {:induction false} OpeningsSpaced(c: Config, w: World, i: nat, j: nat)
    requires ClockInv(c, w) && i <= j < |w.openings|
    ensures w.openings[i] + (j - i) as real * c.recoveryTimeout <= w.openings[j]
    decreases j - i
  {
    if i < j {
      OpeningsSpaced(c, w, i, j - 1);
      assert (j - i) as real * c.recoveryTimeout == (j - 1 - i) as real * c.recoveryTimeout + c.recoveryTimeout;
    }
  }

  lemma {:induction false} ProbesPerEra(c: Config, w: World)
    requires SlotsInv(c, w) && ProbesInv(c, w)
    ensures w.probes <= c.halfOpenMaxCalls * w.halfEras + w.freed
  {
    assert c.halfOpenMaxCalls * w.halfEras == c.halfOpenMaxCalls * (w.halfEras - 1) + c.halfOpenMaxCalls;
  }

  /** Half-open admissions so far are at most the limit times the whole recovery timeouts since the first opening, plus
      the probe slots that cancellations freed. */
  lemma {:induction false} ProbeTimeBound(c: Config, t: real, trace: seq<Event>)
    requires Valid(c, t, trace)
    ensures var w := Run(c, t, trace);
      if w.openings == [] then w.probes == 0
      else w.probes <= c.halfOpenMaxCalls * ((w.now - w.openings[0]) / c.recoveryTimeout).Floor + w.freed
  {
    Reachable(c, t, trace);
    var w := Run(c, t, trace);
    if w.openings != [] {
      HalfOpenErasBound(c, w);
      ProbesPerEra(c, w);
      MonotoneProduct(c.halfOpenMaxCalls, w.halfEras, ((w.now - w.openings[0]) / c.recoveryTimeout).Floor);
    }
  }

  /** Each half-open era begins at least one timeout after an opening of its own. */
  lemma {:induction false} HalfOpenErasBound(c: Config, w: World)
    requires ClockInv(c, w) && w.openings != []
    ensures w.halfEras <= ((w.now - w.openings[0]) / c.recoveryTimeout).Floor
  {
    var n := |w.openings|;
    OpeningsSpaced(c, w, 0, n - 1);
    assert n as real * c.recoveryTimeout == (n - 1) as real * c.recoveryTimeout + c.recoveryTimeout;
    WholeTimeouts(w.halfEras, w.now - w.openings[0], c.recoveryTimeout);
  }

  lemma {:induction false} WholeTimeouts(k: nat, elapsed: real, timeout: real)
    requires 0.0 < timeout && k as real * timeout <= elapsed
    ensures k <= (elapsed / timeout).Floor
  {
    assert k as real == k as real * timeout / timeout <= elapsed / timeout;
  }

  lemma {:induction false} MonotoneProduct(m: nat, a: int, b: int)
    requires a <= b
    ensures m * a <= m * b
  {
  }
}

/** Which exceptions count: the reports that guarded blocks make, one after the other. */
module GuardReports {
  import opened Wrappers
  import opened BreakerModel
  import opened BreakerRuns

  /** An exception that left a guarded block, and when. */
  datatype Leaving = Leaving(failure: Failure, at: real)

  predicate Counts(f: Failure, types: Option<set<Failure>>) { types.None? || f in types.value }

  function Reported(c: Config, b: Breaker, types: Option<set<Failure>>, leavings: seq<Leaving>): Breaker
    decreases |leavings|
  {
    if leavings == [] then b else
    Reported(c, Report(c, b, Raised(leavings[0].failure), types, leavings[0].at), types, leavings[1..])
  }

  /** What the end of a guarded block decides, on a closed and on a half-open breaker. */
  lemma {:induction false} EndingDecides(c: Config, b: Breaker, ending: Ending, types: Option<set<Failure>>, at: real)
    ensures var after, counts := Report(c, b, ending, types, at), ending.Raised? && Counts(ending.failure, types);
      && (b.state.HalfOpen? ==> after.state == if counts then Open else if ending.Cancelled? then HalfOpen else Closed)
      && (b.state.Closed? ==>
            && (after.state.Open? <==> counts && b.failureCount + 1 >= c.failureThreshold) && !after.state.HalfOpen?
            && after.failureCount == if counts then b.failureCount + 1 else if ending.Cancelled? then b.failureCount else 0)
      && (after.state.Open? && !b.state.Open? ==> after.openedAt == Some(at))
  {
  }

  /** However many exceptions of other types leave guarded blocks, a closed breaker stays closed with no failure counted,
      and a half-open one is closed by the first: the node did answer. */
  lemma {:induction false} OtherTypesNeverOpen(c: Config, b: Breaker, types: set<Failure>, leavings: seq<Leaving>)
    requires b.state.HalfOpen? || (b.state.Closed? && b.openedAt.None?)
    requires leavings != [] && forall i :: 0 <= i < |leavings| ==> leavings[i].failure !in types
    ensures Recovered(Reported(c, b, Some(types), leavings))
    decreases |leavings|
  {
    if |leavings| > 1 {
      OtherTypesNeverOpen(c, Report(c, b, Raised(leavings[0].failure), Some(types), leavings[0].at), types, leavings[1..]);
    }
  }

  /** Exceptions of a counted type, one after the other, open a closed breaker exactly when they reach its threshold. */
  lemma {:induction false} CountedTypesOpenIff(c: Config, b: Breaker, types: Option<set<Failure>>, leavings: seq<Leaving>)
    requires b.state.Closed? && b.failureCount < c.failureThreshold
    requires forall i :: 0 <= i < |leavings| ==> Counts(leavings[i].failure, types)
    ensures var after := Reported(c, b, types, leavings);
      && (after.state.Open? <==> b.failureCount + |leavings| >= c.failureThreshold) && !after.state.HalfOpen?
      && (after.state.Closed? ==> after.failureCount == b.failureCount + |leavings|)
    decreases |leavings|
  {
    if leavings != [] {
      var next := Report(c, b, Raised(leavings[0].failure), types, leavings[0].at);
      if next.state.Closed? {
        CountedTypesOpenIff(c, next, types, leavings[1..]);
      } else {
        OpenStaysOpen(c, next, types, leavings[1..]);
      }
    }
  }

  lemma {:induction false} OpenStaysOpen(c: Config, b: Breaker, types: Option<set<Failure>>, leavings: seq<Leaving>)
    requires b.state.Open?
    ensures Reported(c, b, types, leavings).state.Open?
    decreases |leavings|
  {
    if leavings != [] {
      OpenStaysOpen(c, Report(c, b, Raised(leavings[0].failure), types, leavings[0].at), types, leavings[1..]);
    }
  }
}
