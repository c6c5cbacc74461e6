/** The retry loop around any call: `S` is what the call reads and changes, `A` how an attempt at it would go. */
module Retries {
  import opened Wrappers
  import opened BreakerModel

  /** What an attempt did: the state it left, the node it touched (None if none) and how it ended. */
  datatype Step<S> = Step(state: S, touched: Option<string>, ending: Ending) {
    function Touches(): seq<string> { if touched.Some? then [touched.value] else [] }
  }

  const RETRYABLE := {ConnectionLost, ConnectionTimeout, Timeout, Deadlock}

  predicate Retried(retryOn: set<Failure>, ending: Ending) {
    ending.Raised? && ending.failure in retryOn
  }

  datatype Outcome<S> = Outcome(state: S, touched: seq<string>, attempts: nat, ending: Ending)

  /** `with_retry`: at most `maxAttempts` attempts until one is not retried; `script` says how each possible one goes. */
  function WithRetry<S, A>(call: (S, A) -> Step<S>, s: S, retryOn: set<Failure>, maxAttempts: nat, script: seq<A>): Outcome<S>
    requires 1 <= maxAttempts <= |script|
    decreases maxAttempts
  {
    var step := call(s, script[0]);
    if maxAttempts == 1 || !Retried(retryOn, step.ending) then Outcome(step.state, step.Touches(), 1, step.ending)
    else
      var rest := WithRetry(call, step.state, retryOn, maxAttempts - 1, script[1..]);
      rest.(touched := step.Touches() + rest.touched, attempts := rest.attempts + 1)
  }

  /** Whether the loop goes on after `attempts` attempts, the last one ending in `ending`. */
  predicate GoesOn(retryOn: set<Failure>, maxAttempts: nat, attempts: nat, ending: Ending) {
    attempts < maxAttempts && (attempts == 0 || Retried(retryOn, ending))
  }

  /** What the loop's outcome becomes from there. */
  function Resumed<S, A>(call: (S, A) -> Step<S>, s: S, retryOn: set<Failure>, maxAttempts: nat, script: seq<A>,
                         touched: seq<string>, attempts: nat, ending: Ending): Outcome<S>
    requires maxAttempts <= |script|
  {
    if GoesOn(retryOn, maxAttempts, attempts, ending) then
      var rest := WithRetry(call, s, retryOn, maxAttempts - attempts, script[attempts..]);
      rest.(touched := touched + rest.touched, attempts := attempts + rest.attempts)
    else Outcome(s, touched, attempts, ending)
  }

  lemma {:induction false} ResumedStep<S, A>(call: (S, A) -> Step<S>, s: S, retryOn: set<Failure>, maxAttempts: nat, script: seq<A>,
                          touched: seq<string>, attempts: nat, ending: Ending, step: Step<S>)
    requires maxAttempts <= |script| && GoesOn(retryOn, maxAttempts, attempts, ending)
    requires step == call(s, script[attempts])
    ensures Resumed(call, step.state, retryOn, maxAttempts, script, touched + step.Touches(), attempts + 1, step.ending)
         == Resumed(call, s, retryOn, maxAttempts, script, touched, attempts, ending)
  {
    assert script[attempts..][1..] == script[attempts + 1..];
    if GoesOn(retryOn, maxAttempts, attempts + 1, step.ending) {
      var rest := WithRetry(call, step.state, retryOn, maxAttempts - attempts - 1, script[attempts + 1..]);
      assert touched + (step.Touches() + rest.touched) == touched + step.Touches() + rest.touched;
    }
  }

  lemma {:induction false} ResumedFromStart<S, A>(call: (S, A) -> Step<S>, s: S, retryOn: set<Failure>, maxAttempts: nat, script: seq<A>)
    requires 1 <= maxAttempts <= |script|
    ensures Resumed(call, s, retryOn, maxAttempts, script, [], 0, Cancelled) == WithRetry(call, s, retryOn, maxAttempts, script)
  {
    assert script[0..] == script;
  }

  /** Any attempts, one after the other, whichever loops they belong to: the state they leave and the nodes touched. */
  function Made<S, A>(call: (S, A) -> Step<S>, s: S, attempts: seq<A>): (S, seq<string>)
    decreases |attempts|
  {
    if attempts == [] then (s, []) else
    var step := call(s, attempts[0]);
    var rest := Made(call, step.state, attempts[1..]);
    (rest.0, step.Touches() + rest.1)
  }

  /** The `i`-th attempt, made after those before it. */
  function AttemptAt<S, A>(call: (S, A) -> Step<S>, s: S, script: seq<A>, i: nat): Step<S>
    requires i < |script|
  {
    call(Made(call, s, script[..i]).0, script[i])
  }

  lemma {:induction false} MadeFirst<S, A>(call: (S, A) -> Step<S>, s: S, script: seq<A>, n: nat)
    requires 0 < n <= |script|
    ensures var step := call(s, script[0]);
      var rest := Made(call, step.state, script[1..][..n - 1]);
      Made(call, s, script[..n]) == (rest.0, step.Touches() + rest.1)
    ensures n < |script| ==>
      AttemptAt(call, s, script, n) == AttemptAt(call, call(s, script[0]).state, script[1..], n - 1)
  {
    assert script[..n][1..] == script[1..][..n - 1];
  }

  /** The loop makes at least one attempt and at most the configured number; all but the last end in a failure that is
      retried, and when it makes fewer the last does not. It ends as its last attempt does. */
  lemma {:induction false} AttemptsAreBounded<S, A>(call: (S, A) -> Step<S>, s: S, retryOn: set<Failure>, maxAttempts: nat, script: seq<A>)
    requires 1 <= maxAttempts <= |script|
    ensures var r := WithRetry(call, s, retryOn, maxAttempts, script);
      && 1 <= r.attempts <= maxAttempts
      && |r.touched| <= r.attempts
      && (forall i: nat :: i < r.attempts - 1 ==> Retried(retryOn, AttemptAt(call, s, script, i).ending))
      && (r.attempts < maxAttempts ==> !Retried(retryOn, r.ending))
      && r.ending == AttemptAt(call, s, script, r.attempts - 1).ending
    decreases maxAttempts
  {
    var r, step := WithRetry(call, s, retryOn, maxAttempts, script), call(s, script[0]);
    assert script[..0] == [];
    if maxAttempts > 1 && Retried(retryOn, step.ending) {
      AttemptsAreBounded(call, step.state, retryOn, maxAttempts - 1, script[1..]);
      forall i: nat | i < r.attempts - 1 ensures Retried(retryOn, AttemptAt(call, s, script, i).ending) {
        if i > 0 {
          MadeFirst(call, s, script, i);
        }
      }
      MadeFirst(call, s, script, r.attempts - 1);
    }
  }

  /** `with_retry` documents that a rejection by the breaker is never retried, whatever `retry_on` says. It is retried
      exactly when `retry_on` lists it; the default does not. */
  lemma {:induction false} RejectionsAreRetriedOnlyIfListed<S, A>(call: (S, A) -> Step<S>, s: S, retryOn: set<Failure>, maxAttempts: nat, script: seq<A>)
    requires 1 < maxAttempts <= |script| && call(s, script[0]).ending == Raised(BreakerOpen)
    ensures WithRetry(call, s, retryOn, maxAttempts, script).attempts == 1 <==> BreakerOpen !in retryOn
    ensures BreakerOpen !in RETRYABLE
  {
    if BreakerOpen in retryOn {
      AttemptsAreBounded(call, call(s, script[0]).state, retryOn, maxAttempts - 1, script[1..]);
    }
  }

  /** The loop is the attempts it made, so a sequence of such loops is a sequence of attempts. */
  lemma {:induction false} LoopIsItsAttempts<S, A>(call: (S, A) -> Step<S>, s: S, retryOn: set<Failure>, maxAttempts: nat, script: seq<A>)
    requires 1 <= maxAttempts <= |script|
    ensures var r := WithRetry(call, s, retryOn, maxAttempts, script);
      0 < r.attempts <= maxAttempts && Made(call, s, script[..r.attempts]) == (r.state, r.touched)
    decreases maxAttempts
  {
    var step := call(s, script[0]);
    if maxAttempts > 1 && Retried(retryOn, step.ending) {
      LoopIsItsAttempts(call, step.state, retryOn, maxAttempts - 1, script[1..]);
      MadeFirst(call, s, script, WithRetry(call, s, retryOn, maxAttempts, script).attempts);
    } else {
      MadeFirst(call, s, script, 1);
      assert script[1..][..0] == [] && step.Touches() + [] == step.Touches();
    }
  }

  lemma {:induction false} MadeSplits<S, A>(call: (S, A) -> Step<S>, s: S, a: seq<A>, b: seq<A>)
    ensures var first := Made(call, s, a);
      var rest := Made(call, first.0, b);
      Made(call, s, a + b) == (rest.0, first.1 + rest.1)
    decreases |a|
  {
    if a == [] {
      assert a + b == b && [] + Made(call, s, b).1 == Made(call, s, b).1;
    } else {
      var step := call(s, a[0]);
      MadeSplits(call, step.state, a[1..], b);
      assert (a + b)[1..] == a[1..] + b && (a + b)[0] == a[0];
      var first := Made(call, step.state, a[1..]);
      assert step.Touches() + (first.1 + Made(call, first.0, b).1) == (step.Touches() + first.1) + Made(call, first.0, b).1;
    }
  }

  // ---------------------------------------------------------------- sequences of loops

  /** One call with its retry settings and how each possible attempt would go. */
  datatype Task<A> = Task(retryOn: set<Failure>, maxAttempts: nat, script: seq<A>)

  predicate AllCallable<A>(tasks: seq<Task<A>>) {
    forall i :: 0 <= i < |tasks| ==> 1 <= tasks[i].maxAttempts <= |tasks[i].script|
  }

  /** The loops one after the other: the state they leave and the nodes they touched. */
  function AllTasks<S, A>(call: (S, A) -> Step<S>, s: S, tasks: seq<Task<A>>): (S, seq<string>)
    requires AllCallable(tasks)
    decreases |tasks|
  {
    if tasks == [] then (s, []) else
    var r := WithRetry(call, s, tasks[0].retryOn, tasks[0].maxAttempts, tasks[0].script);
    var rest := AllTasks(call, r.state, tasks[1..]);
    (rest.0, r.touched + rest.1)
  }

  /** The attempts they make. */
  function AttemptsOf<S, A>(call: (S, A) -> Step<S>, s: S, tasks: seq<Task<A>>): seq<A>
    requires AllCallable(tasks)
    decreases |tasks|
  {
    if tasks == [] then [] else
    var r := WithRetry(call, s, tasks[0].retryOn, tasks[0].maxAttempts, tasks[0].script);
    LoopIsItsAttempts(call, s, tasks[0].retryOn, tasks[0].maxAttempts, tasks[0].script);
    tasks[0].script[..r.attempts] + AttemptsOf(call, r.state, tasks[1..])
  }

  lemma {:induction false} TasksAreTheirAttempts<S, A>(call: (S, A) -> Step<S>, s: S, tasks: seq<Task<A>>)
    requires AllCallable(tasks)
    ensures AllTasks(call, s, tasks) == Made(call, s, AttemptsOf(call, s, tasks))
    decreases |tasks|
  {
    if tasks != [] {
      var t := tasks[0];
      var r := WithRetry(call, s, t.retryOn, t.maxAttempts, t.script);
      LoopIsItsAttempts(call, s, t.retryOn, t.maxAttempts, t.script);
      TasksAreTheirAttempts(call, r.state, tasks[1..]);
      MadeSplits(call, s, t.script[..r.attempts], AttemptsOf(call, r.state, tasks[1..]));
    }
  }
}

/** Replica routing, the guarded `acquire` and the retry loop of a relational adapter, on values. */
module Routing {
  import opened Wrappers
  import opened BreakerModel
  import opened Retries
  import LoadBalancing

  datatype Role = Master | Replica

  /** A connected adapter: its nodes' breakers and the position of the replica balancer (`cycle` is [] without one). */
  datatype Pool = Pool(master: string, breakers: map<string, Breaker>, cycle: seq<string>, turn: nat) {
    predicate Valid() {
      && master in breakers
      && (forall i :: 0 <= i < |cycle| ==> cycle[i] in breakers && cycle[i] != master)
      && (cycle != [] ==> turn < |cycle|)
    }
  }

  /** One attempt: when its node is selected, when its guard is entered and left, and how its block ends. */
  datatype Attempt = Attempt(selected: real, entered: real, left: real, ending: Ending) {
    predicate InOrder() { selected <= entered <= left }
  }

  /** `_select_key`; None when `allows_calls` would fail its assertion. */
  function SelectKey(c: Config, p: Pool, role: Role, now: real): (r: (Pool, Option<string>))
    requires p.Valid()
    ensures r.0.Valid() && r.0.breakers == p.breakers && r.0.master == p.master && r.0.cycle == p.cycle
  {
    if role.Master? || p.cycle == [] then (p, Some(p.master)) else
    var key := p.cycle[p.turn];
    var q := p.(turn := LoadBalancing.After(p.cycle, p.turn));
    match AllowsCalls(c, p.breakers[key], now)
    case None => (q, None)
    case Some(allowed) => (q, Some(if allowed then key else p.master))
  }

  /** `acquire` around a block, in sequential use. */
  function Acquire(c: Config, p: Pool, role: Role, a: Attempt): (r: Step<Pool>)
    requires p.Valid()
    ensures r.state.Valid() && r.state.master == p.master && r.state.cycle == p.cycle
  {
    var (q, chosen) := SelectKey(c, p, role, a.selected);
    if chosen.None? then Step(q, None, Raised(Other)) else
    var key := chosen.value;
    var (b, admission) := BeforeCall(c, q.breakers[key], a.entered);
    var entered := q.(breakers := q.breakers[key := b]);
    if admission.AssertionFailed? then Step(entered, None, Raised(Other))
    else if !admission.Admitted? then Step(entered, None, Raised(BreakerOpen))
    else
      var left := Report(c, b, a.ending, Some(INFRASTRUCTURE_FAILURES), a.left);
      Step(entered.(breakers := entered.breakers[key := left]), Some(key), a.ending)
  }

  /** `acquire` as a call to retry; an adapter that is not connected raises before anything else. */
  function Acquiring(c: Config, role: Role): (Pool, Attempt) -> Step<Pool> {
    (p: Pool, a: Attempt) => if p.Valid() then Acquire(c, p, role, a) else Step(p, None, Raised(Other))
  }

  /** `run_read` */
  function Read(c: Config, p: Pool, role: Role, retryOn: set<Failure>, maxAttempts: nat, script: seq<Attempt>): Outcome<Pool>
    requires 1 <= maxAttempts <= |script|
  {
    WithRetry(Acquiring(c, role), p, retryOn, maxAttempts, script)
  }
}

/** The adapter that performs them in place, on the breaker and balancer objects of its nodes. */
module Adapters {
  import opened Wrappers
  import opened BreakerModel
  import Retries
  import Routing
  import LoadBalancing
  import CircuitBreakers

  type Role = Routing.Role
  type Attempt = Routing.Attempt
  type Outcome = Retries.Outcome<Routing.Pool>

  class SQLAlchemyAdapter {
    const config: Config
    var masterKey: string
    var breakers: map<string, CircuitBreakers.CircuitBreaker>
    var balancer: Option<LoadBalancing.LoadBalancer>

    ghost function Balancers(): set<LoadBalancing.LoadBalancer>
      reads this
    {
      if balancer.Some? then {balancer.value} else {}
    }

    ghost function Pool(): Routing.Pool
      reads this, breakers.Values, Balancers()
    {
      Routing.Pool(masterKey, map key | key in breakers :: breakers[key].Value(),
                   if balancer.Some? then balancer.value.sequence else [],
                   if balancer.Some? then balancer.value.position else 0)
    }

    /** Each node has a breaker of its own, with the adapter's configuration. */
    ghost predicate Valid()
      reads this, breakers.Values, Balancers()
    {
      && (forall key :: key in breakers ==> breakers[key].config == config)
      && (forall j, k :: j in breakers && k in breakers && breakers[j] == breakers[k] ==> j == k)
      && (balancer.Some? ==> balancer.value.Valid())
      && Pool().Valid()
    }

    /** `connect`: a fresh breaker for each node, and a balancer if there are replicas. */
    constructor (config: Config, masterKey: string, replicas: seq<string>, weights: seq<int>)
      requires |replicas| == |weights| && LoadBalancing.Distinct(replicas) && masterKey !in replicas
      requires forall i :: 0 <= i < |weights| ==> weights[i] >= 1
      ensures Valid() && this.config == config
      ensures Pool().master == masterKey && Pool().cycle == LoadBalancing.Expanded(replicas, weights) && Pool().turn == 0
      ensures forall key :: key in Pool().breakers <==> key == masterKey || key in replicas
      ensures forall key :: key in Pool().breakers ==> Pool().breakers[key] == FRESH
    {
      this.config, this.masterKey := config, masterKey;
      breakers, balancer := map[], None;
      new;
      Balance(replicas, weights);
      Connect([masterKey] + replicas);
      ConnectedPoolIsValid(Pool(), replicas, weights);
    }

    static lemma {:induction false} ConnectedPoolIsValid(p: Routing.Pool, replicas: seq<string>, weights: seq<int>)
      requires |replicas| == |weights| && (forall i :: 0 <= i < |weights| ==> weights[i] >= 1) && p.master !in replicas
      requires forall key :: key in p.breakers <==> key == p.master || key in replicas
      requires p.turn == 0 && p.cycle == LoadBalancing.Expanded(replicas, weights)
      ensures p.Valid()
    {
      LoadBalancing.ExpandedKeys(replicas, weights);
    }

    /** A balancer over the replicas. */
    method Balance(replicas: seq<string>, weights: seq<int>)
      requires |replicas| == |weights| && balancer == None && forall i :: 0 <= i < |weights| ==> weights[i] >= 1
      modifies this`balancer
      ensures balancer.Some? ==> fresh(balancer.value) && balancer.value.Valid() && balancer.value.position == 0
      ensures LoadBalancing.Expanded(replicas, weights) == if balancer.Some? then balancer.value.sequence else []
    {
      if replicas != [] {
        var created := new LoadBalancing.LoadBalancer(replicas, weights);
        balancer := Some(created);
      }
    }

    /** A breaker of its own for each node. */
    method Connect(keys: seq<string>)
      requires breakers == map[]
      modifies this`breakers
      ensures forall key :: key in breakers <==> key in keys
      ensures forall key :: key in breakers ==>
        fresh(breakers[key]) && breakers[key].config == config && breakers[key].Value() == FRESH
      ensures forall j, k :: j in breakers && k in breakers && breakers[j] == breakers[k] ==> j == k
    {
      var i := 0;
      while i < |keys|
        invariant 0 <= i <= |keys|
        invariant forall key :: key in breakers <==> key in keys[..i]
        invariant forall key :: key in breakers ==>
          fresh(breakers[key]) && breakers[key].config == config && breakers[key].Value() == FRESH
        invariant forall j, k :: j in breakers && k in breakers && breakers[j] == breakers[k] ==> j == k
      {
        var breaker := new CircuitBreakers.CircuitBreaker(config);
        assert forall key :: key in breakers ==> breakers[key] != breaker;
        breakers := breakers[keys[i] := breaker];
        i := i + 1;
      }
    }

    method SelectKey(role: Role, now: real) returns (key: Option<string>)
      requires Valid()
      modifies Balancers()
      ensures Valid() && (Pool(), key) == Routing.SelectKey(config, old(Pool()), role, now)
    {
      if role.Master? || balancer.None? {
        return Some(masterKey);
      }
      ghost var p := Pool();
      var next := balancer.value.Next();
      assert [next] == [p.cycle[p.turn]];
      assert Pool().breakers == p.breakers;
      var allowed := breakers[next].AllowsCalls(now);
      if allowed.None? {
        return None;
      }
      key := Some(if allowed.value then next else masterKey);
    }

    /** A change of one node's breaker changes nothing else of the pool. */
    twostate lemma {:induction false} OneMoved(key: string)
      requires old(Valid()) && key in breakers
      requires unchanged(this) && (balancer.Some? ==> unchanged(balancer.value))
      requires forall k :: k in breakers && k != key ==> unchanged(breakers[k])
      ensures Valid() && Pool() == Guarded(old(Pool()), key, breakers[key].Value())
    {
      GuardedStaysValid(old(Pool()), key, breakers[key].Value());
      assert Pool().breakers == Guarded(old(Pool()), key, breakers[key].Value()).breakers;
    }

    static lemma {:induction false} GuardedStaysValid(p: Routing.Pool, key: string, b: Breaker)
      requires p.Valid() && key in p.breakers
      ensures Guarded(p, key, b).Valid()
    {
    }

    /** The gate of the node's `guard`. */
    method Enter(key: string, now: real) returns (admission: Admission)
      requires Valid() && key in breakers
      modifies breakers[key]
      ensures Valid() && admission == BeforeCall(config, old(Pool()).breakers[key], now).1
      ensures Pool() == Guarded(old(Pool()), key, BeforeCall(config, old(Pool()).breakers[key], now).0)
    {
      admission := breakers[key].BeforeCall(now);
      OneMoved(key);
    }

    /** The report of the node's `guard`. */
    method Leave(key: string, ending: Ending, now: real)
      requires Valid() && key in breakers
      modifies breakers[key]
      ensures Valid()
      ensures Pool() == Guarded(old(Pool()), key, Report(config, old(Pool()).breakers[key], ending, Some(INFRASTRUCTURE_FAILURES), now))
    {
      breakers[key].Leave(ending, Some(INFRASTRUCTURE_FAILURES), now);
      OneMoved(key);
    }

    static ghost function Guarded(p: Routing.Pool, key: string, b: Breaker): Routing.Pool {
      p.(breakers := p.breakers[key := b])
    }

    method Acquire(role: Role, a: Attempt) returns (touched: Option<string>, ending: Ending)
      requires Valid()
      modifies Balancers(), breakers.Values
      ensures Valid() && Retries.Step(Pool(), touched, ending) == Routing.Acquire(config, old(Pool()), role, a)
    {
      var chosen := SelectKey(role, a.selected);
      if chosen.None? {
        return None, Raised(Other);
      }
      var key := chosen.value;
      assert key in Pool().breakers;
      var admission := Enter(key, a.entered);
      match admission {
        case AssertionFailed => return None, Raised(Other);
        case RejectedOpen => return None, Raised(BreakerOpen);
        case RejectedProbeLimit => return None, Raised(BreakerOpen);
        case Admitted =>
      }
      Leave(key, a.ending, a.left);
      return Some(key), a.ending;
    }

    /** What the loop's outcome becomes after the attempts `made`. */
    ghost function Resumed(role: Role, retryOn: set<Failure>, maxAttempts: nat, script: seq<Attempt>, made: Outcome): Outcome
      requires maxAttempts <= |script|
    {
      Retries.Resumed(Routing.Acquiring(config, role), made.state, retryOn, maxAttempts, script, made.touched, made.attempts, made.ending)
    }

    lemma {:induction false} ResumedTurn(role: Role, retryOn: set<Failure>, maxAttempts: nat, script: seq<Attempt>, made: Outcome,
                      step: Retries.Step<Routing.Pool>)
      requires made.state.Valid() && maxAttempts <= |script| && Retries.GoesOn(retryOn, maxAttempts, made.attempts, made.ending)
      requires step == Routing.Acquire(config, made.state, role, script[made.attempts])
      ensures Resumed(role, retryOn, maxAttempts, script,
                      Retries.Outcome(step.state, made.touched + step.Touches(), made.attempts + 1, step.ending))
           == Resumed(role, retryOn, maxAttempts, script, made)
    {
      Retries.ResumedStep(Routing.Acquiring(config, role), made.state, retryOn, maxAttempts, script,
                          made.touched, made.attempts, made.ending, step);
    }

    /** One turn of the retry loop, after the attempts `made`. */
    method Turn(role: Role, retryOn: set<Failure>, maxAttempts: nat, script: seq<Attempt>, attempts: nat, ghost made: Outcome)
      returns (touched: seq<string>, ending: Ending, ghost more: Outcome)
      requires Valid() && made.state == Pool() && made.attempts == attempts && maxAttempts <= |script|
      requires Retries.GoesOn(retryOn, maxAttempts, made.attempts, made.ending)
      modifies Balancers(), breakers.Values
      ensures Valid()
      ensures more == Retries.Outcome(Pool(), made.touched + touched, made.attempts + 1, ending)
      ensures Resumed(role, retryOn, maxAttempts, script, more) == Resumed(role, retryOn, maxAttempts, script, made)
    {
      var node;
      node, ending := Acquire(role, script[attempts]);
      touched := if node.Some? then [node.value] else [];
      ghost var step := Retries.Step(Pool(), node, ending);
      ResumedTurn(role, retryOn, maxAttempts, script, made, step);
      more := Retries.Outcome(Pool(), made.touched + touched, made.attempts + 1, ending);
    }

    lemma {:induction false} ResumedEnds(role: Role, retryOn: set<Failure>, maxAttempts: nat, script: seq<Attempt>, made: Outcome)
      requires 1 <= maxAttempts <= |script|
      ensures !Retries.GoesOn(retryOn, maxAttempts, made.attempts, made.ending) ==>
        Resumed(role, retryOn, maxAttempts, script, made) == made
      ensures made.touched == [] && made.attempts == 0 && made.ending == Cancelled ==>
        Resumed(role, retryOn, maxAttempts, script, made) == Routing.Read(config, made.state, role, retryOn, maxAttempts, script)
    {
      Retries.ResumedFromStart(Routing.Acquiring(config, role), made.state, retryOn, maxAttempts, script);
    }

    /** `run_read` through `with_retry`. */
    method RunRead(role: Role, retryOn: set<Failure>, maxAttempts: nat, script: seq<Attempt>)
      returns (touched: seq<string>, attempts: nat, ending: Ending)
      requires Valid() && 1 <= maxAttempts <= |script|
      modifies Balancers(), breakers.Values
      ensures Valid()
      ensures Retries.Outcome(Pool(), touched, attempts, ending)
           == Routing.Read(config, old(Pool()), role, retryOn, maxAttempts, script)
    {
      touched, attempts, ending := [], 0, Cancelled;
      ghost var made := Retries.Outcome(Pool(), touched, attempts, ending);
      ghost var whole := Resumed(role, retryOn, maxAttempts, script, made);
      ResumedEnds(role, retryOn, maxAttempts, script, made);
      while Retries.GoesOn(retryOn, maxAttempts, attempts, ending)
        invariant Valid() && made == Retries.Outcome(Pool(), touched, attempts, ending)
        invariant Resumed(role, retryOn, maxAttempts, script, made) == whole
        decreases maxAttempts - attempts
      {
        var node;
        node, ending, made := Turn(role, retryOn, maxAttempts, script, attempts, made);
        touched, attempts := touched + node, attempts + 1;
      }
      ResumedEnds(role, retryOn, maxAttempts, script, made);
    }
  }
}

/** What routing and retries guarantee for reads. */
module ResilientReads {
  import opened Wrappers
  import opened BreakerModel
  import opened Retries
  import opened Routing

  /** A breaker between calls in sequential use. */
  predicate Quiet(b: Breaker) {
    && (b.state.HalfOpen? ==> b.inFlight == 0)
    && (!b.state.Closed? ==> b.openedAt.Some?)
  }

  predicate QuietPool(p: Pool) {
    p.Valid() && forall key :: key in p.breakers ==> Quiet(p.breakers[key])
  }

  /** A call through a master-role `acquire` touches the master or nothing. */
  lemma {:induction false} MasterCallsStayOnTheMaster(c: Config, p: Pool, a: Attempt)
    requires p.Valid()
    ensures var r := Acquire(c, p, Role.Master, a);
      && (r.touched == None || r.touched == Some(p.master))
      && (forall key :: key in p.breakers && key != p.master ==> r.state.breakers[key] == p.breakers[key])
  {
  }

  lemma {:induction false} QuietCall(c: Config, b: Breaker, a: Attempt)
    requires Quiet(b) && a.InOrder()
    ensures var (entered, admission) := BeforeCall(c, b, a.entered);
      && !admission.AssertionFailed? && (!admission.Admitted? ==> Quiet(entered))
      && (admission.Admitted? ==> Quiet(Report(c, entered, a.ending, Some(INFRASTRUCTURE_FAILURES), a.left)))
  {
  }

  /** Sequential use stays sequential. */
  lemma {:induction false} QuietPoolStaysQuiet(c: Config, p: Pool, role: Role, a: Attempt)
    requires QuietPool(p) && a.InOrder()
    ensures QuietPool(Acquire(c, p, role, a).state)
  {
    QuietCall(c, p.breakers[p.master], a);
    if p.cycle != [] {
      QuietCall(c, p.breakers[p.cycle[p.turn]], a);
    }
  }

  /** Every breaker that has opened knows when. */
  predicate Dated(p: Pool) {
    forall key :: key in p.breakers && !p.breakers[key].state.Closed? ==> p.breakers[key].openedAt.Some?
  }

  /** Half-open with all its probe slots taken. */
  predicate AtProbeLimit(c: Config, b: Breaker) { b.state.HalfOpen? && b.inFlight >= c.halfOpenMaxCalls }

  /** When a call is rejected, whatever other calls are in progress: exactly when it fell to the master and the master's
      breaker rejects it, or it went to a replica that is at its probe limit. */
  lemma {:induction false} RejectedIff(c: Config, p: Pool, role: Role, a: Attempt)
    requires p.Valid() && Dated(p) && a.InOrder()
    ensures var chosen, r := SelectKey(c, p, role, a.selected).1, Acquire(c, p, role, a);
      && chosen.Some?
      && (r.touched.None? <==>
            if chosen.value == p.master then !BeforeCall(c, p.breakers[p.master], a.entered).1.Admitted?
            else AtProbeLimit(c, p.breakers[chosen.value]))
      && (r.touched.None? ==> r.ending == Raised(BreakerOpen))
  {
  }

  /** So only the master's breaker can reject a read, exactly as long as the replica chosen is not at its probe limit. */
  lemma {:induction false} ReadsAreRejectedByTheMasterOnly(c: Config, p: Pool, role: Role, a: Attempt)
    requires p.Valid() && Dated(p) && a.InOrder()
    ensures var chosen, r := SelectKey(c, p, role, a.selected).1, Acquire(c, p, role, a);
      chosen.Some? &&
      ((r.touched.None? ==> chosen.value == p.master && !BeforeCall(c, p.breakers[p.master], a.entered).1.Admitted?)
       <==> !(chosen.value != p.master && AtProbeLimit(c, p.breakers[chosen.value])))
  {
    RejectedIff(c, p, role, a);
  }

  /** The second case does happen: with the replica's only probe slot taken, a concurrent read is rejected although the
      master is closed, because `allows_calls` answers yes for every half-open breaker. */
  lemma {:induction false} BusyProbeRejectsAReadTheMasterCouldServe()
    ensures var c: Config := Config(1, 1.0, 1);
      var p := Pool("m", map["m" := FRESH, "r" := Breaker(HalfOpen, 1, Some(0.0), 1)], ["r"], 0);
      var r := Acquire(c, p, Replica, Attempt(1.0, 1.0, 1.0, Returned));
      p.Valid() && r.touched.None? && BeforeCall(c, p.breakers["m"], 1.0).1.Admitted?
  {
  }

  // ---------------------------------------------------------------- reads as sequences of attempts

  lemma {:induction false} MadeStaysQuiet(c: Config, p: Pool, role: Role, attempts: seq<Attempt>)
    requires QuietPool(p) && forall i :: 0 <= i < |attempts| ==> attempts[i].InOrder()
    ensures QuietPool(Made(Acquiring(c, role), p, attempts).0) && Made(Acquiring(c, role), p, attempts).0.master == p.master
    decreases |attempts|
  {
    if attempts != [] {
      QuietPoolStaysQuiet(c, p, role, attempts[0]);
      MadeStaysQuiet(c, Acquire(c, p, role, attempts[0]).state, role, attempts[1..]);
    }
  }

  /** In sequential use, each attempt of a read touches a node unless it fell to the master and the master rejected it;
      in particular a read that ends rejected was rejected by the master. */
  lemma {:induction false} ReadAttemptsAreRejectedByTheMasterOnly(c: Config, p: Pool, role: Role, retryOn: set<Failure>, maxAttempts: nat,
                                               script: seq<Attempt>, i: nat)
    requires QuietPool(p) && 1 <= maxAttempts <= |script| && forall j :: 0 <= j < |script| ==> script[j].InOrder()
    requires i < Read(c, p, role, retryOn, maxAttempts, script).attempts
    ensures i < |script| && QuietPool(Made(Acquiring(c, role), p, script[..i]).0)
    ensures var q := Made(Acquiring(c, role), p, script[..i]).0;
      AttemptAt(Acquiring(c, role), p, script, i).touched.None? <==>
        SelectKey(c, q, role, script[i].selected).1 == Some(p.master)
        && !BeforeCall(c, q.breakers[p.master], script[i].entered).1.Admitted?
  {
    AttemptsAreBounded(Acquiring(c, role), p, retryOn, maxAttempts, script);
    MadeStaysQuiet(c, p, role, script[..i]);
    RejectedIff(c, Made(Acquiring(c, role), p, script[..i]).0, role, script[i]);
  }

  // ---------------------------------------------------------------- a total outage of a single node

  /** Attempts in time order, none before `now`, all failing as a lost connection or a timeout does. */
  predicate Outage(now: real, script: seq<Attempt>)
    decreases |script|
  {
    script == [] ||
    (now <= script[0].selected && script[0].InOrder()
     && script[0].ending.Raised? && script[0].ending.failure in INFRASTRUCTURE_FAILURES
     && Outage(script[0].left, script[1..]))
  }

  predicate SingleNode(p: Pool) { QuietPool(p) && p.cycle == [] }

  /** `n` recovery timeouts, by addition, so that the accounting stays linear. */
  function Span(n: nat, timeout: real): real {
    if n == 0 then 0.0 else Span(n - 1, timeout) + timeout
  }

  lemma {:induction false} SpanIsProduct(n: nat, timeout: real)
    ensures Span(n, timeout) == n as real * timeout
  {
    if n > 0 {
      SpanIsProduct(n - 1, timeout);
    }
  }

  lemma {:induction false} SpanGrows(n: nat, m: nat, timeout: real)
    requires n <= m && 0.0 < timeout
    ensures Span(n, timeout) <= Span(m, timeout)
  {
    if n < m {
      SpanGrows(n, m - 1, timeout);
    }
  }

  /** The moment up to which touches have been paid for: each touch in an outage moves it on by a recovery timeout. */
  function PaidUntil(c: Config, b: Breaker, now: real): real
    requires Quiet(b) && Bounded(c, b, now)
  {
    match b.state
    case Closed => now - Span(c.failureThreshold - b.failureCount, c.recoveryTimeout)
    case HalfOpen => now - c.recoveryTimeout
    case Open => if b.openedAt.value < now - c.recoveryTimeout then now - c.recoveryTimeout else b.openedAt.value
  }

  predicate Bounded(c: Config, b: Breaker, now: real) {
    && (b.state.Closed? ==> b.failureCount < c.failureThreshold)
    && (b.state.Open? && b.openedAt.Some? ==> b.openedAt.value <= now)
  }

  /** What an attempt of an outage does to the single node's breaker. */
  function Hit(c: Config, b: Breaker, a: Attempt): (Breaker, bool)
    requires Quiet(b) && a.ending.Raised?
  {
    var (entered, admission) := BeforeCall(c, b, a.entered);
    if admission.Admitted? then (OnFailure(c, entered, a.left), true) else (entered, false)
  }

  lemma {:induction false} HitPays(c: Config, b: Breaker, a: Attempt, now: real)
    requires Quiet(b) && Bounded(c, b, now) && now <= a.entered <= a.left && a.ending.Raised?
    ensures var (d, touched) := Hit(c, b, a);
      && Quiet(d) && Bounded(c, d, a.left)
      && PaidUntil(c, b, now) + (if touched then c.recoveryTimeout else 0.0) <= PaidUntil(c, d, a.left)
  {
    if b.state.Closed? {
      var left := c.failureThreshold - b.failureCount;
      assert Span(left, c.recoveryTimeout) == Span(left - 1, c.recoveryTimeout) + c.recoveryTimeout;
      assert left - 1 == c.failureThreshold - (b.failureCount + 1);
      assert Span(0, c.recoveryTimeout) == 0.0;
    }
  }

  lemma {:induction false} AttemptPays(c: Config, p: Pool, role: Role, a: Attempt, now: real)
    requires SingleNode(p) && Bounded(c, p.breakers[p.master], now)
    requires Outage(now, [a])
    ensures var r := Acquire(c, p, role, a);
      && SingleNode(r.state) && Bounded(c, r.state.breakers[p.master], a.left)
      && PaidUntil(c, p.breakers[p.master], now) + (if r.touched.Some? then c.recoveryTimeout else 0.0)
         <= PaidUntil(c, r.state.breakers[p.master], a.left)
  {
    HitPays(c, p.breakers[p.master], a, now);
    var (d, touched) := Hit(c, p.breakers[p.master], a);
    var r := Acquire(c, p, role, a);
    assert r.state.breakers == p.breakers[p.master := d] && r.touched.Some? == touched;
  }

  function End(now: real, attempts: seq<Attempt>): real {
    if attempts == [] then now else attempts[|attempts| - 1].left
  }

  /** From pool `p` at `now` to pool `q` at `later`, at most `touches` touches of the node were paid for. */
  ghost predicate Pays(c: Config, p: Pool, now: real, touches: nat, q: Pool, later: real)
    requires SingleNode(p) && Bounded(c, p.breakers[p.master], now)
  {
    && q.master == p.master && SingleNode(q) && Bounded(c, q.breakers[q.master], later)
    && PaidUntil(c, p.breakers[p.master], now) + Span(touches, c.recoveryTimeout) <= PaidUntil(c, q.breakers[q.master], later)
    && PaidUntil(c, q.breakers[q.master], later) <= later && now <= later
  }

  lemma {:induction false} PaysOnce(c: Config, p: Pool, role: Role, a: Attempt, now: real)
    requires SingleNode(p) && Bounded(c, p.breakers[p.master], now)
    requires Outage(now, [a])
    ensures var r := Acquire(c, p, role, a); Pays(c, p, now, |r.Touches()|, r.state, a.left)
  {
    var r := Acquire(c, p, role, a);
    AttemptPays(c, p, role, a, now);
    PaidByNow(c, r.state.breakers[p.master], a.left);
    assert Span(1, c.recoveryTimeout) == c.recoveryTimeout && Span(0, c.recoveryTimeout) == 0.0;
  }

  lemma {:induction false} SpanAdds(first: nat, rest: nat, timeout: real)
    ensures Span(first + rest, timeout) == Span(first, timeout) + Span(rest, timeout)
  {
    if first > 0 {
      SpanAdds(first - 1, rest, timeout);
    }
  }

  lemma {:induction false} PaysAdd(c: Config, p: Pool, now: real, first: nat, q: Pool, between: real, rest: nat, r: Pool, later: real)
    requires SingleNode(p) && Bounded(c, p.breakers[p.master], now)
    requires Pays(c, p, now, first, q, between) && Pays(c, q, between, rest, r, later)
    ensures Pays(c, p, now, first + rest, r, later)
  {
    SpanAdds(first, rest, c.recoveryTimeout);
  }

  lemma {:induction false} AttemptsPay(c: Config, p: Pool, role: Role, attempts: seq<Attempt>, now: real)
    requires SingleNode(p) && Bounded(c, p.breakers[p.master], now)
    requires Outage(now, attempts)
    ensures var r := Made(Acquiring(c, role), p, attempts); Pays(c, p, now, |r.1|, r.0, End(now, attempts))
    decreases |attempts|
  {
    if attempts == [] {
      PaidByNow(c, p.breakers[p.master], now);
    } else {
      var a, step := attempts[0], Acquire(c, p, role, attempts[0]);
      var rest := Made(Acquiring(c, role), step.state, attempts[1..]);
      PaysOnce(c, p, role, a, now);
      AttemptsPay(c, step.state, role, attempts[1..], a.left);
      assert End(a.left, attempts[1..]) == End(now, attempts);
      PaysAdd(c, p, now, |step.Touches()|, step.state, a.left, |rest.1|, rest.0, End(now, attempts));
    }
  }

  lemma {:induction false} PaidByNow(c: Config, b: Breaker, now: real)
    requires Quiet(b) && Bounded(c, b, now)
    ensures now - Span(c.failureThreshold, c.recoveryTimeout) <= PaidUntil(c, b, now) <= now
  {
    SpanGrows(1, c.failureThreshold, c.recoveryTimeout);
    if b.state.Closed? {
      SpanGrows(0, c.failureThreshold - b.failureCount, c.recoveryTimeout);
      SpanGrows(c.failureThreshold - b.failureCount, c.failureThreshold, c.recoveryTimeout);
    }
  }

  /** During a total outage any sequence of attempts touches a single node at most `failureThreshold` times plus once
      for each whole recovery timeout that has passed. */
  lemma {:induction false} OutageTouchBound(c: Config, p: Pool, role: Role, attempts: seq<Attempt>, now: real)
    requires SingleNode(p) && Bounded(c, p.breakers[p.master], now)
    requires Outage(now, attempts)
    ensures |Made(Acquiring(c, role), p, attempts).1|
         <= c.failureThreshold + ((End(now, attempts) - now) / c.recoveryTimeout).Floor
  {
    var touches, paid := |Made(Acquiring(c, role), p, attempts).1|, PaidUntil(c, p.breakers[p.master], now);
    assert paid + Span(touches, c.recoveryTimeout) <= End(now, attempts) && now <= End(now, attempts) by {
      AttemptsPay(c, p, role, attempts, now);
    }
    assert now - Span(c.failureThreshold, c.recoveryTimeout) <= paid by {
      PaidByNow(c, p.breakers[p.master], now);
    }
    BoundFromPayment(touches, c.failureThreshold, now, End(now, attempts), paid, c.recoveryTimeout);
  }

  /** During a total outage any sequence of retried reads keeps to the same bound. */
  lemma {:induction false} OutageReadsBound(c: Config, p: Pool, role: Role, calls: seq<Task<Attempt>>, now: real)
    requires SingleNode(p) && Bounded(c, p.breakers[p.master], now) && AllCallable(calls)
    requires Outage(now, AttemptsOf(Acquiring(c, role), p, calls))
    ensures |AllTasks(Acquiring(c, role), p, calls).1|
         <= c.failureThreshold + ((End(now, AttemptsOf(Acquiring(c, role), p, calls)) - now) / c.recoveryTimeout).Floor
  {
    TasksAreTheirAttempts(Acquiring(c, role), p, calls);
    OutageTouchBound(c, p, role, AttemptsOf(Acquiring(c, role), p, calls), now);
  }

  lemma {:induction false} DividedBy(k: real, elapsed: real, timeout: real)
    requires 0.0 < timeout && k * timeout <= elapsed
    ensures k <= elapsed / timeout
  {
  }

  lemma {:induction false} Distributed(a: real, b: real, t: real)
    ensures (a - b) * t == a * t - b * t
  {
  }

  lemma {:induction false} BoundFromPayment(touches: nat, credit: nat, start: real, end: real, paid: real, timeout: real)
    requires 0.0 < timeout && start <= end
    requires paid + Span(touches, timeout) <= end
    requires start - Span(credit, timeout) <= paid
    ensures touches <= credit + ((end - start) / timeout).Floor
  {
    var spent := Span(touches, timeout) - Span(credit, timeout);
    assert spent <= end - start;
    if credit < touches {
      SpanIsProduct(touches, timeout);
      SpanIsProduct(credit, timeout);
      Distributed(touches as real, credit as real, timeout);
      DividedBy(touches as real - credit as real, end - start, timeout);
    } else {
      DividedBy(0.0, end - start, timeout);
    }
  }
}

/** Which replica each read goes to: the balancer's results, one for each read. */
module BalancedReads {
  import opened Wrappers
  import opened BreakerModel
  import opened Retries
  import opened Routing
  import L = LoadBalancing

  // ---------------------------------------------------------------- selections, with anything in between

  /** An adapter with replicas at one selection after another, at the given times: each moves the balancer on, and
      between them the breakers may change in any way. */
  predicate Selections(c: Config, pools: seq<Pool>, times: seq<real>) {
    && |pools| == |times|
    && (forall i :: 0 <= i < |pools| ==> pools[i].Valid() && pools[i].cycle != [] && pools[i].cycle == pools[0].cycle)
    && (forall i :: 0 <= i < |pools| - 1 ==> pools[i + 1].turn == SelectKey(c, pools[i], Replica, times[i]).0.turn)
  }

  /** The replica that is next. */
  function Candidate(p: Pool): string
    requires p.Valid() && p.cycle != []
  {
    p.cycle[p.turn]
  }

  lemma {:induction false} CandidateAt(c: Config, pools: seq<Pool>, times: seq<real>, i: nat)
    requires Selections(c, pools, times) && i < |pools|
    ensures Candidate(pools[i]) == L.Results(pools[0].cycle, pools[0].turn, |pools|)[i]
    decreases i
  {
    if i > 0 {
      var more := pools[1..];
      assert Selections(c, more, times[1..]) by {
        assert forall j :: 0 <= j < |more| ==> more[j] == pools[j + 1] && times[1..][j] == times[j + 1];
      }
      CandidateAt(c, more, times[1..], i - 1);
      assert pools[1].turn == L.After(pools[0].cycle, pools[0].turn);
    }
  }

  /** The i-th read is offered the i-th result of the balancer's cycle, whatever happens to the breakers meanwhile. It goes
      there exactly if that replica's breaker allows calls then, and to the master otherwise. */
  lemma {:induction false} ReadsFollowTheCycle(c: Config, pools: seq<Pool>, times: seq<real>, i: nat)
    requires Selections(c, pools, times) && i < |pools|
    ensures var next, allowed := L.Results(pools[0].cycle, pools[0].turn, |pools|)[i], AllowsCalls(c, pools[i].breakers[Candidate(pools[i])], times[i]);
      && next == Candidate(pools[i]) && next != pools[i].master
      && SelectKey(c, pools[i], Replica, times[i]).1
         == if allowed.None? then None else Some(if allowed.value then next else pools[i].master)
  {
    CandidateAt(c, pools, times, i);
  }

  function KeyOf(chosen: Option<string>): string { if chosen.Some? then chosen.value else "" }

  /** The keys chosen; a failed assertion chooses none. */
  function Chosen(c: Config, pools: seq<Pool>, times: seq<real>): (r: seq<string>)
    requires |pools| == |times| && forall i :: 0 <= i < |pools| ==> pools[i].Valid()
    ensures |r| == |pools|
  {
    seq(|pools|, i requires 0 <= i < |pools| => KeyOf(SelectKey(c, pools[i], Replica, times[i]).1))
  }

  predicate AllAllowed(c: Config, pools: seq<Pool>, times: seq<real>)
    requires Selections(c, pools, times)
  {
    forall i :: 0 <= i < |pools| ==> AllowsCalls(c, pools[i].breakers[Candidate(pools[i])], times[i]) == Some(true)
  }

  lemma {:induction false} ReadsAreTheCycle(c: Config, pools: seq<Pool>, times: seq<real>)
    requires Selections(c, pools, times) && pools != [] && AllAllowed(c, pools, times)
    ensures Chosen(c, pools, times) == L.Results(pools[0].cycle, pools[0].turn, |pools|)
  {
    forall i | 0 <= i < |pools| ensures Chosen(c, pools, times)[i] == L.Results(pools[0].cycle, pools[0].turn, |pools|)[i] {
      ReadsFollowTheCycle(c, pools, times, i);
    }
  }

  /** While the replicas whose turn it is allow calls, the reads go to them exactly in the balancer's order, so that each
      gets within one weight of its share of any number of reads. */
  lemma {:induction false} ReadsAreFair(c: Config, pools: seq<Pool>, times: seq<real>, keys: seq<string>, weights: seq<int>, k: nat)
    requires Selections(c, pools, times) && pools != [] && AllAllowed(c, pools, times)
    requires L.Accepted(keys, weights) && k < |keys| && L.Distinct(keys) && pools[0].cycle == L.Expanded(keys, weights)
    ensures Chosen(c, pools, times) == L.Results(pools[0].cycle, pools[0].turn, |pools|)
    ensures L.TotalWeight(weights) > 0
    ensures var turns := |pools| / L.TotalWeight(weights);
      turns * weights[k] <= multiset(Chosen(c, pools, times))[keys[k]] <= turns * weights[k] + weights[k]
  {
    ReadsAreTheCycle(c, pools, times);
    L.WeightedFairness(keys, weights, pools[0].turn, |pools|, k);
  }

  // ---------------------------------------------------------------- whole reads

  /** A touched node is the one selected, its block ran to its own end, and no other node's breaker changed; a node that
      answered counts nothing against itself any more. */
  lemma {:induction false} TouchedIsChosen(c: Config, p: Pool, role: Role, a: Attempt)
    requires p.Valid()
    ensures var chosen, r := SelectKey(c, p, role, a.selected).1, Acquire(c, p, role, a);
      && (r.touched.Some? ==> r.touched == chosen && r.ending == a.ending)
      && (forall key :: key in p.breakers && Some(key) != chosen ==> r.state.breakers[key] == p.breakers[key])
      && r.state.breakers.Keys == p.breakers.Keys && r.state.turn == SelectKey(c, p, role, a.selected).0.turn
      && (r.touched.Some? && (a.ending.Returned? || (a.ending.Raised? && a.ending.failure !in INFRASTRUCTURE_FAILURES)) ==>
            var b := r.state.breakers[r.touched.value]; b.state.Closed? && b.failureCount == 0)
  {
  }

  /** Calls through a master-role `acquire` leave the balancer alone. */
  lemma {:induction false} MasterCallsKeepTheTurn(c: Config, p: Pool, a: Attempt)
    requires p.Valid()
    ensures Acquire(c, p, Role.Master, a).state.turn == p.turn
  {
  }

  /** Every breaker is closed. */
  predicate Healthy(p: Pool) {
    p.Valid() && forall key :: key in p.breakers ==> p.breakers[key].state.Closed?
  }

  /** The node answers, or the caller gives up: no failure of the infrastructure. */
  predicate Answered(a: Attempt) { a.ending.Raised? ==> a.ending.failure !in INFRASTRUCTURE_FAILURES }

  lemma {:induction false} HealthyRead(c: Config, p: Pool, a: Attempt)
    requires Healthy(p) && p.cycle != [] && Answered(a)
    ensures var r := Acquire(c, p, Replica, a);
      && Healthy(r.state) && r.touched == Some(Candidate(p)) && r.ending == a.ending
      && r.state.cycle == p.cycle && r.state.turn == L.After(p.cycle, p.turn)
  {
  }

  /** From a healthy adapter, reads that the nodes answer, constraint violations and missing rows included, touch the
      replicas exactly in the balancer's order and leave every breaker closed. */
  lemma {:induction false} AnsweredReadsTouchTheCycle(c: Config, p: Pool, attempts: seq<Attempt>)
    requires Healthy(p) && p.cycle != [] && forall i :: 0 <= i < |attempts| ==> Answered(attempts[i])
    ensures var r := Made(Acquiring(c, Replica), p, attempts);
      Healthy(r.0) && r.1 == L.Results(p.cycle, p.turn, |attempts|)
    decreases |attempts|
  {
    if attempts != [] {
      HealthyRead(c, p, attempts[0]);
      AnsweredReadsTouchTheCycle(c, Acquire(c, p, Replica, attempts[0]).state, attempts[1..]);
    }
  }

  /** So each replica's touches are within one weight of its share. */
  lemma {:induction false} AnsweredReadsAreFair(c: Config, p: Pool, attempts: seq<Attempt>, keys: seq<string>, weights: seq<int>, k: nat)
    requires Healthy(p) && forall i :: 0 <= i < |attempts| ==> Answered(attempts[i])
    requires L.Accepted(keys, weights) && k < |keys| && L.Distinct(keys) && p.cycle == L.Expanded(keys, weights)
    ensures L.TotalWeight(weights) > 0
    ensures var turns := |attempts| / L.TotalWeight(weights);
      turns * weights[k] <= multiset(Made(Acquiring(c, Replica), p, attempts).1)[keys[k]] <= turns * weights[k] + weights[k]
  {
    AnsweredReadsTouchTheCycle(c, p, attempts);
    L.WeightedFairness(keys, weights, p.turn, |attempts|, k);
  }

  /** A replica that was open is closed again by the first read it answers after its timeout. */
  lemma {:induction false} ReplicaRecovers(c: Config, p: Pool, a: Attempt)
    requires p.Valid() && p.cycle != [] && a.InOrder() && a.ending.Returned?
    requires var b := p.breakers[Candidate(p)];
      b.state.Open? && b.openedAt.Some? && b.openedAt.value + c.recoveryTimeout <= a.selected
    ensures var r := Acquire(c, p, Replica, a); var b := r.state.breakers[Candidate(p)];
      r.touched == Some(Candidate(p)) && b.state.Closed? && b.failureCount == 0 && b.openedAt == None
  {
  }

  /** Which failures count against a node, and which are retried by default. */
  lemma {:induction false} FailureClasses(f: Failure)
    ensures f in INFRASTRUCTURE_FAILURES <==> f in [ConnectionLost, ConnectionTimeout, Timeout]
    ensures f in RETRYABLE <==> f in INFRASTRUCTURE_FAILURES || f.Deadlock?
  {
  }
}
