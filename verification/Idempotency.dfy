/** The idempotency manager as interleaved tasks. Each event is the code one task runs between two awaits; a lock is
    held weakly by the dictionary and strongly by the tasks that took it from there. */
module Idempotency {
  import opened Wrappers

  type Key = string
  type Task = nat
  type LockId = nat

  datatype Stage =
    | Waiting                   // for the lock
    | Checking                  // holds it, about to read the cache
    | Running                   // the operation is in progress
    | Storing(result: string)   // about to write the cache

  datatype Job = Job(key: Key, fingerprint: string, lock: LockId, stage: Stage)

  datatype Entry = Entry(fingerprint: string, result: string, expires: real)

  /** An execution whose result reached the cache. */
  datatype Execution = Execution(key: Key, fingerprint: string, result: string, at: real)

  datatype Reply = Executed(result: string) | Replayed(result: string) | Conflict | Stopped

  datatype World = World(
    now: real,
    locks: map<Key, LockId>,      // the weak dictionary
    nextLock: LockId,                // the next lock's identity
    holders: map<LockId, Task>,
    jobs: map<Task, Job>,         // calls in progress
    cache: map<Key, Entry>,
    executions: seq<Execution>,
    replies: map<Task, Reply>,
    finished: seq<Key>,           // the key of each operation that returned
    unstored: seq<Key>            // of those, the ones whose cache write raised or was cancelled
  )

  datatype Event =
    | Begin(task: Task, key: Key, fingerprint: string)
    | Acquire(task: Task)
    | Check(task: Task)
    | Finish(task: Task, result: string)
    | Store(task: Task)
    | Stop(task: Task)             // the operation, the cache or a cancellation raised
    | Collect(key: Key)            // the dictionary drops a lock nobody references
    | Tick(at: real)

  function Start(now: real): World { World(now, map[], 0, map[], map[], map[], [], map[], [], []) }

  predicate Referenced(w: World, lock: LockId) {
    exists t :: t in w.jobs && w.jobs[t].lock == lock
  }

  predicate At(w: World, t: Task, stage: Stage) { t in w.jobs && w.jobs[t].stage == stage }

  predicate Enabled(w: World, e: Event) {
    match e
    case Begin(t, _, _) => t !in w.jobs && t !in w.replies
    case Acquire(t) => At(w, t, Waiting) && w.jobs[t].lock !in w.holders
    case Check(t) => At(w, t, Checking)
    case Finish(t, _) => At(w, t, Running)
    case Store(t) => t in w.jobs && w.jobs[t].stage.Storing?
    case Stop(t) => t in w.jobs
    case Collect(key) => key in w.locks && !Referenced(w, w.locks[key])
    case Tick(at) => w.now <= at
  }

  /** An entry the cache still returns. */
  predicate Live(w: World, key: Key) { key in w.cache && w.now < w.cache[key].expires }

  /** A call ends: it releases the lock if it holds it and drops its reference. */
  function End(w: World, t: Task, reply: Reply): World
    requires t in w.jobs
  {
    var lock := w.jobs[t].lock;
    w.(jobs := w.jobs - {t}, replies := w.replies[t := reply],
       holders := if w.jobs[t].stage.Waiting? then w.holders else w.holders - {lock})
  }

  function MoveTo(w: World, t: Task, stage: Stage): World
    requires t in w.jobs
  {
    w.(jobs := w.jobs[t := w.jobs[t].(stage := stage)])
  }

  function Apply(ttl: real, w: World, e: Event): World
    requires Enabled(w, e)
  {
    match e
    case Begin(t, key, fingerprint) =>
      if key in w.locks then w.(jobs := w.jobs[t := Job(key, fingerprint, w.locks[key], Waiting)])
      else w.(locks := w.locks[key := w.nextLock], nextLock := w.nextLock + 1,
              jobs := w.jobs[t := Job(key, fingerprint, w.nextLock, Waiting)])
    case Acquire(t) => MoveTo(w, t, Checking).(holders := w.holders[w.jobs[t].lock := t])
    case Check(t) =>
      var job := w.jobs[t];
      if !Live(w, job.key) then MoveTo(w, t, Running)
      else if w.cache[job.key].fingerprint != job.fingerprint then End(w, t, Conflict)
      else End(w, t, Replayed(w.cache[job.key].result))
    case Finish(t, result) => MoveTo(w, t, Storing(result)).(finished := w.finished + [w.jobs[t].key])
    case Store(t) =>
      var job := w.jobs[t];
      var result := job.stage.result;
      End(w, t, Executed(result)).(
        cache := w.cache[job.key := Entry(job.fingerprint, result, w.now + ttl)],
        executions := w.executions + [Execution(job.key, job.fingerprint, result, w.now)])
    case Stop(t) =>
      End(w, t, Stopped).(unstored := if w.jobs[t].stage.Storing? then w.unstored + [w.jobs[t].key] else w.unstored)
    case Collect(key) => w.(locks := w.locks - {key})
    case Tick(at) => w.(now := at)
  }

  ghost predicate Valid(ttl: real, t: real, trace: seq<Event>)
    decreases |trace|, 0
  {
    trace == [] ||
    (Valid(ttl, t, trace[..|trace| - 1]) && Enabled(Run(ttl, t, trace[..|trace| - 1]), trace[|trace| - 1]))
  }

  ghost function Run(ttl: real, t: real, trace: seq<Event>): World
    requires Valid(ttl, t, trace)
    decreases |trace|, 1
  {
    if trace == [] then Start(t) else Apply(ttl, Run(ttl, t, trace[..|trace| - 1]), trace[|trace| - 1])
  }

  // ---------------------------------------------------------------- invariants

  /** All calls in progress for a key share the lock the dictionary holds for it, and keys have locks of their own. */
  ghost predicate SharedLocks(w: World) {
    && (forall t :: t in w.jobs ==> Shares(w, w.jobs[t]))
    && (forall k :: k in w.locks ==> w.locks[k] < w.nextLock)
    && (forall k, l :: k in w.locks && l in w.locks && w.locks[k] == w.locks[l] ==> k == l)
  }

  predicate Shares(w: World, j: Job) { j.key in w.locks && w.locks[j.key] == j.lock }

  /** A lock is held exactly by the one call past `Waiting`. */
  ghost predicate Holding(w: World) {
    && (forall l :: l in w.holders ==> HeldBy(w, l, w.holders[l]))
    && (forall t :: t in w.jobs && !w.jobs[t].stage.Waiting? ==> w.jobs[t].lock in w.holders && w.holders[w.jobs[t].lock] == t)
  }

  predicate HeldBy(w: World, lock: LockId, t: Task) {
    t in w.jobs && w.jobs[t].lock == lock && !w.jobs[t].stage.Waiting?
  }

  predicate InProgress(j: Job) { j.stage.Running? || j.stage.Storing? }

  /** While an operation is in progress nothing is cached under its key. */
  ghost predicate NothingCached(w: World) {
    forall t :: t in w.jobs ==> Uncached(w, t)
  }

  function Last(executions: seq<Execution>, key: Key): Option<Execution> {
    if executions == [] then None
    else if executions[|executions| - 1].key == key then Some(executions[|executions| - 1])
    else Last(executions[..|executions| - 1], key)
  }

  /** The cache holds the last execution of each key. */
  ghost predicate CacheIsLast(ttl: real, w: World) {
    forall k :: match Last(w.executions, k)
      case None => k !in w.cache
      case Some(x) => k in w.cache && w.cache[k] == Entry(x.fingerprint, x.result, x.at + ttl)
  }

  /** Executions of one key are at least the time to live apart. */
  ghost predicate Spaced(ttl: real, executions: seq<Execution>) {
    forall i, j :: 0 <= i < j < |executions| && executions[i].key == executions[j].key
      ==> executions[i].at + ttl <= executions[j].at
  }

  predicate LastAt(executions: seq<Execution>, key: Key, n: nat) {
    n < |executions| && executions[n].key == key && forall i :: n < i < |executions| ==> executions[i].key != key
  }

  lemma {:induction false} LastIsLast(executions: seq<Execution>, key: Key) returns (n: nat)
    ensures Last(executions, key).None? ==> forall i :: 0 <= i < |executions| ==> executions[i].key != key
    ensures Last(executions, key).Some? ==> LastAt(executions, key, n) && executions[n] == Last(executions, key).value
  {
    n := 0;
    if executions != [] {
      var before := executions[..|executions| - 1];
      if executions[|before|].key == key {
        n := |before|;
      } else {
        n := LastIsLast(before, key);
        assert Last(before, key).Some? ==> executions[n] == before[n];
      }
    }
  }

  /** Locks stay shared when calls end or move on. */
  lemma {:induction false} LocksKept(w: World, v: World)
    requires SharedLocks(w) && v.locks == w.locks && v.nextLock == w.nextLock
    requires forall t :: t in v.jobs ==> t in w.jobs && v.jobs[t].key == w.jobs[t].key && v.jobs[t].lock == w.jobs[t].lock
    ensures SharedLocks(v)
  {
  }

  lemma {:induction false} LocksBegin(ttl: real, w: World, e: Event)
    requires SharedLocks(w) && e.Begin? && Enabled(w, e)
    ensures SharedLocks(Apply(ttl, w, e))
  {
    var v := Apply(ttl, w, e);
    forall t | t in v.jobs ensures Shares(v, v.jobs[t]) {
      assert t != e.task ==> Shares(w, w.jobs[t]);
    }
  }

  lemma {:induction false} LocksCollect(ttl: real, w: World, e: Event)
    requires SharedLocks(w) && e.Collect? && Enabled(w, e)
    ensures SharedLocks(Apply(ttl, w, e))
  {
  }

  lemma {:induction false} LocksStep(ttl: real, w: World, e: Event)
    requires SharedLocks(w) && Enabled(w, e)
    ensures SharedLocks(Apply(ttl, w, e))
  {
    match e
    case Begin(_, _, _) => LocksBegin(ttl, w, e);
    case Collect(_) => LocksCollect(ttl, w, e);
    case _ => LocksKept(w, Apply(ttl, w, e));
  }

  lemma {:induction false} EndKeepsHolding(w: World, t: Task, reply: Reply)
    requires SharedLocks(w) && Holding(w) && t in w.jobs
    ensures Holding(End(w, t, reply))
  {
  }

  lemma {:induction false} MoveKeepsHolding(w: World, t: Task, stage: Stage)
    requires Holding(w) && t in w.jobs && !w.jobs[t].stage.Waiting? && !stage.Waiting?
    ensures Holding(MoveTo(w, t, stage))
  {
  }

  lemma {:induction false} AcquireKeepsHolding(ttl: real, w: World, t: Task)
    requires Holding(w) && Enabled(w, Acquire(t))
    ensures Holding(Apply(ttl, w, Acquire(t)))
  {
  }

  lemma {:induction false} BeginKeepsHolding(ttl: real, w: World, e: Event)
    requires Holding(w) && e.Begin? && Enabled(w, e)
    ensures Holding(Apply(ttl, w, e))
  {
  }

  lemma {:induction false} HoldingStep(ttl: real, w: World, e: Event)
    requires SharedLocks(w) && Holding(w) && Enabled(w, e)
    ensures Holding(Apply(ttl, w, e))
  {
    match e
    case Begin(_, _, _) => BeginKeepsHolding(ttl, w, e);
    case Acquire(t) => AcquireKeepsHolding(ttl, w, t);
    case Check(t) =>
      var job := w.jobs[t];
      if !Live(w, job.key) {
        MoveKeepsHolding(w, t, Running);
      } else if w.cache[job.key].fingerprint != job.fingerprint {
        EndKeepsHolding(w, t, Conflict);
      } else {
        EndKeepsHolding(w, t, Replayed(w.cache[job.key].result));
      }
    case Finish(t, result) =>
      MoveKeepsHolding(w, t, Storing(result));
      HoldingIgnores(MoveTo(w, t, Storing(result)), Apply(ttl, w, e));
    case Store(t) =>
      EndKeepsHolding(w, t, Executed(w.jobs[t].stage.result));
      HoldingIgnores(End(w, t, Executed(w.jobs[t].stage.result)), Apply(ttl, w, e));
    case Stop(t) =>
      EndKeepsHolding(w, t, Stopped);
      HoldingIgnores(End(w, t, Stopped), Apply(ttl, w, e));
    case Collect(_) => HoldingIgnores(w, Apply(ttl, w, e));
    case Tick(_) => HoldingIgnores(w, Apply(ttl, w, e));
  }

  lemma {:induction false} HoldingIgnores(w: World, v: World)
    requires Holding(w) && v.jobs == w.jobs && v.holders == w.holders
    ensures Holding(v)
  {
  }

  lemma {:induction false} OneInProgress(w: World, s: Task, t: Task)
    requires SharedLocks(w) && Holding(w)
    requires s in w.jobs && t in w.jobs && w.jobs[s].key == w.jobs[t].key
    requires !w.jobs[s].stage.Waiting? && !w.jobs[t].stage.Waiting?
    ensures s == t
  {
  }

  lemma {:induction false} OthersElsewhere(w: World, s: Task)
    requires SharedLocks(w) && Holding(w) && s in w.jobs && !w.jobs[s].stage.Waiting?
    ensures forall t :: t in w.jobs && t != s && !w.jobs[t].stage.Waiting? ==> w.jobs[t].key != w.jobs[s].key
  {
  }

  predicate Uncached(w: World, t: Task)
    requires t in w.jobs
  {
    InProgress(w.jobs[t]) ==> !Live(w, w.jobs[t].key)
  }

  lemma {:induction false} UncachedStep(ttl: real, w: World, e: Event, t: Task)
    requires NothingCached(w) && Enabled(w, e) && t in Apply(ttl, w, e).jobs
    requires e.Store? ==> forall s :: s in w.jobs && s != e.task && !w.jobs[s].stage.Waiting? ==> w.jobs[s].key != w.jobs[e.task].key
    ensures Uncached(Apply(ttl, w, e), t)
  {
    assert t in w.jobs ==> Uncached(w, t);
  }

  lemma {:induction false} NothingCachedStep(ttl: real, w: World, e: Event)
    requires SharedLocks(w) && Holding(w) && NothingCached(w) && Enabled(w, e)
    ensures NothingCached(Apply(ttl, w, e))
  {
    if e.Store? {
      OthersElsewhere(w, e.task);
    }
    forall t | t in Apply(ttl, w, e).jobs ensures Uncached(Apply(ttl, w, e), t) {
      UncachedStep(ttl, w, e, t);
    }
  }

  lemma {:induction false} CacheStep(ttl: real, w: World, e: Event)
    requires CacheIsLast(ttl, w) && Enabled(w, e)
    ensures CacheIsLast(ttl, Apply(ttl, w, e))
  {
    if e.Store? {
      var v := Apply(ttl, w, e);
      assert v.executions[..|w.executions|] == w.executions;
    }
  }

  lemma {:induction false} SpacedStep(ttl: real, w: World, e: Event)
    requires 0.0 <= ttl && NothingCached(w) && CacheIsLast(ttl, w) && Spaced(ttl, w.executions) && Enabled(w, e)
    ensures Spaced(ttl, Apply(ttl, w, e).executions)
  {
    if e.Store? {
      var key, x := w.jobs[e.task].key, Apply(ttl, w, e).executions;
      var n := LastIsLast(w.executions, key);
      forall i | 0 <= i < |w.executions| && w.executions[i].key == key ensures x[i].at + ttl <= w.now {
        var last := Last(w.executions, key).value;
        assert !Live(w, key);
        assert last.at + ttl <= w.now;
      }
    }
  }

  lemma {:induction false} Reachable(ttl: real, t: real, trace: seq<Event>)
    requires 0.0 < ttl && Valid(ttl, t, trace)
    ensures var w := Run(ttl, t, trace);
      SharedLocks(w) && Holding(w) && NothingCached(w) && CacheIsLast(ttl, w) && Spaced(ttl, w.executions)
  {
    if trace != [] {
      var before, e := trace[..|trace| - 1], trace[|trace| - 1];
      Reachable(ttl, t, before);
      var w := Run(ttl, t, before);
      LocksStep(ttl, w, e);
      HoldingStep(ttl, w, e);
      NothingCachedStep(ttl, w, e);
      CacheStep(ttl, w, e);
      SpacedStep(ttl, w, e);
    }
  }

  // ---------------------------------------------------------------- theorems

  /** All calls in progress for a key wait on one lock, and at most one of them is past it, whatever the collector did. */
  lemma {:induction false} AtMostOneOperationPerKey(ttl: real, t0: real, trace: seq<Event>, s: Task, t: Task)
    requires 0.0 < ttl && Valid(ttl, t0, trace)
    requires var w := Run(ttl, t0, trace); s in w.jobs && t in w.jobs && w.jobs[s].key == w.jobs[t].key
    ensures var w := Run(ttl, t0, trace);
      && w.jobs[s].lock == w.jobs[t].lock
      && (!w.jobs[s].stage.Waiting? && !w.jobs[t].stage.Waiting? ==> s == t)
  {
    Reachable(ttl, t0, trace);
    var w := Run(ttl, t0, trace);
    if !w.jobs[s].stage.Waiting? && !w.jobs[t].stage.Waiting? {
      OneInProgress(w, s, t);
    }
  }

  /** Between two cached executions of one key the first one's entry expired. */
  lemma {:induction false} ExecutionsOutliveTheirEntry(ttl: real, t0: real, trace: seq<Event>, i: nat, j: nat)
    requires 0.0 < ttl && Valid(ttl, t0, trace)
    requires var x := Run(ttl, t0, trace).executions; i < j < |x| && x[i].key == x[j].key
    ensures var x := Run(ttl, t0, trace).executions; x[i].at + ttl <= x[j].at
  {
    Reachable(ttl, t0, trace);
  }

  /** A call that reads the cache gets the last execution's result when that has not expired and the fingerprints agree,
      a conflict when they differ, and otherwise runs its operation. */
  lemma {:induction false} ReplayReturnsTheLastExecution(ttl: real, t0: real, trace: seq<Event>, t: Task)
    requires 0.0 < ttl && Valid(ttl, t0, trace) && Enabled(Run(ttl, t0, trace), Check(t))
    ensures var w := Run(ttl, t0, trace);
      var job, last, v := w.jobs[t], Last(w.executions, w.jobs[t].key), Apply(ttl, w, Check(t));
      if last.Some? && w.now < last.value.at + ttl then
        && t in v.replies && t !in v.jobs
        && v.replies[t] == (if last.value.fingerprint == job.fingerprint then Replayed(last.value.result) else Conflict)
      else At(v, t, Running)
  {
    Reachable(ttl, t0, trace);
  }

  /** A call that ends without storing leaves the key free: the lock is released, the cache and the history are as they
      were, and any call waiting for the key can go on at once. */
  lemma {:induction false} StoppingFreesTheKey(ttl: real, t0: real, trace: seq<Event>, t: Task, waiting: Task)
    requires 0.0 < ttl && Valid(ttl, t0, trace) && Enabled(Run(ttl, t0, trace), Stop(t))
    requires var w := Run(ttl, t0, trace);
      !w.jobs[t].stage.Waiting? && waiting != t && At(w, waiting, Waiting) && w.jobs[waiting].key == w.jobs[t].key
    ensures var w, v := Run(ttl, t0, trace), Apply(ttl, Run(ttl, t0, trace), Stop(t));
      v.cache == w.cache && v.executions == w.executions && Enabled(v, Acquire(waiting))
  {
    Reachable(ttl, t0, trace);
  }

  /** A waiting call is never stranded: the lock is free, or its holder is a call in progress for the same key. */
  lemma {:induction false} WaitersAreNotStranded(ttl: real, t0: real, trace: seq<Event>, t: Task)
    requires 0.0 < ttl && Valid(ttl, t0, trace) && At(Run(ttl, t0, trace), t, Waiting)
    ensures var w := Run(ttl, t0, trace);
      Enabled(w, Acquire(t)) ||
      exists s :: s in w.jobs && s != t && w.jobs[s].key == w.jobs[t].key && !w.jobs[s].stage.Waiting?
  {
    Reachable(ttl, t0, trace);
    var w := Run(ttl, t0, trace);
    if w.jobs[t].lock in w.holders {
      var s := w.holders[w.jobs[t].lock];
      assert s in w.jobs && w.jobs[s].lock == w.jobs[t].lock;
    }
  }

  // ---------------------------------------------------------------- how often operations run

  /** How many executions of `key` reached the cache. */
  function Cached(executions: seq<Execution>, key: Key): nat {
    if executions == [] then 0
    else Cached(executions[..|executions| - 1], key) + if executions[|executions| - 1].key == key then 1 else 0
  }

  predicate StoresFor(w: World, t: Task, key: Key) { t in w.jobs && w.jobs[t].key == key && w.jobs[t].stage.Storing? }

  /** Whether a call for `key` is about to write the cache. */
  ghost function StoringNow(w: World, key: Key): nat { if exists t :: StoresFor(w, t, key) then 1 else 0 }

  ghost predicate Finished(w: World, key: Key) {
    multiset(w.finished)[key] == Cached(w.executions, key) + multiset(w.unstored)[key] + StoringNow(w, key)
  }

  lemma {:induction false} SameStoring(w: World, v: World, key: Key)
    requires forall t :: StoresFor(v, t, key) <==> StoresFor(w, t, key)
    ensures StoringNow(v, key) == StoringNow(w, key)
  {
  }

  lemma {:induction false} CountGrows(keys: seq<Key>, last: Key, key: Key)
    ensures multiset(keys + [last])[key] == multiset(keys)[key] + if last == key then 1 else 0
  {
  }

  lemma {:induction false} CachedGrows(executions: seq<Execution>, last: Execution, key: Key)
    ensures Cached(executions + [last], key) == Cached(executions, key) + if last.key == key then 1 else 0
  {
    assert (executions + [last])[..|executions|] == executions;
  }

  lemma {:induction false} StoringStarts(ttl: real, w: World, t: Task, result: string, key: Key)
    requires SharedLocks(w) && Holding(w) && At(w, t, Running)
    ensures StoringNow(Apply(ttl, w, Finish(t, result)), key) == StoringNow(w, key) + if w.jobs[t].key == key then 1 else 0
  {
    var v := Apply(ttl, w, Finish(t, result));
    if w.jobs[t].key == key {
      OthersElsewhere(w, t);
      assert StoresFor(v, t, key);
    } else {
      SameStoring(w, v, key);
    }
  }

  /** The call storing for a key is the only one. */
  lemma {:induction false} StoringEnds(w: World, t: Task, v: World, key: Key)
    requires SharedLocks(w) && Holding(w) && t in w.jobs && w.jobs[t].stage.Storing? && v.jobs == w.jobs - {t}
    ensures StoringNow(w, key) == StoringNow(v, key) + if w.jobs[t].key == key then 1 else 0
  {
    if w.jobs[t].key == key {
      OthersElsewhere(w, t);
      assert StoresFor(w, t, key);
    } else {
      SameStoring(w, v, key);
    }
  }

  lemma {:induction false} FinishKeepsCount(ttl: real, w: World, e: Event, key: Key)
    requires SharedLocks(w) && Holding(w) && Finished(w, key) && e.Finish? && Enabled(w, e)
    ensures Finished(Apply(ttl, w, e), key)
  {
    StoringStarts(ttl, w, e.task, e.result, key);
    CountGrows(w.finished, w.jobs[e.task].key, key);
  }

  lemma {:induction false} StoreKeepsCount(ttl: real, w: World, e: Event, key: Key)
    requires SharedLocks(w) && Holding(w) && Finished(w, key) && e.Store? && Enabled(w, e)
    ensures Finished(Apply(ttl, w, e), key)
  {
    StoringEnds(w, e.task, Apply(ttl, w, e), key);
    CachedGrows(w.executions, Apply(ttl, w, e).executions[|w.executions|], key);
  }

  lemma {:induction false} StopKeepsCount(ttl: real, w: World, e: Event, key: Key)
    requires SharedLocks(w) && Holding(w) && Finished(w, key) && e.Stop? && Enabled(w, e)
    ensures Finished(Apply(ttl, w, e), key)
  {
    if w.jobs[e.task].stage.Storing? {
      StoringEnds(w, e.task, Apply(ttl, w, e), key);
      CountGrows(w.unstored, w.jobs[e.task].key, key);
    } else {
      SameStoring(w, Apply(ttl, w, e), key);
    }
  }

  lemma {:induction false} OthersKeepStoring(ttl: real, w: World, e: Event, key: Key)
    requires Enabled(w, e) && !e.Finish? && !e.Store? && !e.Stop?
    ensures var v := Apply(ttl, w, e);
      v.finished == w.finished && v.executions == w.executions && v.unstored == w.unstored && StoringNow(v, key) == StoringNow(w, key)
  {
    SameStoring(w, Apply(ttl, w, e), key);
  }

  lemma {:induction false} FinishedStep(ttl: real, w: World, e: Event, key: Key)
    requires SharedLocks(w) && Holding(w) && Finished(w, key) && Enabled(w, e)
    ensures Finished(Apply(ttl, w, e), key)
  {
    match e
    case Finish(_, _) => FinishKeepsCount(ttl, w, e, key);
    case Store(_) => StoreKeepsCount(ttl, w, e, key);
    case Stop(_) => StopKeepsCount(ttl, w, e, key);
    case _ => OthersKeepStoring(ttl, w, e, key);
  }

  /** In every run, the operations of a key that finished are those whose result was cached, those whose cache write
      raised or was cancelled, and at most one more, whose result is being written now. */
  lemma {:induction false} FinishedOperations(ttl: real, t0: real, trace: seq<Event>, key: Key)
    requires 0.0 < ttl && Valid(ttl, t0, trace)
    ensures var w := Run(ttl, t0, trace);
      multiset(w.finished)[key] == Cached(w.executions, key) + multiset(w.unstored)[key] + StoringNow(w, key)
  {
    if trace != [] {
      var before := trace[..|trace| - 1];
      Reachable(ttl, t0, before);
      FinishedOperations(ttl, t0, before, key);
      FinishedStep(ttl, Run(ttl, t0, before), trace[|trace| - 1], key);
    }
  }

  /** After the failed cache write of `t`, the waiting call gets the lock and finds nothing cached. */
  lemma {:induction false} NextRuns(ttl: real, w: World, t: Task, next: Task)
    requires SharedLocks(w) && Holding(w) && t in w.jobs && w.jobs[t].stage.Storing? && Uncached(w, t)
    requires At(w, next, Waiting) && w.jobs[next].key == w.jobs[t].key && t != next
    ensures var stopped := Apply(ttl, w, Stop(t));
      Enabled(stopped, Acquire(next)) &&
      var checking := Apply(ttl, stopped, Acquire(next));
      At(checking, next, Checking) && !Live(checking, w.jobs[t].key) && checking.jobs[next].key == w.jobs[t].key
      && checking.executions == w.executions && checking.finished == w.finished
      && checking.unstored == w.unstored + [w.jobs[t].key]
  {
    assert Shares(w, w.jobs[t]) && Shares(w, w.jobs[next]);
    assert w.jobs[next].lock == w.jobs[t].lock;
  }

  lemma {:induction false} CheckThenFinish(ttl: real, w: World, t: Task, result: string)
    requires At(w, t, Checking) && !Live(w, w.jobs[t].key)
    ensures var running := Apply(ttl, w, Check(t));
      At(running, t, Running) &&
      var v := Apply(ttl, running, Finish(t, result));
      v.executions == w.executions && v.finished == w.finished + [w.jobs[t].key] && v.unstored == w.unstored
  {
  }

  /** So an operation is not run at most once: after a call whose cache write raised or was cancelled, the next one for
      the key runs its own. */
  lemma {:induction false} UnstoredRunsAgain(ttl: real, t0: real, trace: seq<Event>, t: Task, next: Task, result: string)
    requires 0.0 < ttl && Valid(ttl, t0, trace) && t != next
    requires var w := Run(ttl, t0, trace);
      t in w.jobs && w.jobs[t].stage.Storing? && At(w, next, Waiting) && w.jobs[next].key == w.jobs[t].key
    ensures var w, more := Run(ttl, t0, trace), trace + [Stop(t)] + [Acquire(next)] + [Check(next)] + [Finish(next, result)];
      Valid(ttl, t0, more) && Run(ttl, t0, more).executions == w.executions
      && Run(ttl, t0, more).finished == w.finished + [w.jobs[t].key]
      && Run(ttl, t0, more).unstored == w.unstored + [w.jobs[t].key]
  {
    var w := Run(ttl, t0, trace);
    Reachable(ttl, t0, trace);
    assert Uncached(w, t);
    NextRuns(ttl, w, t, next);
    RunExtends(ttl, t0, trace, Stop(t));
    RunExtends(ttl, t0, trace + [Stop(t)], Acquire(next));
    CheckThenFinish(ttl, Run(ttl, t0, trace + [Stop(t)] + [Acquire(next)]), next, result);
    RunExtends(ttl, t0, trace + [Stop(t)] + [Acquire(next)], Check(next));
    RunExtends(ttl, t0, trace + [Stop(t)] + [Acquire(next)] + [Check(next)], Finish(next, result));
  }

  lemma {:induction false} RunExtends(ttl: real, t0: real, trace: seq<Event>, e: Event)
    requires Valid(ttl, t0, trace) && Enabled(Run(ttl, t0, trace), e)
    ensures Valid(ttl, t0, trace + [e]) && Run(ttl, t0, trace + [e]) == Apply(ttl, Run(ttl, t0, trace), e)
  {
    assert (trace + [e])[..|trace|] == trace;
  }

  // ---------------------------------------------------------------- whose result a caller gets

  /** The key and the fingerprint that `t` called with. */
  function CallOf(trace: seq<Event>, t: Task): Option<(Key, string)> {
    if trace == [] then None else
    var e := trace[|trace| - 1];
    if e.Begin? && e.task == t then Some((e.key, e.fingerprint)) else CallOf(trace[..|trace| - 1], t)
  }

  /** What its operation returned. */
  function ResultOf(trace: seq<Event>, t: Task): Option<string> {
    if trace == [] then None else
    var e := trace[|trace| - 1];
    if e.Finish? && e.task == t then Some(e.result) else ResultOf(trace[..|trace| - 1], t)
  }

  predicate TaskMatches(w: World, t: Task, call: Option<(Key, string)>, result: Option<string>) {
    && (call.Some? <==> t in w.jobs || t in w.replies)
    && (t in w.jobs ==> t !in w.replies && call == Some((w.jobs[t].key, w.jobs[t].fingerprint)))
    && (t in w.jobs ==> result == if w.jobs[t].stage.Storing? then Some(w.jobs[t].stage.result) else None)
    && (t !in w.jobs && t !in w.replies ==> result == None)
    && (t in w.replies && w.replies[t].Executed? ==> result == Some(w.replies[t].result))
  }

  lemma {:induction false} TaskStep(ttl: real, w: World, e: Event, t: Task, call: Option<(Key, string)>, result: Option<string>)
    requires Enabled(w, e) && TaskMatches(w, t, call, result)
    ensures TaskMatches(Apply(ttl, w, e), t,
                        if e.Begin? && e.task == t then Some((e.key, e.fingerprint)) else call,
                        if e.Finish? && e.task == t then Some(e.result) else result)
  {
  }

  lemma {:induction false} TasksAreTheirEvents(ttl: real, t0: real, trace: seq<Event>, t: Task)
    requires Valid(ttl, t0, trace)
    ensures TaskMatches(Run(ttl, t0, trace), t, CallOf(trace, t), ResultOf(trace, t))
  {
    if trace != [] {
      var before, e := trace[..|trace| - 1], trace[|trace| - 1];
      TasksAreTheirEvents(ttl, t0, before, t);
      TaskStep(ttl, Run(ttl, t0, before), e, t, CallOf(before, t), ResultOf(before, t));
    }
  }

  /** Some call for the execution's key and fingerprint has an operation that returned its result. */
  ghost predicate RanFor(trace: seq<Event>, x: Execution) {
    exists s: Task :: RanBy(trace, s, x)
  }

  predicate RanBy(trace: seq<Event>, s: Task, x: Execution) {
    CallOf(trace, s) == Some((x.key, x.fingerprint)) && ResultOf(trace, s) == Some(x.result)
  }

  lemma {:induction false} TextOneMore(trace: seq<Event>, e: Event, t: Task)
    ensures CallOf(trace + [e], t) == if e.Begin? && e.task == t then Some((e.key, e.fingerprint)) else CallOf(trace, t)
    ensures ResultOf(trace + [e], t) == if e.Finish? && e.task == t then Some(e.result) else ResultOf(trace, t)
  {
    assert (trace + [e])[..|trace|] == trace;
  }

  /** A call's key, fingerprint and result do not change any more. */
  lemma {:induction false} RanByStays(w: World, trace: seq<Event>, e: Event, s: Task, x: Execution)
    requires Enabled(w, e) && TaskMatches(w, s, CallOf(trace, s), ResultOf(trace, s)) && RanBy(trace, s, x)
    ensures RanBy(trace + [e], s, x)
  {
    TextOneMore(trace, e, s);
  }

  lemma {:induction false} StoredRan(w: World, trace: seq<Event>, e: Event)
    requires Enabled(w, e) && e.Store? && TaskMatches(w, e.task, CallOf(trace, e.task), ResultOf(trace, e.task))
    ensures var job := w.jobs[e.task];
      RanBy(trace + [e], e.task, Execution(job.key, job.fingerprint, job.stage.result, w.now))
  {
    TextOneMore(trace, e, e.task);
  }

  lemma {:induction false} ExecutionsGrow(ttl: real, w: World, e: Event)
    requires Enabled(w, e)
    ensures Apply(ttl, w, e).executions == w.executions +
      if e.Store? then [Execution(w.jobs[e.task].key, w.jobs[e.task].fingerprint, w.jobs[e.task].stage.result, w.now)] else []
  {
  }

  /** Every cached execution is the run of an operation that some call asked for, with the result it returned. */
  lemma {:induction false} ExecutionsRan(ttl: real, t0: real, trace: seq<Event>, i: nat)
    requires Valid(ttl, t0, trace) && i < |Run(ttl, t0, trace).executions|
    ensures RanFor(trace, Run(ttl, t0, trace).executions[i])
  {
    var before, e := trace[..|trace| - 1], trace[|trace| - 1];
    var w := Run(ttl, t0, before);
    assert trace == before + [e];
    ExecutionsGrow(ttl, w, e);
    if i < |w.executions| {
      ExecutionsRan(ttl, t0, before, i);
      var s :| RanBy(before, s, w.executions[i]);
      TasksAreTheirEvents(ttl, t0, before, s);
      RanByStays(w, before, e, s, w.executions[i]);
    } else {
      TasksAreTheirEvents(ttl, t0, before, e.task);
      StoredRan(w, before, e);
    }
  }

  /** The `i`-th execution is of the call's key and agrees with its reply. */
  predicate AnsweredFrom(executions: seq<Execution>, call: (Key, string), reply: Reply, i: nat) {
    && i < |executions| && executions[i].key == call.0
    && (reply.Replayed? ==> executions[i].fingerprint == call.1 && executions[i].result == reply.result)
    && (reply.Conflict? ==> executions[i].fingerprint != call.1)
  }

  predicate Borrowed(w: World, t: Task) { t in w.replies && (w.replies[t].Replayed? || w.replies[t].Conflict?) }

  ghost predicate Answered(w: World, t: Task, call: Option<(Key, string)>) {
    Borrowed(w, t) ==> call.Some? && exists i: nat :: AnsweredFrom(w.executions, call.value, w.replies[t], i)
  }

  lemma {:induction false} CheckAnswers(ttl: real, w: World, t: Task, call: Option<(Key, string)>)
    requires CacheIsLast(ttl, w) && Enabled(w, Check(t)) && call == Some((w.jobs[t].key, w.jobs[t].fingerprint)) && t !in w.replies
    ensures Answered(Apply(ttl, w, Check(t)), t, call)
  {
    var key := w.jobs[t].key;
    var i := LastIsLast(w.executions, key);
    if Live(w, key) {
      assert Last(w.executions, key).Some?;
      assert Borrowed(Apply(ttl, w, Check(t)), t) ==>
        AnsweredFrom(w.executions, call.value, Apply(ttl, w, Check(t)).replies[t], i);
    }
  }

  lemma {:induction false} AnswersStay(ttl: real, w: World, e: Event, t: Task, call: Option<(Key, string)>)
    requires Enabled(w, e) && Answered(w, t, call) && (t in w.jobs ==> t !in w.replies) && !(e.Check? && e.task == t)
    ensures Answered(Apply(ttl, w, e), t, call)
  {
    ExecutionsGrow(ttl, w, e);
    if Borrowed(w, t) {
      var i: nat :| AnsweredFrom(w.executions, call.value, w.replies[t], i);
      assert Apply(ttl, w, e).executions[i] == w.executions[i];
      assert t in Apply(ttl, w, e).replies && Apply(ttl, w, e).replies[t] == w.replies[t] ==>
        AnsweredFrom(Apply(ttl, w, e).executions, call.value, Apply(ttl, w, e).replies[t], i);
    }
  }

  lemma {:induction false} AnsweredFromExecutions(ttl: real, t0: real, trace: seq<Event>, t: Task)
    requires 0.0 < ttl && Valid(ttl, t0, trace)
    ensures Answered(Run(ttl, t0, trace), t, CallOf(trace, t))
  {
    if trace != [] {
      var before, e := trace[..|trace| - 1], trace[|trace| - 1];
      var w := Run(ttl, t0, before);
      AnsweredFromExecutions(ttl, t0, before, t);
      TasksAreTheirEvents(ttl, t0, before, t);
      if e.Check? && e.task == t {
        Reachable(ttl, t0, before);
        CheckAnswers(ttl, w, t, CallOf(before, t));
      } else {
        AnswersStay(ttl, w, e, t, CallOf(trace, t));
      }
    }
  }

  /** A call that asked for `key`, with this fingerprint or with another, and whose operation returned. */
  ghost predicate SomeRan(trace: seq<Event>, key: Key, fingerprint: string, same: bool, result: Option<string>) {
    exists s: Task, x: Execution :: RanBy(trace, s, x) && x.key == key && (x.fingerprint == fingerprint) == same
      && (result.Some? ==> x.result == result.value)
  }

  /** What a caller is told, over any run: the result of its own operation; or that of an operation which a call with the
      same key and the same fingerprint ran; or a conflict, and then a call with the same key and another fingerprint ran
      one; or its own failure. */
  lemma {:induction false} RepliesAreResults(ttl: real, t0: real, trace: seq<Event>, t: Task)
    requires 0.0 < ttl && Valid(ttl, t0, trace) && t in Run(ttl, t0, trace).replies
    ensures CallOf(trace, t).Some?
    ensures var (key, fingerprint) := CallOf(trace, t).value;
      match Run(ttl, t0, trace).replies[t]
      case Executed(result) => ResultOf(trace, t) == Some(result)
      case Replayed(result) => SomeRan(trace, key, fingerprint, true, Some(result))
      case Conflict => SomeRan(trace, key, fingerprint, false, None)
      case Stopped => true
  {
    TasksAreTheirEvents(ttl, t0, trace, t);
    AnsweredFromExecutions(ttl, t0, trace, t);
    var w := Run(ttl, t0, trace);
    if Borrowed(w, t) {
      var i: nat :| AnsweredFrom(w.executions, CallOf(trace, t).value, w.replies[t], i);
      ExecutionsRan(ttl, t0, trace, i);
      var s :| RanBy(trace, s, w.executions[i]);
      assert RanBy(trace, s, w.executions[i]);
    }
  }

  // ---------------------------------------------------------------- one call on its own

  /** What an uncontended call does to the cache, and its reply; `outcome` is None when the operation raises. */
  function Alone(ttl: real, now: real, cache: map<Key, Entry>, key: Key, fingerprint: string, outcome: Option<string>)
    : (map<Key, Entry>, Reply)
  {
    if key in cache && now < cache[key].expires then
      (cache, if cache[key].fingerprint != fingerprint then Conflict else Replayed(cache[key].result))
    else if outcome.None? then (cache, Stopped)
    else (cache[key := Entry(fingerprint, outcome.value, now + ttl)], Executed(outcome.value))
  }

  /** The only call in progress, holding its lock and about to read the cache. */
  ghost predicate ChecksAlone(w: World, t: Task, key: Key, fingerprint: string) {
    exists lock: LockId :: w.jobs == map[t := Job(key, fingerprint, lock, Checking)] && w.holders == map[lock := t]
  }

  lemma {:induction false} AloneGetsTheLock(ttl: real, w: World, t: Task, key: Key, fingerprint: string)
    requires w.jobs == map[] && w.holders == map[] && Enabled(w, Begin(t, key, fingerprint))
    ensures var waiting := Apply(ttl, w, Begin(t, key, fingerprint));
      Enabled(waiting, Acquire(t)) &&
      var checking := Apply(ttl, waiting, Acquire(t));
      ChecksAlone(checking, t, key, fingerprint)
      && checking.cache == w.cache && checking.now == w.now && checking.replies == w.replies
  {
    var waiting := Apply(ttl, w, Begin(t, key, fingerprint));
    var lock := waiting.locks[key];
    assert waiting.jobs == map[t := Job(key, fingerprint, lock, Waiting)];
    var checking := Apply(ttl, waiting, Acquire(t));
    assert checking.jobs == map[t := Job(key, fingerprint, lock, Checking)] && checking.holders == map[lock := t];
  }

  /** From `checking` the call's own events are enabled one after the other, and it ends as `Alone` says. */
  predicate EndsAlone(ttl: real, w: World, checking: World, t: Task, key: Key, fingerprint: string, outcome: Option<string>) {
    var (cache, reply) := Alone(ttl, w.now, w.cache, key, fingerprint, outcome);
    Enabled(checking, Check(t)) &&
    if Live(w, key) then Ended(w, Apply(ttl, checking, Check(t)), t, cache, reply)
    else RunsAlone(ttl, w, Apply(ttl, checking, Check(t)), t, outcome, cache, reply)
  }

  /** The same from the operation on. */
  predicate RunsAlone(ttl: real, w: World, running: World, t: Task, outcome: Option<string>, cache: map<Key, Entry>, reply: Reply) {
    match outcome
    case None => Enabled(running, Stop(t)) && Ended(w, Apply(ttl, running, Stop(t)), t, cache, reply)
    case Some(result) =>
      Enabled(running, Finish(t, result)) &&
      var storing := Apply(ttl, running, Finish(t, result));
      Enabled(storing, Store(t)) && Ended(w, Apply(ttl, storing, Store(t)), t, cache, reply)
  }

  lemma {:induction false} AloneEnds(ttl: real, w: World, t: Task, key: Key, fingerprint: string, outcome: Option<string>)
    requires ChecksAlone(w, t, key, fingerprint)
    ensures EndsAlone(ttl, w, w, t, key, fingerprint, outcome)
  {
    var lock: LockId :| w.jobs == map[t := Job(key, fingerprint, lock, Checking)] && w.holders == map[lock := t];
    EndsEmpty(w, t, lock);
    if !Live(w, key) {
      var running := MoveTo(w, t, Running);
      assert running.jobs == map[t := Job(key, fingerprint, lock, Running)];
      AloneRuns(ttl, running, t, key, fingerprint, lock, outcome);
      RunsFrom(ttl, w, running, t, outcome, Alone(ttl, w.now, w.cache, key, fingerprint, outcome));
    }
  }

  lemma {:induction false} RunsFrom(ttl: real, w: World, running: World, t: Task, outcome: Option<string>, end: (map<Key, Entry>, Reply))
    requires running.replies == w.replies && RunsAlone(ttl, running, running, t, outcome, end.0, end.1)
    ensures RunsAlone(ttl, w, running, t, outcome, end.0, end.1)
  {
  }

  lemma {:induction false} AloneRuns(ttl: real, w: World, t: Task, key: Key, fingerprint: string, lock: LockId, outcome: Option<string>)
    requires w.jobs == map[t := Job(key, fingerprint, lock, Running)] && w.holders == map[lock := t] && !Live(w, key)
    ensures var (cache, reply) := Alone(ttl, w.now, w.cache, key, fingerprint, outcome);
      RunsAlone(ttl, w, w, t, outcome, cache, reply)
  {
    EndsEmpty(w, t, lock);
    if outcome.Some? {
      var storing := MoveTo(w, t, Storing(outcome.value));
      assert storing.jobs == map[t := Job(key, fingerprint, lock, Storing(outcome.value))];
      EndsEmpty(storing, t, lock);
    }
  }

  predicate Ended(w: World, v: World, t: Task, cache: map<Key, Entry>, reply: Reply) {
    v.cache == cache && v.jobs.Keys == {} && v.holders.Keys == {} && v.replies == w.replies[t := reply]
  }

  /** With no other call in progress, a call gets from each of its awaits to the next and ends as `Alone` says. */
  lemma {:induction false} AloneIsARun(ttl: real, t0: real, trace: seq<Event>, t: Task, key: Key, fingerprint: string, outcome: Option<string>)
    requires 0.0 < ttl && Valid(ttl, t0, trace) && Run(ttl, t0, trace).jobs == map[]
    requires Enabled(Run(ttl, t0, trace), Begin(t, key, fingerprint))
    ensures var w := Run(ttl, t0, trace);
      var waiting := Apply(ttl, w, Begin(t, key, fingerprint));
      Enabled(waiting, Acquire(t))
      && EndsAlone(ttl, w, Apply(ttl, waiting, Acquire(t)), t, key, fingerprint, outcome)
  {
    Reachable(ttl, t0, trace);
    var w := Run(ttl, t0, trace);
    assert w.holders.Keys == {};
    AloneGetsTheLock(ttl, w, t, key, fingerprint);
    AloneEnds(ttl, Apply(ttl, Apply(ttl, w, Begin(t, key, fingerprint)), Acquire(t)), t, key, fingerprint, outcome);
  }

  lemma {:induction false} EndsEmpty(w: World, t: Task, lock: LockId)
    requires w.jobs.Keys == {t} && w.holders == map[lock := t] && w.jobs[t].lock == lock && !w.jobs[t].stage.Waiting?
    ensures forall reply :: End(w, t, reply).jobs.Keys == {} && End(w, t, reply).holders.Keys == {}
  {
  }
}

/** The manager as an object, used by one task at a time. */
module IdempotencyManagers {
  import opened Wrappers
  import opened Idempotency

  class IdempotencyManager {
    const ttl: real
    var cache: map<Key, Entry>

    constructor (ttl: real)
      requires 0.0 < ttl
      ensures this.ttl == ttl && cache == map[]
    {
      this.ttl, cache := ttl, map[];
    }

    /** `run`; None is the rejection of an empty key. */
    method Run(key: Key, fingerprint: string, outcome: Option<string>, now: real) returns (reply: Option<Reply>)
      modifies this
      ensures key == "" ==> reply == None && cache == old(cache)
      ensures key != "" ==> reply.Some?
      ensures key != "" ==> (cache, reply.value) == Alone(ttl, now, old(cache), key, fingerprint, outcome)
    {
      if key == "" {
        return None;
      }
      if key in cache && now < cache[key].expires {
        if cache[key].fingerprint != fingerprint {
          return Some(Conflict);
        }
        return Some(Replayed(cache[key].result));
      }
      if outcome.None? {
        return Some(Stopped);
      }
      cache := cache[key := Entry(fingerprint, outcome.value, now + ttl)];
      return Some(Executed(outcome.value));
    }
  }
}
