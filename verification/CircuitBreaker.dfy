/** The circuit breaker of one node, as transitions on values. */
module BreakerModel {
  import opened Wrappers

  datatype CircuitState = Closed | Open | HalfOpen

  datatype BreakerConfig = Config(failureThreshold: nat, recoveryTimeout: real, halfOpenMaxCalls: nat)

  /** The bounds the settings model enforces (src/krossdb/core/config.py:28-30). */
  type Config = c: BreakerConfig | 1 <= c.failureThreshold && 0.0 < c.recoveryTimeout && 1 <= c.halfOpenMaxCalls
    witness Config(5, 30.0, 1)

  datatype Breaker = Breaker(state: CircuitState, failureCount: nat, openedAt: Option<real>, inFlight: int)

  const FRESH := Breaker(Closed, 0, None, 0)

  /** What happens to a call at the gate. `AssertionFailed` is the source's `assert self._opened_at is not None`. */
  datatype Admission = Admitted | RejectedOpen | RejectedProbeLimit | AssertionFailed

  function Transition(b: Breaker, target: CircuitState, now: real): Breaker {
    if target == b.state then b else
    match target
    case Open => b.(state := Open, openedAt := Some(now))
    case Closed => b.(state := Closed, failureCount := 0, openedAt := None)
    case HalfOpen => b.(state := HalfOpen, inFlight := 0)
  }

  function TakeProbeSlot(c: Config, b: Breaker): (Breaker, Admission) {
    if !b.state.HalfOpen? then (b, Admitted)
    else if b.inFlight >= c.halfOpenMaxCalls then (b, RejectedProbeLimit)
    else (b.(inFlight := b.inFlight + 1), Admitted)
  }

  function BeforeCall(c: Config, b: Breaker, now: real): (Breaker, Admission) {
    if b.state.Open? then
      if b.openedAt.None? then (b, AssertionFailed)
      else if now - b.openedAt.value >= c.recoveryTimeout then TakeProbeSlot(c, Transition(b, HalfOpen, now))
      else (b, RejectedOpen)
    else TakeProbeSlot(c, b)
  }

  function OnSuccess(b: Breaker, now: real): Breaker {
    match b.state
    case HalfOpen => Transition(b, Closed, now)
    case Closed => b.(failureCount := 0)
    case Open => b
  }

  function OnFailure(c: Config, b: Breaker, now: real): Breaker {
    if b.state.HalfOpen? then Transition(b, Open, now)
    else
      var counted := b.(failureCount := b.failureCount + 1);
      if counted.failureCount >= c.failureThreshold then Transition(counted, Open, now) else counted
  }

  function OnAbandoned(b: Breaker): Breaker {
    if b.state.HalfOpen? && b.inFlight > 0 then b.(inFlight := b.inFlight - 1) else b
  }

  /** `allows_calls`; None when the source's assertion would fail. */
  function AllowsCalls(c: Config, b: Breaker, now: real): Option<bool> {
    if !b.state.Open? then Some(true)
    else if b.openedAt.None? then None
    else Some(now - b.openedAt.value >= c.recoveryTimeout)
  }

  /** How a guarded block ends. */
  datatype Failure = ConnectionLost | ConnectionTimeout | Timeout | Deadlock | Integrity | NotFound | BreakerOpen | Other
  datatype Ending = Returned | Raised(failure: Failure) | Cancelled

  const INFRASTRUCTURE_FAILURES := {ConnectionLost, ConnectionTimeout, Timeout}

  /** The report `guard` makes; `failureTypes` is None when every exception counts. */
  function Report(c: Config, b: Breaker, ending: Ending, failureTypes: Option<set<Failure>>, now: real): Breaker {
    match ending
    case Returned => OnSuccess(b, now)
    case Cancelled => OnAbandoned(b)
    case Raised(f) =>
      if failureTypes.None? || f in failureTypes.value then OnFailure(c, b, now) else OnSuccess(b, now)
  }
}

/** The same breaker as the object that changes in place, under its lock. */
module CircuitBreakers {
  import opened Wrappers
  import opened BreakerModel

  class CircuitBreaker {
    const config: Config
    var state: CircuitState
    var failureCount: nat
    var openedAt: Option<real>
    var inFlight: int

    ghost function Value(): Breaker
      reads this
    {
      Breaker(state, failureCount, openedAt, inFlight)
    }

    constructor (config: Config)
      ensures this.config == config && Value() == FRESH
    {
      this.config := config;
      state, failureCount, openedAt, inFlight := Closed, 0, None, 0;
    }

    method AllowsCalls(now: real) returns (r: Option<bool>)
      ensures r == BreakerModel.AllowsCalls(config, Value(), now)
    {
      if !state.Open? {
        return Some(true);
      }
      if openedAt.None? {
        return None;
      }
      r := Some(now - openedAt.value >= config.recoveryTimeout);
    }

    method MoveTo(target: CircuitState, now: real)
      modifies this
      ensures Value() == Transition(old(Value()), target, now)
    {
      if target == state {
        return;
      }
      state := target;
      match target {
        case Open => openedAt := Some(now);
        case Closed =>
          failureCount := 0;
          openedAt := None;
        case HalfOpen => inFlight := 0;
      }
    }

    method BeforeCall(now: real) returns (r: Admission)
      modifies this
      ensures (Value(), r) == BreakerModel.BeforeCall(config, old(Value()), now)
    {
      if state.Open? {
        if openedAt.None? {
          return AssertionFailed;
        }
        if now - openedAt.value >= config.recoveryTimeout {
          MoveTo(HalfOpen, now);
        } else {
          return RejectedOpen;
        }
      }
      if state.HalfOpen? {
        if inFlight >= config.halfOpenMaxCalls {
          return RejectedProbeLimit;
        }
        inFlight := inFlight + 1;
      }
      r := Admitted;
    }

    method OnSuccess(now: real)
      modifies this
      ensures Value() == BreakerModel.OnSuccess(old(Value()), now)
    {
      if state.HalfOpen? {
        MoveTo(Closed, now);
      } else if state.Closed? {
        failureCount := 0;
      }
    }

    method OnFailure(now: real)
      modifies this
      ensures Value() == BreakerModel.OnFailure(config, old(Value()), now)
    {
      if state.HalfOpen? {
        MoveTo(Open, now);
        return;
      }
      failureCount := failureCount + 1;
      if failureCount >= config.failureThreshold {
        MoveTo(Open, now);
      }
    }

    method OnAbandoned()
      modifies this
      ensures Value() == BreakerModel.OnAbandoned(old(Value()))
    {
      if state.HalfOpen? && inFlight > 0 {
        inFlight := inFlight - 1;
      }
    }

    /** The part of `guard` that runs after the guarded block. */
    method Leave(ending: Ending, failureTypes: Option<set<Failure>>, now: real)
      modifies this
      ensures Value() == Report(config, old(Value()), ending, failureTypes, now)
    {
      match ending {
        case Returned => OnSuccess(now);
        case Cancelled => OnAbandoned();
        case Raised(f) =>
          if failureTypes.None? || f in failureTypes.value {
            OnFailure(now);
          } else {
            OnSuccess(now);
          }
      }
    }
  }
}
