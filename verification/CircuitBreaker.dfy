/** The circuit breaker (internal/llmclient/circuit_breaker.go): its methods under the mutex, the
    functions they implement, and what any history of calls leaves in its counters. */
module CircuitBreaker {
  datatype CircuitState = Closed | Open | HalfOpen

  datatype Config = Config(failureThreshold: int, successThreshold: int, timeout: int)

  /** What the breaker's fields hold. Times are integers; `now` is the clock reading under the lock. */
  datatype View = View(
    state: CircuitState,
    failures: int,
    successes: int,
    lastFailure: int,
    halfOpenAllowed: bool
  )

  const NEW_VIEW := View(Closed, 0, 0, 0, true)

  datatype Admission = Admission(allowed: bool, probe: bool)

  function Acquired(cfg: Config, v: View, now: int): (View, Admission) {
    match v.state
    case Closed => (v, Admission(true, false))
    case Open =>
      if now - v.lastFailure > cfg.timeout
      then (v.(state := HalfOpen, successes := 0, halfOpenAllowed := false), Admission(true, true))
      else (v, Admission(false, false))
    case HalfOpen =>
      if v.halfOpenAllowed
      then (v.(halfOpenAllowed := false), Admission(true, true))
      else (v, Admission(false, false))
  }

  function Released(v: View): View {
    if v.state.HalfOpen? then v.(halfOpenAllowed := true) else v
  }

  function Succeeded(cfg: Config, v: View): View {
    match v.state
    case Closed => v.(failures := 0)
    case Open => v
    case HalfOpen =>
      if v.successes + 1 >= cfg.successThreshold
      then v.(successes := v.successes + 1, halfOpenAllowed := true, state := Closed, failures := 0)
      else v.(successes := v.successes + 1, halfOpenAllowed := true)
  }

  function Failed(cfg: Config, v: View, now: int): View {
    var w := v.(failures := v.failures + 1, lastFailure := now);
    match v.state
    case Closed => if w.failures >= cfg.failureThreshold then w.(state := Open) else w
    case Open => w
    case HalfOpen => w.(state := Open, successes := 0, halfOpenAllowed := true)
  }

  class Breaker {
    const cfg: Config
    var state: CircuitState
    var failures: int
    var successes: int
    var lastFailure: int
    var halfOpenAllowed: bool

    function Fields(): View
      reads this
    {
      View(state, failures, successes, lastFailure, halfOpenAllowed)
    }

    constructor (cfg: Config)
      ensures this.cfg == cfg && Fields() == NEW_VIEW
    {
      this.cfg := cfg;
      state := Closed;
      failures, successes, lastFailure := 0, 0, 0;
      halfOpenAllowed := true;
    }

    method Acquire(now: int) returns (allowed: bool, probe: bool)
      modifies this
      ensures (Fields(), Admission(allowed, probe)) == Acquired(cfg, old(Fields()), now)
    {
      if state.Closed? {
        return true, false;
      }
      if state.Open? {
        if now - lastFailure > cfg.timeout {
          state := HalfOpen;
          successes := 0;
          halfOpenAllowed := true;
        } else {
          return false, false;
        }
      }
      if halfOpenAllowed {
        halfOpenAllowed := false;
        return true, true;
      }
      return false, false;
    }

    method ReleaseProbe()
      modifies this
      ensures Fields() == Released(old(Fields()))
    {
      if state.HalfOpen? {
        halfOpenAllowed := true;
      }
    }

    method RecordSuccess()
      modifies this
      ensures Fields() == Succeeded(cfg, old(Fields()))
    {
      match state
      case HalfOpen =>
        successes := successes + 1;
        halfOpenAllowed := true;
        if successes >= cfg.successThreshold {
          state := Closed;
          failures := 0;
        }
      case Closed =>
        failures := 0;
      case Open =>
    }

    method RecordFailure(now: int)
      modifies this
      ensures Fields() == Failed(cfg, old(Fields()), now)
    {
      failures := failures + 1;
      lastFailure := now;
      match state
      case Closed =>
        if failures >= cfg.failureThreshold {
          state := Open;
        }
      case HalfOpen =>
        state := Open;
        successes := 0;
        halfOpenAllowed := true;
      case Open =>
    }

    method IsHalfOpen() returns (b: bool)
      ensures b <==> Fields().state.HalfOpen?
    {
      b := state.HalfOpen?;
    }
  }

  // ---------------------------------------------------------------- histories of calls

  datatype Call = Acquire(now: int) | ReleaseProbe | RecordSuccess | RecordFailure(now: int)

  function After(cfg: Config, v: View, call: Call): View {
    match call
    case Acquire(now) => Acquired(cfg, v, now).0
    case ReleaseProbe => Released(v)
    case RecordSuccess => Succeeded(cfg, v)
    case RecordFailure(now) => Failed(cfg, v, now)
  }

  function Replay(cfg: Config, calls: seq<Call>): View {
    if calls == [] then NEW_VIEW else After(cfg, Replay(cfg, calls[..|calls| - 1]), calls[|calls| - 1])
  }

  /** How many failures were recorded after the last recorded success. */
  function FailuresSinceSuccess(calls: seq<Call>): nat {
    if calls == [] then 0
    else
      var before := FailuresSinceSuccess(calls[..|calls| - 1]);
      match calls[|calls| - 1]
      case RecordSuccess => 0
      case RecordFailure(_) => before + 1
      case _ => before
  }

  /** How many successes were recorded since the circuit last became half-open. */
  function SuccessesSinceHalfOpen(cfg: Config, calls: seq<Call>): nat {
    if calls == [] || !Replay(cfg, calls[..|calls| - 1]).state.HalfOpen? then 0
    else SuccessesSinceHalfOpen(cfg, calls[..|calls| - 1]) + if calls[|calls| - 1].RecordSuccess? then 1 else 0
  }

  /** The clock reading of the last recorded failure, and 0 before any. */
  function LatestFailure(calls: seq<Call>): int {
    if calls == [] then 0
    else if calls[|calls| - 1].RecordFailure? then calls[|calls| - 1].now
    else LatestFailure(calls[..|calls| - 1])
  }

  /** How many successes close a half-open circuit: one if the threshold asks for fewer. */
  function Needed(cfg: Config): int {
    if cfg.successThreshold < 1 then 1 else cfg.successThreshold
  }

  lemma {:induction false} LastFailureIsLatest(cfg: Config, calls: seq<Call>)
    ensures Replay(cfg, calls).lastFailure == LatestFailure(calls)
  {
    if calls != [] {
      LastFailureIsLatest(cfg, calls[..|calls| - 1]);
    }
  }

  /** After any history, the counters say what happened: the failures of a closed circuit are those since
      its last success, the successes of a half-open one are those since it half-opened, and each stays
      below its threshold. */
  lemma {:induction false} CountersAreHistory(cfg: Config, calls: seq<Call>)
    requires cfg.failureThreshold >= 1
    ensures var v := Replay(cfg, calls);
      && (v.state.Closed? ==> v.failures == FailuresSinceSuccess(calls) < cfg.failureThreshold)
      && (v.state.HalfOpen? ==> v.successes == SuccessesSinceHalfOpen(cfg, calls) < Needed(cfg))
      && v.lastFailure == LatestFailure(calls)
  {
    LastFailureIsLatest(cfg, calls);
    if calls != [] {
      CountersAreHistory(cfg, calls[..|calls| - 1]);
    }
  }

  /** An open circuit admits a request exactly when more than `timeout` has passed since the latest failure,
      and then as the probe. */
  lemma OpenAdmitsOnlyAfterTimeout(cfg: Config, calls: seq<Call>, now: int)
    requires Replay(cfg, calls).state.Open?
    ensures var admission := Acquired(cfg, Replay(cfg, calls), now).1;
      && (admission.allowed <==> now > LatestFailure(calls) + cfg.timeout)
      && (admission.allowed <==> admission.probe)
  {
    LastFailureIsLatest(cfg, calls);
  }

  /** The circuit opens exactly on the failure that completes a run of `failureThreshold` failures without
      a success between them. */
  lemma OpensOnThresholdFailures(cfg: Config, calls: seq<Call>, call: Call)
    requires cfg.failureThreshold >= 1
    requires Replay(cfg, calls).state.Closed?
    ensures Replay(cfg, calls + [call]).state.Open? <==>
            call.RecordFailure? && FailuresSinceSuccess(calls + [call]) == cfg.failureThreshold
  {
    CountersAreHistory(cfg, calls);
    assert (calls + [call])[..|calls|] == calls;
  }

  /** A half-open circuit closes exactly on its `successThreshold`-th success, and on its first if that is less. */
  lemma ClosesOnThresholdSuccesses(cfg: Config, calls: seq<Call>, call: Call)
    requires cfg.failureThreshold >= 1
    requires Replay(cfg, calls).state.HalfOpen?
    ensures Replay(cfg, calls + [call]).state.Closed? <==>
            call.RecordSuccess? && SuccessesSinceHalfOpen(cfg, calls + [call]) == Needed(cfg)
  {
    CountersAreHistory(cfg, calls);
    assert (calls + [call])[..|calls|] == calls;
  }

  // ---------------------------------------------------------------- the circuit as its history

  /** From each state, the circuit opens, half-opens and closes on these calls and on no others. */
  lemma StateChangesIff(cfg: Config, calls: seq<Call>, call: Call)
    requires cfg.failureThreshold >= 1
    ensures var before, after := Replay(cfg, calls).state, Replay(cfg, calls + [call]).state;
            var timedOut := call.Acquire? && call.now > LatestFailure(calls) + cfg.timeout;
            var failed := call.RecordFailure? && FailuresSinceSuccess(calls + [call]) == cfg.failureThreshold;
            var healed := call.RecordSuccess? && SuccessesSinceHalfOpen(cfg, calls + [call]) == Needed(cfg);
      && (before.Closed? ==> after == if failed then Open else Closed)
      && (before.Open? ==> after == if timedOut then HalfOpen else Open)
      && (before.HalfOpen? ==> after == if call.RecordFailure? then Open else if healed then Closed else HalfOpen)
  {
    CountersAreHistory(cfg, calls);
    assert (calls + [call])[..|calls|] == calls;
  }

  /** The probe slot of a half-open circuit is taken exactly if the latest call was an acquire: any other frees it. No
      other circuit has its slot taken. */
  lemma {:induction false} SlotIsHistory(cfg: Config, calls: seq<Call>)
    ensures var v := Replay(cfg, calls);
      && (v.state.HalfOpen? ==> calls != [] && (!v.halfOpenAllowed <==> calls[|calls| - 1].Acquire?))
      && (!v.state.HalfOpen? ==> v.halfOpenAllowed)
  {
    if calls != [] {
      SlotIsHistory(cfg, calls[..|calls| - 1]);
    }
  }

  /** What any history of calls makes of the next acquire: a closed circuit admits it, an open one once the timeout
      since the latest failure has passed, a half-open one unless the latest call was an acquire too; and all but a
      closed one admit it as the probe. */
  lemma AdmissionIsHistory(cfg: Config, calls: seq<Call>, now: int)
    ensures var admission := Acquired(cfg, Replay(cfg, calls), now).1;
      match Replay(cfg, calls).state
      case Closed => admission.allowed && !admission.probe
      case Open => admission.allowed == admission.probe == (now > LatestFailure(calls) + cfg.timeout)
      case HalfOpen => calls != [] && admission.allowed == admission.probe == !calls[|calls| - 1].Acquire?
  {
    LastFailureIsLatest(cfg, calls);
    SlotIsHistory(cfg, calls);
  }

  /** A failed probe opens the circuit again for a whole timeout. */
  lemma FailedProbeReopens(cfg: Config, calls: seq<Call>, now: int, later: int)
    requires Replay(cfg, calls).state.HalfOpen?
    ensures var failed := calls + [RecordFailure(now)];
      && Replay(cfg, failed).state.Open?
      && (Acquired(cfg, Replay(cfg, failed), later).1.allowed <==> later > now + cfg.timeout)
  {
    var failed := calls + [RecordFailure(now)];
    assert failed[..|calls|] == calls;
    AdmissionIsHistory(cfg, failed, later);
  }
}
