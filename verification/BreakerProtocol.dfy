/** Many in-flight requests sharing one breaker (internal/llmclient/client.go:193-317). Each lock section is
    one step, so verdicts of requests admitted in an earlier era may arrive at any time; a 429 is two lock
    sections, IsHalfOpen and then RecordFailure. */
module BreakerProtocol {
  import opened CircuitBreaker

  /** How an admitted request ends, as far as the breaker is concerned. */
  datatype Completion =
    | Success        // a verdict: RecordSuccess
    | Failure        // a verdict: RecordFailure
    | RateLimited    // status 429: RecordFailure, but only if the circuit is seen half-open first
    | Canceled       // the caller cancelled the transport: no verdict, the probe slot is returned
    | NeverSent      // the request could not be built: no verdict, the probe slot is returned
    | WaitAbandoned  // the caller cancelled between attempts: the breaker is not touched at all

  /** An admitted request; `sawHalfOpen` once its 429 has passed the IsHalfOpen check. */
  datatype Request = Request(probe: bool, sawHalfOpen: bool)

  datatype System = System(breaker: View, inFlight: multiset<Request>, calls: seq<Call>)

  const IDLE := System(NEW_VIEW, multiset{}, [])

  datatype Step =
    | Begin(now: int)
    | Complete(request: Request, completion: Completion, now: int)
    | RecordAfterCheck(request: Request, now: int)

  /** A probe is never abandoned between attempts: probing requests do not retry (Client.DoRaw and
      Client.DoPassthrough prove it of the code). */
  predicate Enabled(s: System, step: Step) {
    match step
    case Begin(_) => true
    case Complete(r, completion, _) =>
      r in s.inFlight && !r.sawHalfOpen && !(r.probe && completion.WaitAbandoned?)
    case RecordAfterCheck(r, _) => r in s.inFlight && r.sawHalfOpen
  }

  function Invoke(cfg: Config, s: System, call: Call): System {
    s.(breaker := After(cfg, s.breaker, call), calls := s.calls + [call])
  }

  function Leave(s: System, r: Request): System {
    s.(inFlight := s.inFlight - multiset{r})
  }

  function Apply(cfg: Config, s: System, step: Step): System
    requires Enabled(s, step)
  {
    match step
    case Begin(now) =>
      var admission := Acquired(cfg, s.breaker, now).1;
      var t := Invoke(cfg, s, Acquire(now));
      if admission.allowed then t.(inFlight := t.inFlight + multiset{Request(admission.probe, false)}) else t
    case Complete(r, completion, now) =>
      (match completion
       case Success => Leave(Invoke(cfg, s, RecordSuccess), r)
       case Failure => Leave(Invoke(cfg, s, RecordFailure(now)), r)
       case RateLimited =>
         if s.breaker.state.HalfOpen?
         then s.(inFlight := s.inFlight - multiset{r} + multiset{r.(sawHalfOpen := true)})
         else Leave(s, r)
       case Canceled => Leave(if r.probe then Invoke(cfg, s, ReleaseProbe) else s, r)
       case NeverSent => Leave(if r.probe then Invoke(cfg, s, ReleaseProbe) else s, r)
       case WaitAbandoned => Leave(s, r))
    case RecordAfterCheck(r, now) => Leave(Invoke(cfg, s, RecordFailure(now)), r)
  }

  predicate Admissible(cfg: Config, s: System, schedule: seq<Step>)
    decreases |schedule|
  {
    schedule == [] ||
    (Enabled(s, schedule[0]) && Admissible(cfg, Apply(cfg, s, schedule[0]), schedule[1..]))
  }

  function Execute(cfg: Config, s: System, schedule: seq<Step>): System
    requires Admissible(cfg, s, schedule)
    decreases |schedule|
  {
    if schedule == [] then s else Execute(cfg, Apply(cfg, s, schedule[0]), schedule[1..])
  }

  ghost predicate ProbeInFlight(s: System) {
    exists r :: r in s.inFlight && r.probe
  }

  /** A taken probe slot belongs to a half-open circuit and to an admitted probe that has not finished. */
  ghost predicate SlotIsHeld(s: System) {
    !s.breaker.halfOpenAllowed ==> s.breaker.state.HalfOpen? && ProbeInFlight(s)
  }

  /** A request leaving takes no other request with it. */
  lemma OthersStay(s: System, r: Request, other: Request)
    requires other in s.inFlight && other != r
    ensures other in Leave(s, r).inFlight
  {
  }

  lemma CompletionKeepsSlotHeld(cfg: Config, s: System, r: Request, completion: Completion, now: int)
    requires SlotIsHeld(s) && Enabled(s, Complete(r, completion, now))
    ensures SlotIsHeld(Apply(cfg, s, Complete(r, completion, now)))
  {
    var t := Apply(cfg, s, Complete(r, completion, now));
    if !t.breaker.halfOpenAllowed {
      assert !s.breaker.halfOpenAllowed;
      var holder :| holder in s.inFlight && holder.probe;
      if completion.RateLimited? {
        var moved := r.(sawHalfOpen := true);
        assert moved in t.inFlight;
        assert holder == r || holder in t.inFlight;
      } else {
        assert !r.probe;
        OthersStay(s, r, holder);
        assert holder in t.inFlight;
      }
    }
  }

  lemma StepKeepsSlotHeld(cfg: Config, s: System, step: Step)
    requires SlotIsHeld(s) && Enabled(s, step)
    ensures SlotIsHeld(Apply(cfg, s, step))
  {
    match step
    case Begin(now) =>
      var t := Apply(cfg, s, step);
      if Acquired(cfg, s.breaker, now).1.probe {
        assert Request(true, false) in t.inFlight;
      } else if !t.breaker.halfOpenAllowed {
        var holder :| holder in s.inFlight && holder.probe;
        assert holder in t.inFlight;
      }
    case Complete(r, completion, now) => CompletionKeepsSlotHeld(cfg, s, r, completion, now);
    case RecordAfterCheck(_, _) =>
  }

  lemma StepIsReplayed(cfg: Config, s: System, step: Step)
    requires s.breaker == Replay(cfg, s.calls) && Enabled(s, step)
    ensures Apply(cfg, s, step).breaker == Replay(cfg, Apply(cfg, s, step).calls)
  {
    forall call: Call ensures Replay(cfg, s.calls + [call]) == After(cfg, s.breaker, call) {
      assert (s.calls + [call])[..|s.calls|] == s.calls;
    }
  }

  lemma {:induction false} ScheduleKeepsSlotHeld(cfg: Config, s: System, schedule: seq<Step>)
    requires SlotIsHeld(s) && s.breaker == Replay(cfg, s.calls) && Admissible(cfg, s, schedule)
    ensures var t := Execute(cfg, s, schedule); SlotIsHeld(t) && t.breaker == Replay(cfg, t.calls)
    decreases |schedule|
  {
    if schedule != [] {
      StepKeepsSlotHeld(cfg, s, schedule[0]);
      StepIsReplayed(cfg, s, schedule[0]);
      ScheduleKeepsSlotHeld(cfg, Apply(cfg, s, schedule[0]), schedule[1..]);
    }
  }

  /** The probe slot is never lost: whatever arrives late, a taken slot means half-open with an unfinished probe. */
  lemma ProbeSlotIsNeverLost(cfg: Config, schedule: seq<Step>)
    requires Admissible(cfg, IDLE, schedule)
    ensures var s := Execute(cfg, IDLE, schedule);
      !s.breaker.halfOpenAllowed ==> s.breaker.state.HalfOpen? && ProbeInFlight(s)
  {
    ScheduleKeepsSlotHeld(cfg, IDLE, schedule);
  }

  /** The breaker cannot stay stuck: a refused request means the timeout still runs or a probe is under way. */
  lemma RefusalHasACause(cfg: Config, schedule: seq<Step>, now: int)
    requires Admissible(cfg, IDLE, schedule)
    ensures var s := Execute(cfg, IDLE, schedule);
      !Acquired(cfg, s.breaker, now).1.allowed ==>
        if s.breaker.state.Open? then now <= LatestFailure(s.calls) + cfg.timeout else ProbeInFlight(s)
  {
    ScheduleKeepsSlotHeld(cfg, IDLE, schedule);
    LastFailureIsLatest(cfg, Execute(cfg, IDLE, schedule).calls);
  }

  // ---------------------------------------------------------------- how many probes at a time

  function Probes(s: System): nat {
    s.inFlight[Request(true, false)] + s.inFlight[Request(true, true)]
  }

  /** One probe at a time: a probe is in flight exactly when the half-open slot is taken. */
  ghost predicate Exclusive(s: System) {
    && Probes(s) <= 1
    && (Probes(s) == 1 <==> s.breaker.state.HalfOpen? && !s.breaker.halfOpenAllowed)
    && (!s.breaker.halfOpenAllowed ==> s.breaker.state.HalfOpen?)
  }

  /** A request that is not the probe records a verdict while the circuit is half-open and its slot taken. */
  predicate StaleVerdict(s: System, step: Step) {
    && s.breaker.state.HalfOpen? && !s.breaker.halfOpenAllowed
    && (match step
        case Begin(_) => false
        case Complete(r, completion, _) => !r.probe && (completion.Success? || completion.Failure?)
        case RecordAfterCheck(r, _) => !r.probe)
  }

  /** What a completion does to the number of probes in flight. */
  lemma ProbesAfterLeaving(s: System, r: Request)
    requires r in s.inFlight
    ensures Probes(Leave(s, r)) == Probes(s) - (if r.probe then 1 else 0)
  {
    if r.probe {
      assert r == Request(true, r.sawHalfOpen);
    }
  }

  lemma ProbesAfterCheck(s: System, r: Request)
    requires r in s.inFlight && !r.sawHalfOpen
    ensures Probes(s.(inFlight := s.inFlight - multiset{r} + multiset{r.(sawHalfOpen := true)})) == Probes(s)
  {
    if r.probe {
      assert r == Request(true, false);
    }
  }

  lemma ExclusiveAfterVerdict(cfg: Config, s: System, r: Request, call: Call)
    requires Exclusive(s) && r in s.inFlight && (call.RecordSuccess? || call.RecordFailure?)
    ensures Exclusive(Leave(Invoke(cfg, s, call), r)) <==> !(Probes(s) == 1 && !r.probe)
  {
    var called := Invoke(cfg, s, call);
    assert Probes(called) == Probes(s);
    ProbesAfterLeaving(called, r);
    assert r.probe ==> Probes(s) == 1;
    assert called.breaker.halfOpenAllowed;
  }

  lemma ExclusiveAfterNoVerdict(cfg: Config, s: System, r: Request, completion: Completion, now: int)
    requires Exclusive(s) && Enabled(s, Complete(r, completion, now))
    requires completion.Canceled? || completion.NeverSent? || completion.WaitAbandoned?
    ensures Exclusive(Apply(cfg, s, Complete(r, completion, now)))
  {
    ProbesAfterLeaving(s, r);
    assert r.probe ==> Probes(s) == 1;
  }

  lemma ExclusiveAfterCheck(cfg: Config, s: System, r: Request, now: int)
    requires Exclusive(s) && Enabled(s, Complete(r, RateLimited, now))
    ensures Exclusive(Apply(cfg, s, Complete(r, RateLimited, now)))
  {
    ProbesAfterLeaving(s, r);
    ProbesAfterCheck(s, r);
    assert r.probe ==> Probes(s) == 1;
  }

  /** A probe in flight keeps holding the half-open slot over a step exactly when the step is not a stale verdict. */
  lemma ExclusiveUntilStaleVerdict(cfg: Config, s: System, step: Step)
    requires Exclusive(s) && Enabled(s, step)
    ensures Exclusive(Apply(cfg, s, step)) <==> !StaleVerdict(s, step)
  {
    match step
    case Begin(now) =>
      var admission := Acquired(cfg, s.breaker, now).1;
      assert Probes(Apply(cfg, s, step)) == Probes(s) + (if admission.probe then 1 else 0);
    case Complete(r, completion, now) =>
      if completion.Success? {
        ExclusiveAfterVerdict(cfg, s, r, RecordSuccess);
      } else if completion.Failure? {
        ExclusiveAfterVerdict(cfg, s, r, RecordFailure(now));
      } else if completion.RateLimited? {
        ExclusiveAfterCheck(cfg, s, r, now);
      } else {
        ExclusiveAfterNoVerdict(cfg, s, r, completion, now);
      }
    case RecordAfterCheck(r, now) =>
      ExclusiveAfterVerdict(cfg, s, r, RecordFailure(now));
  }

  ghost predicate NoStaleVerdicts(cfg: Config, s: System, schedule: seq<Step>)
    requires Admissible(cfg, s, schedule)
    decreases |schedule|
  {
    schedule == [] ||
    (!StaleVerdict(s, schedule[0]) && NoStaleVerdicts(cfg, Apply(cfg, s, schedule[0]), schedule[1..]))
  }

  /** Without stale verdicts, at most one probe is ever in flight. */
  lemma {:induction false} OneProbeAtATime(cfg: Config, s: System, schedule: seq<Step>)
    requires Exclusive(s) && Admissible(cfg, s, schedule) && NoStaleVerdicts(cfg, s, schedule)
    ensures Exclusive(Execute(cfg, s, schedule))
    decreases |schedule|
  {
    if schedule != [] {
      ExclusiveUntilStaleVerdict(cfg, s, schedule[0]);
      OneProbeAtATime(cfg, Apply(cfg, s, schedule[0]), schedule[1..]);
    }
  }

  // ---------------------------------------------------------------- and what one stale verdict does

  /** Without a further stale verdict, a second probe can come to be in flight beside the first. */
  ghost predicate SecondProbeFollows(cfg: Config, s: System) {
    exists rest: seq<Step> ::
      Admissible(cfg, s, rest) && NoStaleVerdicts(cfg, s, rest) && Probes(Execute(cfg, s, rest)) > 1
  }

  lemma Unfold(cfg: Config, s: System, step: Step, rest: seq<Step>)
    requires Enabled(s, step) && Admissible(cfg, Apply(cfg, s, step), rest)
    ensures Admissible(cfg, s, [step] + rest)
    ensures Execute(cfg, s, [step] + rest) == Execute(cfg, Apply(cfg, s, step), rest)
  {
    assert ([step] + rest)[1..] == rest;
  }

  lemma UnfoldTwo(cfg: Config, s: System, first: Step, second: Step, rest: seq<Step>)
    requires Enabled(s, first) && Enabled(Apply(cfg, s, first), second)
    requires Admissible(cfg, Apply(cfg, Apply(cfg, s, first), second), rest)
    ensures Admissible(cfg, s, [first, second] + rest)
    ensures Execute(cfg, s, [first, second] + rest) == Execute(cfg, Apply(cfg, Apply(cfg, s, first), second), rest)
  {
    Unfold(cfg, Apply(cfg, s, first), second, rest);
    Unfold(cfg, s, first, [second] + rest);
    assert [first] + ([second] + rest) == [first, second] + rest;
  }

  /** The schedule is open to the step, and then to the rest, without a stale verdict. */
  lemma QuietlyThen(cfg: Config, s: System, step: Step, rest: seq<Step>)
    requires Enabled(s, step) && !StaleVerdict(s, step)
    requires Admissible(cfg, Apply(cfg, s, step), rest) && NoStaleVerdicts(cfg, Apply(cfg, s, step), rest)
    ensures Admissible(cfg, s, [step] + rest) && NoStaleVerdicts(cfg, s, [step] + rest)
    ensures Execute(cfg, s, [step] + rest) == Execute(cfg, Apply(cfg, s, step), rest)
  {
    assert ([step] + rest)[1..] == rest;
  }

  /** From an open circuit, or a half-open one with its slot free, the next request in time is a probe. */
  lemma NextIsAProbe(cfg: Config, s: System) returns (rest: seq<Step>)
    requires s.breaker.state.Open? || (s.breaker.state.HalfOpen? && s.breaker.halfOpenAllowed)
    ensures Admissible(cfg, s, rest) && NoStaleVerdicts(cfg, s, rest)
    ensures Probes(Execute(cfg, s, rest)) == Probes(s) + 1
  {
    var begin := Begin(s.breaker.lastFailure + cfg.timeout + 1);
    var t := Apply(cfg, s, begin);
    assert Acquired(cfg, s.breaker, begin.now).1 == Admission(true, true);
    assert t.inFlight == s.inFlight + multiset{Request(true, false)};
    QuietlyThen(cfg, s, begin, []);
    rest := [begin] + [];
  }

  /** A closed circuit can fail until it opens, and then send a probe. */
  lemma {:induction false} FailThenProbe(cfg: Config, s: System) returns (rest: seq<Step>)
    requires s.breaker.state.Closed? && s.breaker.failures < cfg.failureThreshold
    ensures Admissible(cfg, s, rest) && NoStaleVerdicts(cfg, s, rest)
    ensures Probes(Execute(cfg, s, rest)) == Probes(s) + 1
    decreases cfg.failureThreshold - s.breaker.failures
  {
    var r := Request(false, false);
    var begun := Apply(cfg, s, Begin(0));
    assert begun.breaker == s.breaker && begun.inFlight == s.inFlight + multiset{r};
    var fail := Complete(r, Failure, 0);
    var failed := Apply(cfg, begun, fail);
    assert failed.inFlight == s.inFlight;
    assert failed.breaker.failures == s.breaker.failures + 1;
    if failed.breaker.state.Open? {
      rest := NextIsAProbe(cfg, failed);
    } else {
      rest := FailThenProbe(cfg, failed);
    }
    QuietlyThen(cfg, begun, fail, rest);
    rest := [fail] + rest;
    QuietlyThen(cfg, s, Begin(0), rest);
    rest := [Begin(0)] + rest;
  }

  /** What a stale verdict leaves: one probe still in flight, and no slot taken for it. */
  lemma AfterStaleVerdict(cfg: Config, s: System, step: Step)
    requires cfg.failureThreshold >= 1
    requires Exclusive(s) && Enabled(s, step) && StaleVerdict(s, step)
    ensures var t := Apply(cfg, s, step);
      && Probes(t) == 1
      && (t.breaker.state.HalfOpen? ==> t.breaker.halfOpenAllowed)
      && (t.breaker.state.Closed? ==> t.breaker.failures == 0)
  {
    var r := step.request;
    var call := if step.Complete? && step.completion.Success? then RecordSuccess else RecordFailure(step.now);
    ProbesAfterLeaving(Invoke(cfg, s, call), r);
    assert Apply(cfg, s, step) == Leave(Invoke(cfg, s, call), r);
  }

  /** One probe at a time is lost to stale verdicts and to nothing else: from a state with the probe slot held as it
      should be, a step opens the way to a second probe, with no further stale verdict, if and only if it is one. */
  lemma SecondProbeFollowsIff(cfg: Config, s: System, step: Step)
    requires cfg.failureThreshold >= 1
    requires Exclusive(s) && Enabled(s, step)
    ensures SecondProbeFollows(cfg, Apply(cfg, s, step)) <==> StaleVerdict(s, step)
  {
    var t := Apply(cfg, s, step);
    if StaleVerdict(s, step) {
      AfterStaleVerdict(cfg, s, step);
      var rest;
      if t.breaker.state.Closed? {
        rest := FailThenProbe(cfg, t);
      } else {
        rest := NextIsAProbe(cfg, t);
      }
    } else {
      ExclusiveUntilStaleVerdict(cfg, s, step);
      forall rest: seq<Step> | Admissible(cfg, t, rest) && NoStaleVerdicts(cfg, t, rest)
        ensures Probes(Execute(cfg, t, rest)) <= 1
      {
        OneProbeAtATime(cfg, t, rest);
      }
    }
  }

  const STALE := Request(false, false)
  const PROBE := Request(true, false)
  const IMPATIENT := Config(1, 2, 10)

  /** Two requests are admitted, one fails and opens the circuit, and after the timeout a probe goes out. */
  lemma ProbeGoesOutBesideStale() returns (s1: System, s2: System, s3: System, s4: System)
    ensures s1 == Apply(IMPATIENT, IDLE, Begin(1)) && s2 == Apply(IMPATIENT, s1, Begin(2))
    ensures Enabled(s2, Complete(STALE, Failure, 3)) && s3 == Apply(IMPATIENT, s2, Complete(STALE, Failure, 3))
    ensures s4 == Apply(IMPATIENT, s3, Begin(20))
    ensures s4.breaker == View(HalfOpen, 1, 0, 3, false) && s4.inFlight == multiset{STALE, PROBE}
  {
    s1 := Apply(IMPATIENT, IDLE, Begin(1));
    assert s1.inFlight == multiset{STALE} && s1.breaker == NEW_VIEW;
    s2 := Apply(IMPATIENT, s1, Begin(2));
    assert s2.inFlight == multiset{STALE, STALE} && s2.breaker == NEW_VIEW;
    s3 := Apply(IMPATIENT, s2, Complete(STALE, Failure, 3));
    assert s3.inFlight == multiset{STALE} && s3.breaker == View(Open, 1, 0, 3, true);
    s4 := Apply(IMPATIENT, s3, Begin(20));
  }

  /** With one, two probes can be out together: a success of a request admitted before the circuit opened
      frees the slot of a probe that is still running. */
  lemma StaleSuccessAdmitsASecondProbe() returns (schedule: seq<Step>)
    ensures Admissible(IMPATIENT, IDLE, schedule) && Probes(Execute(IMPATIENT, IDLE, schedule)) == 2
  {
    var s1, s2, s3, s4 := ProbeGoesOutBesideStale();
    var s5 := Apply(IMPATIENT, s4, Complete(STALE, Success, 21));
    assert s5.inFlight == multiset{PROBE} && s5.breaker == View(HalfOpen, 1, 1, 3, true);
    var s6 := Apply(IMPATIENT, s5, Begin(22));
    assert Probes(s6) == 2;
    UnfoldTwo(IMPATIENT, s4, Complete(STALE, Success, 21), Begin(22), []);
    schedule := [Complete(STALE, Success, 21), Begin(22)] + [];
    UnfoldTwo(IMPATIENT, s2, Complete(STALE, Failure, 3), Begin(20), schedule);
    schedule := [Complete(STALE, Failure, 3), Begin(20)] + schedule;
    UnfoldTwo(IMPATIENT, IDLE, Begin(1), Begin(2), schedule);
    schedule := [Begin(1), Begin(2)] + schedule;
  }
}
