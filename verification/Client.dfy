/** The retrying client (internal/llmclient/client.go): DoRaw, DoStream and DoPassthrough against an oracle for
    what the upstream, the caller's context, the random source and the shared breaker answer. */
module Client {
  import opened BreakerProtocol
  import CircuitBreaker

  datatype Retry = Retry(
    maxRetries: int,
    initialBackoff: real,
    maxBackoff: real,
    backoffFactor: real,
    jitterFactor: real
  )

  const STATUS_OK := 200
  const STATUS_TOO_MANY_REQUESTS := 429
  const STATUS_INTERNAL_SERVER_ERROR := 500
  const STATUS_BAD_GATEWAY := 502
  const STATUS_SERVICE_UNAVAILABLE := 503
  const STATUS_GATEWAY_TIMEOUT := 504

  /** What one attempt meets: a request that cannot be built, a transport error, or a response. */
  datatype Upstream =
    | BuildError(status: int)
    | TransportError(status: int, canceled: bool, clientTimeout: bool)
    | Response(status: int)

  datatype Env = Env(
    upstream: nat -> Upstream,      // the k-th attempt, from 0
    waitCanceled: nat -> bool,      // the caller cancels during the wait before attempt k
    random: nat -> real,            // the random number drawn for that wait
    breaker: bool,                  // a circuit breaker is configured
    admission: CircuitBreaker.Admission,           // its answer to acquire
    halfOpenAtEnd: bool             // its answer to IsHalfOpen, when asked
  )

  /** What the rest of the process sees of one logical request. */
  datatype Event =
    | StartHook
    | Acquire
    | Wait(duration: real)
    | Send
    | RecordSuccess
    | RecordFailure
    | AskHalfOpen
    | ReleaseProbe
    | EndHook(status: int, failed: bool)

  datatype Outcome =
    | CircuitOpen
    | Delivered(status: int)
    | BuildFailed
    | TransportFailed
    | StatusFailed(status: int)
    | CanceledInWait

  // ---------------------------------------------------------------- pure classification

  predicate IsRetryable(status: int) {
    || status == STATUS_TOO_MANY_REQUESTS
    || status == STATUS_SERVICE_UNAVAILABLE
    || status == STATUS_BAD_GATEWAY
    || status == STATUS_GATEWAY_TIMEOUT
  }

  predicate ShouldTrip(status: int) {
    status != STATUS_TOO_MANY_REQUESTS && (IsRetryable(status) || status >= STATUS_INTERNAL_SERVER_ERROR)
  }

  function MaxAttempts(retry: Retry): (n: nat)
    ensures n >= 1
  {
    if retry.maxRetries + 1 < 1 then 1 else retry.maxRetries + 1
  }

  /** The breaker outcome of an answered status. */
  function StatusCompletion(status: int): Completion {
    if status == STATUS_TOO_MANY_REQUESTS then RateLimited
    else if ShouldTrip(status) then Failure
    else Success
  }

  /** The breaker outcome of the attempt a request ends with. */
  function CompletionOf(u: Upstream): Completion {
    match u
    case BuildError(_) => NeverSent
    case TransportError(_, canceled, _) => if canceled then Canceled else Failure
    case Response(status) => StatusCompletion(status)
  }

  /** The error completeScope hands to the breaker, if any. */
  datatype TransportVerdict = NoTransportError | CallerCanceled | OtherTransportError

  /** recordCircuitBreakerCompletion: a caller's cancellation is no verdict, any other transport error is a failure,
      and an answered status is judged by its class. */
  function RecordedCompletion(status: int, err: TransportVerdict): Completion {
    match err
    case CallerCanceled => Canceled
    case OtherTransportError => Failure
    case NoTransportError => StatusCompletion(status)
  }

  /** The protocol's steps for one completion, with no other request's steps between them: one, or two if a 429 has
      seen the circuit half-open. */
  function Completed(cfg: CircuitBreaker.Config, s: System, probe: bool, completion: Completion, now: int): System
    requires Request(probe, false) in s.inFlight && !(probe && completion.WaitAbandoned?)
  {
    var t := Apply(cfg, s, Complete(Request(probe, false), completion, now));
    if completion.RateLimited? && s.breaker.state.HalfOpen?
    then Apply(cfg, t, RecordAfterCheck(Request(probe, true), now))
    else t
  }

  /** recordCircuitBreakerCompletion on the shared breaker: what it leaves in the fields is what the protocol says. */
  method RecordCompletion(breaker: CircuitBreaker.Breaker, probe: bool, status: int, err: TransportVerdict, now: int)
    modifies breaker
    ensures var s := System(old(breaker.Fields()), multiset{Request(probe, false)}, []);
            breaker.Fields() == Completed(breaker.cfg, s, probe, RecordedCompletion(status, err), now).breaker
  {
    match err {
      case CallerCanceled =>
        if probe {
          breaker.ReleaseProbe();
        }
        return;
      case OtherTransportError =>
        breaker.RecordFailure(now);
        return;
      case NoTransportError =>
    }
    if status == STATUS_TOO_MANY_REQUESTS {
      var halfOpen := breaker.IsHalfOpen();
      if halfOpen {
        breaker.RecordFailure(now);
      }
      return;
    }
    if ShouldTrip(status) {
      breaker.RecordFailure(now);
      return;
    }
    breaker.RecordSuccess();
  }

  /** An attempt after which a request that is not probing goes on to the next one. */
  predicate Inconclusive(u: Upstream) {
    match u
    case BuildError(_) => false
    case TransportError(_, _, clientTimeout) => !clientTimeout
    case Response(status) => IsRetryable(status)
  }

  function RawOutcome(u: Upstream): Outcome {
    match u
    case BuildError(_) => BuildFailed
    case TransportError(_, _, _) => TransportFailed
    case Response(status) => if status == STATUS_OK then Delivered(status) else StatusFailed(status)
  }

  /** DoPassthrough hands every response to its caller, whatever the status. */
  function PassthroughOutcome(u: Upstream): Outcome {
    match u
    case BuildError(_) => BuildFailed
    case TransportError(_, _, _) => TransportFailed
    case Response(status) => Delivered(status)
  }

  // ---------------------------------------------------------------- backoff

  function Pow(base: real, exponent: nat): real {
    if exponent == 0 then 1.0 else base * Pow(base, exponent - 1)
  }

  function Min(a: real, b: real): real { if a > b then b else a }

  function NonNegative(a: real): real { if a < 0.0 then 0.0 else a }

  /** The capped exponential delay before attempt `attempt`, without jitter. */
  function Capped(retry: Retry, attempt: nat): real
    requires attempt >= 1
  {
    Min(retry.initialBackoff * Pow(retry.backoffFactor, attempt - 1), retry.maxBackoff)
  }

  function Backoff(retry: Retry, attempt: nat, random: real): real
    requires attempt >= 1
  {
    var backoff := Capped(retry, attempt);
    if retry.jitterFactor > 0.0 then
      var jitter := backoff * retry.jitterFactor;
      backoff - jitter + random * 2.0 * jitter
    else backoff
  }

  /** How long the timer for that delay runs: a negative delay fires at once. */
  function Sleep(retry: Retry, attempt: nat, random: real): real
    requires attempt >= 1
  {
    NonNegative(Backoff(retry, attempt, random))
  }

  /** The longest a single wait is meant to take. */
  function WaitBound(retry: Retry): real {
    NonNegative(retry.maxBackoff) * (1.0 + NonNegative(retry.jitterFactor))
  }

  lemma JitterScales(backoff: real, jitter: real, random: real)
    requires 0.0 <= random < 1.0 && jitter >= 0.0
    ensures backoff - backoff * jitter + random * 2.0 * (backoff * jitter) ==
            backoff * (1.0 - jitter + 2.0 * random * jitter)
    ensures 1.0 - jitter <= 1.0 - jitter + 2.0 * random * jitter <= 1.0 + jitter
  {
    assert 0.0 <= random * jitter <= jitter;
  }

  lemma Monotone(a: real, b: real, c: real)
    requires a <= b && c >= 0.0
    ensures a * c <= b * c && c * a <= c * b
  {
  }

  /** The wait before an attempt stays within MaxBackoff * (1 + JitterFactor) for every random draw exactly when
      the capped delay is not negative, or the jitter factor is at most 1, or the draw 0 already stays within it. */
  lemma WaitIsBoundedIff(retry: Retry, attempt: nat)
    requires attempt >= 1
    ensures (forall random: real :: 0.0 <= random < 1.0 ==> Sleep(retry, attempt, random) <= WaitBound(retry))
       <==> (Capped(retry, attempt) >= 0.0 || retry.jitterFactor <= 1.0
             || -Capped(retry, attempt) * (retry.jitterFactor - 1.0) <= WaitBound(retry))
  {
    var c, j := Capped(retry, attempt), retry.jitterFactor;
    var within := c >= 0.0 || j <= 1.0 || -c * (j - 1.0) <= WaitBound(retry);
    if within {
      forall random: real | 0.0 <= random < 1.0 ensures Sleep(retry, attempt, random) <= WaitBound(retry) {
        WaitIsBounded(retry, attempt, random);
      }
    } else {
      JitterScales(c, j, 0.0);
      assert Sleep(retry, attempt, 0.0) == -c * (j - 1.0);
    }
  }

  /** A negative delay scaled by jitter is largest at the smallest draw. */
  lemma NegativeJitter(c: real, j: real, f: real, worst: real)
    requires c < 0.0 && 1.0 - j <= f && worst == -c * (j - 1.0)
    ensures c * f <= worst
    ensures j <= 1.0 ==> worst <= 0.0
  {
    Monotone(1.0 - j, f, -c);
    assert (1.0 - j) * -c == -worst;
    assert f * -c == -(c * f);
    if j <= 1.0 {
      Monotone(j - 1.0, 0.0, -c);
    }
  }

  lemma ProductMonotone(c: real, f: real, m: real, g: real)
    requires 0.0 <= c <= m && f <= g && 0.0 <= g
    ensures c * f <= m * g
  {
    Monotone(f, g, c);
    Monotone(c, m, g);
  }

  /** A delay c of at most m, scaled by a jitter factor f between 1 - j and 1 + j. */
  lemma ScaledDelay(c: real, m: real, j: real, f: real, bound: real, worst: real)
    requires c <= m && 0.0 <= m && 0.0 <= j && 1.0 - j <= f <= 1.0 + j && bound == m * (1.0 + j)
    requires worst == -c * (j - 1.0) && (c >= 0.0 || j <= 1.0 || worst <= bound)
    ensures c * f <= bound && 0.0 <= bound
  {
    Monotone(0.0, m, 1.0 + j);
    if c >= 0.0 {
      ProductMonotone(c, f, m, 1.0 + j);
    } else {
      NegativeJitter(c, j, f, worst);
    }
  }

  lemma WaitIsBounded(retry: Retry, attempt: nat, random: real)
    requires attempt >= 1 && 0.0 <= random < 1.0
    requires Capped(retry, attempt) >= 0.0 || retry.jitterFactor <= 1.0
             || -Capped(retry, attempt) * (retry.jitterFactor - 1.0) <= WaitBound(retry)
    ensures Sleep(retry, attempt, random) <= WaitBound(retry)
  {
    var c, j, m := Capped(retry, attempt), NonNegative(retry.jitterFactor), NonNegative(retry.maxBackoff);
    JitterScales(c, j, random);
    ScaledDelay(c, m, j, 1.0 - j + 2.0 * random * j, WaitBound(retry), -c * (j - 1.0));
  }

  /** With a negative configured delay, jitter above 1 can wait longer than MaxBackoff * (1 + JitterFactor). */
  lemma NegativeDelayBreaksTheBound()
    ensures var retry := Retry(1, -100.0, 10.0, 1.0, 3.0);
            Sleep(retry, 1, 0.0) == 200.0 && WaitBound(retry) == 40.0
  {
  }

  lemma {:induction false} PowNonNegative(base: real, exponent: nat)
    requires base >= 0.0
    ensures Pow(base, exponent) >= 0.0
  {
    if exponent > 0 {
      PowNonNegative(base, exponent - 1);
      Monotone(0.0, base, Pow(base, exponent - 1));
    }
  }

  /** A configuration whose delays, factors and jitter make sense as such. */
  predicate Sensible(retry: Retry) {
    retry.initialBackoff >= 0.0 && retry.maxBackoff >= 0.0 && retry.backoffFactor >= 0.0 && retry.jitterFactor >= 0.0
  }

  lemma SensibleWaitIsBounded(retry: Retry, attempt: nat, random: real)
    requires Sensible(retry) && attempt >= 1 && 0.0 <= random < 1.0
    ensures Sleep(retry, attempt, random) <= retry.maxBackoff * (1.0 + retry.jitterFactor)
  {
    PowNonNegative(retry.backoffFactor, attempt - 1);
    Monotone(0.0, retry.initialBackoff, Pow(retry.backoffFactor, attempt - 1));
    WaitIsBounded(retry, attempt, random);
  }

  // ---------------------------------------------------------------- the shape of a request's trace

  /** The delay drawn before each attempt; none before the first. */
  function Delays(retry: Retry, env: Env): nat -> real {
    (k: nat) => if k == 0 then 0.0 else Sleep(retry, k, env.random(k))
  }

  /** The waits and sends of the first `attempts` attempts. */
  function AttemptLog(delay: nat -> real, env: Env, attempts: nat): seq<Event> {
    if attempts == 0 then [] else
      AttemptLog(delay, env, attempts - 1)
      + (if attempts > 1 then [Wait(delay(attempts - 1))] else [])
      + (if env.upstream(attempts - 1).BuildError? then [] else [Send])
  }

  /** What a request does to the breaker when it ends. */
  function BreakerEvents(env: Env, completion: Completion): seq<Event> {
    if !env.breaker then [] else
      match completion
      case Success => [RecordSuccess]
      case Failure => [RecordFailure]
      case RateLimited => if env.halfOpenAtEnd then [AskHalfOpen, RecordFailure] else [AskHalfOpen]
      case Canceled => if env.admission.probe then [ReleaseProbe] else []
      case NeverSent => if env.admission.probe then [ReleaseProbe] else []
      case WaitAbandoned => []
  }

  function Opening(env: Env): seq<Event> {
    if env.breaker then [StartHook, Acquire] else [StartHook]
  }

  predicate Probing(env: Env) { env.breaker && env.admission.probe }

  predicate Refused(env: Env) { env.breaker && !env.admission.allowed }

  /** `attempts` is where a retrying request ends: every earlier attempt was inconclusive and its wait ran out, and the
      request stops because the attempt was conclusive, because it probes, or because attempts ran out. */
  ghost predicate EndsAfter(env: Env, max: nat, attempts: nat) {
    && 1 <= attempts <= max
    && (forall k :: 0 <= k < attempts - 1 ==> Inconclusive(env.upstream(k)) && !Probing(env))
    && (forall k :: 1 <= k < attempts ==> !env.waitCanceled(k))
    && (Probing(env) || attempts == max || !Inconclusive(env.upstream(attempts - 1)))
  }

  /** The request is abandoned in the wait that follows `attempts` inconclusive attempts. */
  ghost predicate AbandonedAfter(env: Env, max: nat, attempts: nat) {
    && 1 <= attempts < max
    && !Probing(env)
    && (forall k :: 0 <= k < attempts ==> Inconclusive(env.upstream(k)))
    && (forall k :: 1 <= k < attempts ==> !env.waitCanceled(k))
    && env.waitCanceled(attempts)
  }

  /** What a logical request comes to: its result, its breaker completion, its attempts and everything it did. */
  datatype Finished = Finished(outcome: Outcome, completion: Completion, attempts: nat, trace: seq<Event>)

  /** The trace before its closing hook. */
  function Body(delay: nat -> real, env: Env, r: Finished): seq<Event> {
    Opening(env) + if Refused(env) then [] else AttemptLog(delay, env, r.attempts) + Tail(delay, env, r)
  }

  /** What follows the last attempt: the wait it was abandoned in, or what the breaker is told. */
  function Tail(delay: nat -> real, env: Env, r: Finished): seq<Event> {
    if r.completion.WaitAbandoned? then [Wait(delay(r.attempts))] else BreakerEvents(env, r.completion)
  }

  /** How a request ends: where its attempts stop, what its caller gets and what the breaker is owed. */
  ghost predicate Ending(env: Env, max: nat, outcomeOf: Upstream -> Outcome, r: Finished) {
    if Refused(env) then r.outcome == CircuitOpen && r.attempts == 0
    else if r.completion.WaitAbandoned? then AbandonedAfter(env, max, r.attempts) && r.outcome == CanceledInWait
    else
      && EndsAfter(env, max, r.attempts)
      && r.completion == CompletionOf(env.upstream(r.attempts - 1))
      && r.outcome == outcomeOf(env.upstream(r.attempts - 1))
  }

  function Closing(env: Env, r: Finished): Event {
    if Refused(env) then EndHook(STATUS_SERVICE_UNAVAILABLE, true)
    else if r.completion.WaitAbandoned? || r.attempts == 0 then EndHook(0, true)
    else EndHook(env.upstream(r.attempts - 1).status, !r.outcome.Delivered?)
  }

  /** The whole life of a logical request: how it ends and, in order, everything it did. */
  ghost predicate Life(delay: nat -> real, env: Env, max: nat, outcomeOf: Upstream -> Outcome, r: Finished) {
    Ending(env, max, outcomeOf, r) && r.trace == Body(delay, env, r) + [Closing(env, r)]
  }

  /** How many events of a trace satisfy `p`. */
  function Count(p: Event -> bool, trace: seq<Event>): nat {
    if trace == [] then 0 else Count(p, trace[..|trace| - 1]) + if p(trace[|trace| - 1]) then 1 else 0
  }

  function Waited(trace: seq<Event>): real {
    if trace == [] then 0.0
    else Waited(trace[..|trace| - 1]) + match trace[|trace| - 1] case Wait(d) => d case _ => 0.0
  }

  predicate IsStart(e: Event) { e.StartHook? }
  predicate IsEnd(e: Event) { e.EndHook? }
  predicate IsSend(e: Event) { e.Send? }
  predicate IsVerdict(e: Event) { e.RecordSuccess? || e.RecordFailure? }

  lemma {:induction false} CountConcat(p: Event -> bool, a: seq<Event>, b: seq<Event>)
    ensures Count(p, a + b) == Count(p, a) + Count(p, b)
    decreases |b|
  {
    if b == [] {
      assert a + b == a;
    } else {
      CountConcat(p, a, b[..|b| - 1]);
      assert (a + b)[..|a + b| - 1] == a + b[..|b| - 1];
    }
  }

  lemma {:induction false} WaitedConcat(a: seq<Event>, b: seq<Event>)
    ensures Waited(a + b) == Waited(a) + Waited(b)
    decreases |b|
  {
    if b == [] {
      assert a + b == a;
    } else {
      WaitedConcat(a, b[..|b| - 1]);
      assert (a + b)[..|a + b| - 1] == a + b[..|b| - 1];
    }
  }

  lemma {:induction false} AttemptLogShape(delay: nat -> real, env: Env, attempts: nat, p: Event -> bool)
    requires !p(Send) && forall d: real :: !p(Wait(d))
    ensures Count(p, AttemptLog(delay, env, attempts)) == 0
  {
    if attempts > 0 {
      AttemptLogShape(delay, env, attempts - 1, p);
      var wait := if attempts > 1 then [Wait(delay(attempts - 1))] else [];
      var send := if env.upstream(attempts - 1).BuildError? then [] else [Send];
      CountConcat(p, AttemptLog(delay, env, attempts - 1), wait);
      CountConcat(p, AttemptLog(delay, env, attempts - 1) + wait, send);
      assert Count(p, wait) == 0 && Count(p, send) == 0;
    }
  }

  lemma {:induction false} AttemptLogSends(delay: nat -> real, env: Env, attempts: nat)
    ensures Count(IsSend, AttemptLog(delay, env, attempts)) <= attempts
  {
    if attempts > 0 {
      AttemptLogSends(delay, env, attempts - 1);
      var wait := if attempts > 1 then [Wait(delay(attempts - 1))] else [];
      var send := if env.upstream(attempts - 1).BuildError? then [] else [Send];
      CountConcat(IsSend, AttemptLog(delay, env, attempts - 1), wait);
      CountConcat(IsSend, AttemptLog(delay, env, attempts - 1) + wait, send);
      assert Count(IsSend, wait) == 0 && Count(IsSend, send) <= 1;
    }
  }

  lemma WaitedOne(d: real)
    ensures Waited([Wait(d)]) == d
  {
    assert Waited([]) == 0.0;
  }

  /** What one more attempt adds to the waits. */
  lemma WaitedAttempt(before: seq<Event>, wait: seq<Event>, send: seq<Event>)
    requires |send| <= 1 && forall k :: 0 <= k < |send| ==> !send[k].Wait?
    ensures Waited(before + wait + send) == Waited(before) + Waited(wait)
  {
    WaitedConcat(before, wait);
    WaitedConcat(before + wait, send);
    NoWaits(send);
  }

  /** What the first `n` waits add up to. */
  function SumOf(delay: nat -> real, n: nat): real {
    if n == 0 then 0.0 else SumOf(delay, n - 1) + delay(n)
  }

  /** The waits of `attempts` attempts are one fewer. */
  lemma {:induction false} AttemptLogWaits(delay: nat -> real, env: Env, attempts: nat)
    requires attempts >= 1
    ensures Waited(AttemptLog(delay, env, attempts)) == SumOf(delay, attempts - 1)
  {
    var send := if env.upstream(attempts - 1).BuildError? then [] else [Send];
    if attempts == 1 {
      WaitedAttempt([], [], send);
      assert AttemptLog(delay, env, 1) == [] + [] + send;
    } else {
      WaitedAttempt(AttemptLog(delay, env, attempts - 1), [Wait(delay(attempts - 1))], send);
      AttemptLogWaits(delay, env, attempts - 1);
      WaitedOne(delay(attempts - 1));
    }
  }

  /** `n` times `amount`. */
  function Times(n: nat, amount: real): real {
    if n == 0 then 0.0 else Times(n - 1, amount) + amount
  }

  lemma {:induction false} TimesMonotone(m: nat, n: nat, amount: real)
    requires m <= n && amount >= 0.0
    ensures 0.0 <= Times(m, amount) <= Times(n, amount)
    decreases n
  {
    if m < n {
      TimesMonotone(m, n - 1, amount);
    } else if m > 0 {
      TimesMonotone(m - 1, n - 1, amount);
    }
  }

  lemma {:induction false} TimesIsProduct(n: nat, amount: real)
    ensures Times(n, amount) == n as real * amount
  {
    if n > 0 {
      TimesIsProduct(n - 1, amount);
      OneMore((n - 1) as real, amount);
    }
  }

  lemma OneMore(n: real, amount: real)
    ensures (n + 1.0) * amount == n * amount + amount
  {
  }

  /** A trace grows by one attempt: the wait before it, unless it is the first, and its send. */
  lemma GrowsByAttempt(delay: nat -> real, env: Env, attempts: nat, trace: seq<Event>)
    requires trace == Opening(env) + AttemptLog(delay, env, attempts)
    ensures trace + (if attempts > 0 then [Wait(delay(attempts))] else [])
                  + (if env.upstream(attempts).BuildError? then [] else [Send])
            == Opening(env) + AttemptLog(delay, env, attempts + 1)
  {
  }

  /** Closing a trace that has come to the end of its attempts completes the life of the request. */
  lemma CompletesLife(delay: nat -> real, env: Env, max: nat, outcomeOf: Upstream -> Outcome, trace: seq<Event>,
                      r: Finished)
    requires !Refused(env) && Ending(env, max, outcomeOf, r)
    requires trace == Opening(env) + AttemptLog(delay, env, r.attempts)
    requires r.trace == trace + Tail(delay, env, r) + [Closing(env, r)]
    ensures Life(delay, env, max, outcomeOf, r)
  {
    assert trace + Tail(delay, env, r) == Opening(env) + (AttemptLog(delay, env, r.attempts) + Tail(delay, env, r));
  }

  /** A request whose attempts have come to an end, its last answer reported and its trace closed. */
  lemma AnswersLife(delay: nat -> real, env: Env, max: nat, outcomeOf: Upstream -> Outcome, trace: seq<Event>,
                    r: Finished)
    requires !Refused(env) && EndsAfter(env, max, r.attempts)
    requires var last := env.upstream(r.attempts - 1);
             && r.completion == CompletionOf(last) && r.outcome == outcomeOf(last)
             && r.trace == trace + BreakerEvents(env, r.completion) + [EndHook(last.status, !r.outcome.Delivered?)]
    requires trace == Opening(env) + AttemptLog(delay, env, r.attempts)
    ensures Life(delay, env, max, outcomeOf, r)
  {
    CompletesLife(delay, env, max, outcomeOf, trace, r);
  }

  /** A request abandoned in a wait. */
  lemma AbandonsLife(delay: nat -> real, env: Env, max: nat, outcomeOf: Upstream -> Outcome, attempts: nat,
                     trace: seq<Event>)
    requires !Refused(env) && AbandonedAfter(env, max, attempts)
    requires trace == Opening(env) + AttemptLog(delay, env, attempts)
    ensures Life(delay, env, max, outcomeOf, Finished(CanceledInWait, WaitAbandoned, attempts,
                                                      trace + [Wait(delay(attempts))] + [EndHook(0, true)]))
  {
    CompletesLife(delay, env, max, outcomeOf, trace,
                  Finished(CanceledInWait, WaitAbandoned, attempts,
                           trace + [Wait(delay(attempts))] + [EndHook(0, true)]));
  }

  /** A request with retries: DoRaw. `streamsBody` says its body is a reader, which cannot be replayed. */
  method DoRaw(retry: Retry, env: Env, streamsBody: bool) returns (r: Finished)
    ensures Life(Delays(retry, env), env, if streamsBody then 1 else MaxAttempts(retry), RawOutcome, r)
  {
    var delay := Delays(retry, env);
    var trace := Opening(env);
    if Refused(env) {
      return Finished(CircuitOpen, NeverSent, 0, trace + [EndHook(STATUS_SERVICE_UNAVAILABLE, true)]);
    }
    var lastOutcome := BuildFailed;
    var lastStatus := 0;
    var lastTransport := NoTransportError;
    var completion := NeverSent;
    var attempts := 0;
    var max := if streamsBody then 1 else MaxAttempts(retry);
    while attempts < max
      invariant attempts <= max
      invariant forall k :: 0 <= k < attempts ==> Inconclusive(env.upstream(k)) && !Probing(env)
      invariant forall k :: 1 <= k < attempts ==> !env.waitCanceled(k)
      invariant trace == Opening(env) + AttemptLog(delay, env, attempts)
      invariant attempts > 0 ==>
        && RecordedCompletion(lastStatus, lastTransport) == CompletionOf(env.upstream(attempts - 1))
        && lastOutcome == RawOutcome(env.upstream(attempts - 1))
        && lastStatus == env.upstream(attempts - 1).status && !lastOutcome.Delivered?
    {
      GrowsByAttempt(delay, env, attempts, trace);
      if attempts > 0 {
        if env.waitCanceled(attempts) {
          r := Finished(CanceledInWait, WaitAbandoned, attempts, trace + [Wait(delay(attempts))] + [EndHook(0, true)]);
          AbandonsLife(delay, env, max, RawOutcome, attempts, trace);
          return;
        }
        trace := trace + [Wait(delay(attempts))];
      }
      var answer := env.upstream(attempts);
      trace := trace + if answer.BuildError? then [] else [Send];
      attempts := attempts + 1;
      lastStatus := answer.status;
      if answer.TransportError? && !(Probing(env) || answer.clientTimeout) {
        lastOutcome := TransportFailed;
        lastTransport := if answer.canceled then CallerCanceled else OtherTransportError;
        continue;
      }
      if answer.Response? && IsRetryable(answer.status) && !Probing(env) {
        lastOutcome := StatusFailed(answer.status);
        lastTransport := NoTransportError;
        continue;
      }
      match answer {
        case BuildError(_) =>
          lastOutcome, completion := BuildFailed, NeverSent;
        case TransportError(status, canceled, _) =>
          lastOutcome := TransportFailed;
          completion := RecordedCompletion(status, if canceled then CallerCanceled else OtherTransportError);
        case Response(status) =>
          lastOutcome := if status != STATUS_OK then StatusFailed(status) else Delivered(status);
          completion := RecordedCompletion(status, NoTransportError);
      }
      assert lastOutcome == RawOutcome(answer) && completion == CompletionOf(answer);
      r := Finished(lastOutcome, completion, attempts,
                    trace + BreakerEvents(env, completion) + [EndHook(lastStatus, !lastOutcome.Delivered?)]);
      AnswersLife(delay, env, max, RawOutcome, trace, r);
      return;
    }
    // Attempts ran out on an error, so the fallback for "no captured error" is unreachable.
    assert attempts > 0;
    completion := RecordedCompletion(lastStatus, lastTransport);
    r := Finished(lastOutcome, completion, attempts,
                  trace + BreakerEvents(env, completion) + [EndHook(lastStatus, true)]);
    AnswersLife(delay, env, max, RawOutcome, trace, r);
  }

  /** A streaming request: one attempt, never retried. */
  method DoStream(retry: Retry, env: Env) returns (r: Finished)
    ensures Life(Delays(retry, env), env, 1, RawOutcome, r)
  {
    var delay := Delays(retry, env);
    var trace := Opening(env);
    if Refused(env) {
      return Finished(CircuitOpen, NeverSent, 0, trace + [EndHook(STATUS_SERVICE_UNAVAILABLE, true)]);
    }
    GrowsByAttempt(delay, env, 0, trace);
    var answer := env.upstream(0);
    trace := trace + if answer.BuildError? then [] else [Send];
    var outcome, completion;
    match answer {
      case BuildError(_) =>
        outcome, completion := BuildFailed, NeverSent;
      case TransportError(status, canceled, _) =>
        outcome := TransportFailed;
        completion := RecordedCompletion(status, if canceled then CallerCanceled else OtherTransportError);
      case Response(status) =>
        outcome := if status != STATUS_OK then StatusFailed(status) else Delivered(status);
        completion := RecordedCompletion(status, NoTransportError);
    }
    r := Finished(outcome, completion, 1,
                  trace + BreakerEvents(env, completion) + [EndHook(answer.status, !outcome.Delivered?)]);
    AnswersLife(delay, env, 1, RawOutcome, trace, r);
  }

  /** A proxied request: DoPassthrough retries only replayable ones and relays every response. */
  method DoPassthrough(retry: Retry, env: Env, canRetry: bool) returns (r: Finished)
    ensures Life(Delays(retry, env), env, if canRetry then MaxAttempts(retry) else 1, PassthroughOutcome, r)
  {
    var delay := Delays(retry, env);
    var trace := Opening(env);
    if Refused(env) {
      return Finished(CircuitOpen, NeverSent, 0, trace + [EndHook(STATUS_SERVICE_UNAVAILABLE, true)]);
    }
    var max := 1;
    if canRetry {
      max := MaxAttempts(retry);
    }
    var attempts := 0;
    while attempts < max
      invariant attempts < max
      invariant forall k :: 0 <= k < attempts ==> Inconclusive(env.upstream(k)) && !Probing(env)
      invariant forall k :: 1 <= k < attempts ==> !env.waitCanceled(k)
      invariant trace == Opening(env) + AttemptLog(delay, env, attempts)
    {
      GrowsByAttempt(delay, env, attempts, trace);
      if attempts > 0 {
        if env.waitCanceled(attempts) {
          r := Finished(CanceledInWait, WaitAbandoned, attempts, trace + [Wait(delay(attempts))] + [EndHook(0, true)]);
          AbandonsLife(delay, env, max, PassthroughOutcome, attempts, trace);
          return;
        }
        trace := trace + [Wait(delay(attempts))];
      }
      var answer := env.upstream(attempts);
      trace := trace + if answer.BuildError? then [] else [Send];
      attempts := attempts + 1;
      if answer.TransportError? && !(Probing(env) || answer.clientTimeout || attempts == max) {
        continue;
      }
      if answer.Response? && IsRetryable(answer.status) && !(Probing(env) || attempts == max) {
        continue;
      }
      var outcome, completion;
      match answer {
        case BuildError(_) =>
          outcome, completion := BuildFailed, NeverSent;
        case TransportError(status, canceled, _) =>
          outcome := TransportFailed;
          completion := RecordedCompletion(status, if canceled then CallerCanceled else OtherTransportError);
        case Response(status) =>
          outcome := Delivered(status);
          completion := RecordedCompletion(status, NoTransportError);
      }
      r := Finished(outcome, completion, attempts,
                    trace + BreakerEvents(env, completion) + [EndHook(answer.status, !outcome.Delivered?)]);
      AnswersLife(delay, env, max, PassthroughOutcome, trace, r);
      return;
    }
    // The last attempt always returns, so the fallback for exhausted retries is unreachable.
    assert false;
  }

  // ---------------------------------------------------------------- what every such life keeps

  /** Counting in a trace of at most two events. */
  lemma ShortCount(p: Event -> bool, trace: seq<Event>)
    requires |trace| <= 2
    ensures Count(p, trace) ==
            (if |trace| >= 1 && p(trace[0]) then 1 else 0) + (if |trace| == 2 && p(trace[1]) then 1 else 0)
  {
    if |trace| == 2 {
      assert trace[..1] == [trace[0]];
      assert Count(p, trace[..1]) == Count(p, []) + if p(trace[0]) then 1 else 0;
    }
  }

  /** Counting in a body: what is neither a wait nor a send is counted outside the attempts. */
  lemma BodyCount(delay: nat -> real, env: Env, r: Finished, p: Event -> bool)
    requires !p(Send) && forall d: real :: !p(Wait(d))
    ensures Count(p, Body(delay, env, r)) == Count(p, Opening(env))
              + (if Refused(env) || r.completion.WaitAbandoned? then 0 else Count(p, BreakerEvents(env, r.completion)))
  {
    if Refused(env) {
      assert Body(delay, env, r) == Opening(env);
    } else {
      var log := AttemptLog(delay, env, r.attempts);
      AttemptLogShape(delay, env, r.attempts, p);
      CountConcat(p, log, Tail(delay, env, r));
      CountConcat(p, Opening(env), log + Tail(delay, env, r));
      ShortCount(p, Tail(delay, env, r));
    }
  }

  lemma BodyEdges(delay: nat -> real, env: Env, r: Finished)
    ensures Count(IsStart, Body(delay, env, r)) == 1
    ensures Count(IsEnd, Body(delay, env, r)) == 0
    ensures Count(IsVerdict, Body(delay, env, r)) <= 1
    ensures Body(delay, env, r) != [] && Body(delay, env, r)[0] == StartHook
  {
    BodyCount(delay, env, r, IsStart);
    BodyCount(delay, env, r, IsEnd);
    BodyCount(delay, env, r, IsVerdict);
    ShortCount(IsStart, Opening(env));
    ShortCount(IsEnd, Opening(env));
    ShortCount(IsVerdict, Opening(env));
    ShortCount(IsStart, BreakerEvents(env, r.completion));
    ShortCount(IsEnd, BreakerEvents(env, r.completion));
    ShortCount(IsVerdict, BreakerEvents(env, r.completion));
  }

  lemma CountLast(p: Event -> bool, trace: seq<Event>, last: Event)
    ensures Count(p, trace + [last]) == Count(p, trace) + if p(last) then 1 else 0
  {
    assert (trace + [last])[..|trace|] == trace;
  }

  /** One start hook, first; one end hook, last; and at most one breaker verdict. */
  lemma HooksMatchAndOneVerdict(delay: nat -> real, env: Env, max: nat, outcomeOf: Upstream -> Outcome, r: Finished)
    requires Life(delay, env, max, outcomeOf, r)
    ensures r.trace != [] && r.trace[0] == StartHook && IsEnd(r.trace[|r.trace| - 1])
    ensures Count(IsStart, r.trace) == 1 && Count(IsEnd, r.trace) == 1 && Count(IsVerdict, r.trace) <= 1
  {
    BodyEdges(delay, env, r);
    CountLast(IsStart, Body(delay, env, r), Closing(env, r));
    CountLast(IsEnd, Body(delay, env, r), Closing(env, r));
    CountLast(IsVerdict, Body(delay, env, r), Closing(env, r));
  }

  lemma BodySends(delay: nat -> real, env: Env, r: Finished)
    ensures Count(IsSend, Body(delay, env, r)) <= r.attempts
  {
    ShortCount(IsSend, Opening(env));
    if Refused(env) {
      assert Body(delay, env, r) == Opening(env);
    } else {
      AttemptLogSends(delay, env, r.attempts);
      ShortCount(IsSend, Tail(delay, env, r));
      CountOfThree(IsSend, Opening(env), AttemptLog(delay, env, r.attempts), Tail(delay, env, r));
    }
  }

  lemma CountOfThree(p: Event -> bool, a: seq<Event>, b: seq<Event>, c: seq<Event>)
    ensures Count(p, a + (b + c)) == Count(p, a) + Count(p, b) + Count(p, c)
  {
    CountConcat(p, b, c);
    CountConcat(p, a, b + c);
  }

  /** Upstream sends never exceed the attempts allowed, and a probing request sends at most once. */
  lemma SendsAreBounded(delay: nat -> real, env: Env, max: nat, outcomeOf: Upstream -> Outcome, r: Finished)
    requires Life(delay, env, max, outcomeOf, r)
    ensures Count(IsSend, r.trace) <= r.attempts <= max
    ensures Probing(env) ==> Count(IsSend, r.trace) <= 1
  {
    if !Refused(env) && r.attempts >= 2 {
      assert Inconclusive(env.upstream(0)) && !Probing(env);
    }
    BodySends(delay, env, r);
    CountLast(IsSend, Body(delay, env, r), Closing(env, r));
  }

  lemma NoWaits(trace: seq<Event>)
    requires |trace| <= 2 && forall k :: 0 <= k < |trace| ==> !trace[k].Wait?
    ensures Waited(trace) == 0.0
  {
    if |trace| == 2 {
      assert trace[..1] == [trace[0]];
      assert Waited(trace[..1]) == Waited([]);
    }
  }

  lemma TailWaits(delay: nat -> real, env: Env, r: Finished)
    ensures Waited(Tail(delay, env, r)) == if r.completion.WaitAbandoned? then delay(r.attempts) else 0.0
  {
    if r.completion.WaitAbandoned? {
      WaitedOne(delay(r.attempts));
    } else {
      NoWaits(BreakerEvents(env, r.completion));
    }
  }

  /** How many waits a finished request has begun: those before its attempts and, if it was abandoned, one more. */
  function WaitsOf(env: Env, r: Finished): nat {
    if Refused(env) || r.attempts == 0 then 0
    else if r.completion.WaitAbandoned? then r.attempts
    else r.attempts - 1
  }

  lemma WaitedThree(a: seq<Event>, b: seq<Event>, c: seq<Event>)
    ensures Waited(a + (b + c)) == Waited(a) + Waited(b) + Waited(c)
  {
    WaitedConcat(b, c);
    WaitedConcat(a, b + c);
  }

  lemma BodySplits(delay: nat -> real, env: Env, r: Finished)
    requires !Refused(env)
    ensures Waited(Body(delay, env, r)) == Waited(AttemptLog(delay, env, r.attempts)) + Waited(Tail(delay, env, r))
  {
    NoWaits(Opening(env));
    WaitedThree(Opening(env), AttemptLog(delay, env, r.attempts), Tail(delay, env, r));
  }

  lemma BodyWaits(delay: nat -> real, env: Env, r: Finished)
    requires !Refused(env) && r.attempts >= 1
    ensures Waited(Body(delay, env, r)) == SumOf(delay, WaitsOf(env, r))
  {
    BodySplits(delay, env, r);
    AttemptLogWaits(delay, env, r.attempts);
    TailWaits(delay, env, r);
  }

  /** A request waits for the first delays, in order, and for fewer of them than it has attempts allowed. */
  lemma LifeWaits(delay: nat -> real, env: Env, max: nat, outcomeOf: Upstream -> Outcome, r: Finished)
    requires Life(delay, env, max, outcomeOf, r) && max >= 1
    ensures WaitsOf(env, r) <= max - 1 && Waited(r.trace) == SumOf(delay, WaitsOf(env, r))
  {
    WaitedConcat(Body(delay, env, r), [Closing(env, r)]);
    NoWaits([Closing(env, r)]);
    if Refused(env) {
      NoWaits(Opening(env));
      assert Body(delay, env, r) == Opening(env);
    } else {
      BodyWaits(delay, env, r);
    }
  }

  lemma {:induction false} SumIsBounded(delay: nat -> real, n: nat, bound: real)
    requires forall k :: delay(k) <= bound
    ensures SumOf(delay, n) <= Times(n, bound)
  {
    if n > 0 {
      SumIsBounded(delay, n - 1, bound);
    }
  }

  /** Every delay of a sensible configuration is within the bound of a single wait. */
  lemma DelaysAreBounded(retry: Retry, env: Env)
    requires Sensible(retry) && forall k :: 0.0 <= env.random(k) < 1.0
    ensures WaitBound(retry) == retry.maxBackoff * (1.0 + retry.jitterFactor) >= 0.0
    ensures forall k :: Delays(retry, env)(k) <= WaitBound(retry)
  {
    Monotone(0.0, retry.maxBackoff, 1.0 + retry.jitterFactor);
    forall k: nat ensures Delays(retry, env)(k) <= WaitBound(retry) {
      if k > 0 {
        SensibleWaitIsBounded(retry, k, env.random(k));
      }
    }
  }

  lemma TotalIsTimes(retry: Retry, env: Env, max: nat, outcomeOf: Upstream -> Outcome, r: Finished)
    requires Sensible(retry) && forall k :: 0.0 <= env.random(k) < 1.0
    requires 1 <= max <= MaxAttempts(retry) && Life(Delays(retry, env), env, max, outcomeOf, r)
    ensures Waited(r.trace) <= Times(MaxAttempts(retry) - 1, WaitBound(retry))
  {
    DelaysAreBounded(retry, env);
    LifeWaits(Delays(retry, env), env, max, outcomeOf, r);
    SumIsBounded(Delays(retry, env), WaitsOf(env, r), WaitBound(retry));
    TimesMonotone(WaitsOf(env, r), MaxAttempts(retry) - 1, WaitBound(retry));
  }

  /** The total backoff of a request is at most MaxRetries * MaxBackoff * (1 + JitterFactor). */
  lemma TotalBackoffIsBounded(retry: Retry, env: Env, max: nat, outcomeOf: Upstream -> Outcome, r: Finished)
    requires Sensible(retry) && forall k :: 0.0 <= env.random(k) < 1.0
    requires 1 <= max <= MaxAttempts(retry) && Life(Delays(retry, env), env, max, outcomeOf, r)
    ensures Waited(r.trace) <= (if retry.maxRetries > 0 then retry.maxRetries else 0) as real
                               * (retry.maxBackoff * (1.0 + retry.jitterFactor))
  {
    TotalIsTimes(retry, env, max, outcomeOf, r);
    TimesIsProduct(MaxAttempts(retry) - 1, WaitBound(retry));
  }

  /** The breaker calls among a request's events, each made at clock reading `now`. */
  function CallsOf(events: seq<Event>, now: int): seq<CircuitBreaker.Call> {
    if events == [] then [] else
      CallsOf(events[..|events| - 1], now) +
      match events[|events| - 1]
      case RecordSuccess => [CircuitBreaker.RecordSuccess]
      case RecordFailure => [CircuitBreaker.RecordFailure(now)]
      case ReleaseProbe => [CircuitBreaker.ReleaseProbe]
      case _ => []
  }

  /** An admitted request leaves the shared breaker by a step the protocol allows (so never as a probe abandoned between
      attempts), and the calls it makes are that step's: one after its IsHalfOpen check if it ended in a 429. */
  lemma LifeFollowsProtocol(delay: nat -> real, env: Env, max: nat, outcomeOf: Upstream -> Outcome, r: Finished,
                            cfg: CircuitBreaker.Config, s: System, now: int)
    requires Life(delay, env, max, outcomeOf, r) && env.breaker && env.admission.allowed
    requires Request(env.admission.probe, false) in s.inFlight
    requires r.completion.RateLimited? ==> env.halfOpenAtEnd == s.breaker.state.HalfOpen?
    ensures Enabled(s, Complete(Request(env.admission.probe, false), r.completion, now))
    ensures var t := Apply(cfg, s, Complete(Request(env.admission.probe, false), r.completion, now));
            var checked := Request(env.admission.probe, true);
      if r.completion.RateLimited? && env.halfOpenAtEnd
      then Enabled(t, RecordAfterCheck(checked, now)) &&
           Apply(cfg, t, RecordAfterCheck(checked, now)).calls ==
             s.calls + CallsOf(BreakerEvents(env, r.completion), now)
      else t.calls == s.calls + CallsOf(BreakerEvents(env, r.completion), now)
  {
    var events := BreakerEvents(env, r.completion);
    if events != [] {
      assert CallsOf([], now) == [];
      assert CallsOf([events[0]], now) == CallsOf([], now) + CallsOf([events[0]], now);
      if |events| == 2 {
        assert events[..1] == [AskHalfOpen];
      }
    }
  }
}
