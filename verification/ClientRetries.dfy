/** What a logical request of the client (internal/llmclient/client.go) does, told by status codes and errors: how often
    it tries, what it returns, what it tells the breaker and how long it waits. */
module ClientRetries {
  import opened BreakerProtocol
  import opened Client
  import CircuitBreaker

  // ---------------------------------------------------------------- how often it tries

  /** The transport failed before the client's own deadline, or the status is 429, 502, 503 or 504. */
  predicate WorthRetrying(u: Upstream) {
    match u
    case BuildError(_) => false
    case TransportError(_, _, clientTimeout) => !clientTimeout
    case Response(status) => status in {429, 502, 503, 504}
  }

  /** A breaker has admitted the request as its probe. */
  predicate IsProbe(env: Env) {
    env.breaker && env.admission.probe
  }

  predicate Admitted(env: Env) {
    env.breaker ==> env.admission.allowed
  }

  lemma WorthIff(env: Env, k: nat)
    ensures Inconclusive(env.upstream(k)) <==> WorthRetrying(env.upstream(k))
  {
  }

  /** A request goes on to an attempt exactly if attempts are left, it is no probe, all answers so far are worth
      retrying and no wait was cancelled. */
  lemma TriesAgainIff(delay: nat -> real, env: Env, max: nat, outcomeOf: Upstream -> Outcome, r: Finished, n: nat)
    requires Life(delay, env, max, outcomeOf, r) && Admitted(env) && max >= 1 && n >= 1
    ensures r.attempts >= n <==>
            && n <= max
            && (n > 1 ==> !IsProbe(env))
            && (forall k: nat :: k < n - 1 ==> WorthRetrying(env.upstream(k)))
            && (forall k: nat :: 1 <= k < n ==> !env.waitCanceled(k))
  {
    WorthIff(env, r.attempts - 1);
    if r.attempts < n {
      var last := r.attempts - 1;
      if r.completion.WaitAbandoned? {
        assert 1 <= r.attempts < n && env.waitCanceled(r.attempts);
      } else if r.attempts < max && !IsProbe(env) {
        assert last < n - 1 && !WorthRetrying(env.upstream(last));
      }
    } else {
      forall k: nat | k < n - 1 ensures WorthRetrying(env.upstream(k)) && !IsProbe(env) {
        WorthIff(env, k);
      }
      if n > 1 {
        WorthIff(env, 0);
      }
    }
  }

  /** Against an upstream that never gives a conclusive answer all the configured retries are made. */
  lemma AllRetriesAreMade(retry: Retry, env: Env, outcomeOf: Upstream -> Outcome, r: Finished)
    requires Life(Delays(retry, env), env, MaxAttempts(retry), outcomeOf, r) && Admitted(env) && !IsProbe(env)
    requires (forall k :: WorthRetrying(env.upstream(k))) && forall k :: !env.waitCanceled(k)
    ensures r.attempts == 1 + if retry.maxRetries > 0 then retry.maxRetries else 0
  {
    TriesAgainIff(Delays(retry, env), env, MaxAttempts(retry), outcomeOf, r, MaxAttempts(retry));
  }

  // ---------------------------------------------------------------- what it returns

  /** The answer a request ends with, unless it was refused or abandoned in a wait. */
  function LastAnswer(env: Env, r: Finished): Upstream
    requires r.attempts >= 1
  {
    env.upstream(r.attempts - 1)
  }

  /** The request ended with an answer. */
  predicate Answered(env: Env, r: Finished) {
    Admitted(env) && r.attempts >= 1 && !r.completion.WaitAbandoned?
  }

  /** A retried request that does not relay delivers a 200 and nothing else; its caller hears of any other status. */
  lemma RawDeliversOnlyOk(delay: nat -> real, env: Env, max: nat, r: Finished)
    requires Life(delay, env, max, RawOutcome, r)
    ensures !Admitted(env) <==> r.outcome == CircuitOpen
    ensures r.outcome.Delivered? <==> Answered(env, r) && LastAnswer(env, r) == Response(200)
    ensures Answered(env, r) && LastAnswer(env, r).Response? && LastAnswer(env, r).status != 200 ==>
            r.outcome == StatusFailed(LastAnswer(env, r).status)
  {
  }

  /** A proxied request delivers every response, whatever its status. */
  lemma PassthroughRelays(delay: nat -> real, env: Env, max: nat, r: Finished)
    requires Life(delay, env, max, PassthroughOutcome, r)
    ensures !Admitted(env) <==> r.outcome == CircuitOpen
    ensures r.outcome.Delivered? <==> Answered(env, r) && LastAnswer(env, r).Response?
    ensures r.outcome.Delivered? ==> r.outcome.status == LastAnswer(env, r).status
  {
  }

  /** The end hook reports a failure exactly if the caller gets one. */
  lemma EndHookTellsOutcome(delay: nat -> real, env: Env, max: nat, outcomeOf: Upstream -> Outcome, r: Finished)
    requires Life(delay, env, max, outcomeOf, r) && forall u :: outcomeOf(u) != CanceledInWait
    ensures r.trace != [] && r.trace[|r.trace| - 1].EndHook?
    ensures r.trace[|r.trace| - 1].failed <==> !r.outcome.Delivered?
  {
  }

  // ---------------------------------------------------------------- what it tells the breaker

  lemma {:induction false} LogHasNoVerdict(delay: nat -> real, env: Env, attempts: nat, e: Event)
    requires e in AttemptLog(delay, env, attempts)
    ensures e.Wait? || e.Send?
  {
    if e in AttemptLog(delay, env, attempts - 1) {
      LogHasNoVerdict(delay, env, attempts - 1, e);
    }
  }

  /** Apart from what the attempts do, a trace holds what opens and closes it and what follows the last attempt. */
  lemma OutsideTheAttempts(delay: nat -> real, env: Env, max: nat, outcomeOf: Upstream -> Outcome, r: Finished,
                           e: Event)
    requires Life(delay, env, max, outcomeOf, r) && (e.RecordSuccess? || e.RecordFailure? || e.ReleaseProbe?)
    ensures e in r.trace <==> Admitted(env) && e in Tail(delay, env, r)
  {
    if e in AttemptLog(delay, env, r.attempts) {
      LogHasNoVerdict(delay, env, r.attempts, e);
    }
  }

  /** The breaker hears of a success exactly for an answered status below 500 other than 429, of a failure exactly for a
      transport error that is not the caller's doing, a status from 500 on, or a 429 that meets a half-open circuit; and
      the probe slot is given back exactly by a probe that could not be built or was cancelled. */
  lemma VerdictIsFair(delay: nat -> real, env: Env, max: nat, outcomeOf: Upstream -> Outcome, r: Finished)
    requires Life(delay, env, max, outcomeOf, r)
    ensures RecordSuccess in r.trace <==>
            env.breaker && Answered(env, r)
            && LastAnswer(env, r).Response? && LastAnswer(env, r).status < 500 && LastAnswer(env, r).status != 429
    ensures RecordFailure in r.trace <==>
            env.breaker && Answered(env, r)
            && match LastAnswer(env, r)
               case BuildError(_) => false
               case TransportError(_, canceled, _) => !canceled
               case Response(status) => status >= 500 || (status == 429 && env.halfOpenAtEnd)
    ensures ReleaseProbe in r.trace <==>
            IsProbe(env) && Answered(env, r)
            && match LastAnswer(env, r)
               case BuildError(_) => true
               case TransportError(_, canceled, _) => canceled
               case Response(_) => false
  {
    OutsideTheAttempts(delay, env, max, outcomeOf, r, RecordSuccess);
    OutsideTheAttempts(delay, env, max, outcomeOf, r, RecordFailure);
    OutsideTheAttempts(delay, env, max, outcomeOf, r, ReleaseProbe);
  }

  // ---------------------------------------------------------------- how long it waits

  /** Without jitter the first wait is the initial backoff and each next one the factor times the one before, up to the
      maximum. */
  lemma WaitsGrowByTheFactor(retry: Retry, attempt: nat, x: real)
    requires attempt >= 1 && retry.jitterFactor <= 0.0
    requires retry.initialBackoff >= 0.0 && retry.maxBackoff >= 0.0 && retry.backoffFactor >= 1.0
    ensures Sleep(retry, 1, x) ==
            if retry.initialBackoff > retry.maxBackoff then retry.maxBackoff else retry.initialBackoff
    ensures var grown := retry.backoffFactor * Sleep(retry, attempt, x);
            Sleep(retry, attempt + 1, x) == if grown > retry.maxBackoff then retry.maxBackoff else grown
  {
    PlainSleep(retry, 1, x);
    PlainSleep(retry, attempt, x);
    PlainSleep(retry, attempt + 1, x);
    RawGrows(retry, attempt);
    GrowthStep(Raw(retry, attempt), retry.backoffFactor, retry.maxBackoff);
  }

  /** The delay that grows without bound. */
  function Raw(retry: Retry, attempt: nat): real
    requires attempt >= 1
  {
    retry.initialBackoff * Pow(retry.backoffFactor, attempt - 1)
  }

  lemma PlainSleep(retry: Retry, attempt: nat, x: real)
    requires attempt >= 1 && retry.jitterFactor <= 0.0
    requires retry.initialBackoff >= 0.0 && retry.maxBackoff >= 0.0 && retry.backoffFactor >= 1.0
    ensures Raw(retry, attempt) >= 0.0
    ensures Sleep(retry, attempt, x) == if Raw(retry, attempt) > retry.maxBackoff then retry.maxBackoff
                                        else Raw(retry, attempt)
  {
    PowGrows(retry.backoffFactor, attempt - 1);
    Monotone(0.0, retry.initialBackoff, Pow(retry.backoffFactor, attempt - 1));
  }

  lemma RawGrows(retry: Retry, attempt: nat)
    requires attempt >= 1
    ensures Raw(retry, 1) == retry.initialBackoff
    ensures Raw(retry, attempt + 1) == retry.backoffFactor * Raw(retry, attempt)
  {
    assert Pow(retry.backoffFactor, 0) == 1.0;
    PowOneMore(retry.backoffFactor, attempt - 1);
    Reorder(retry.initialBackoff, retry.backoffFactor, Pow(retry.backoffFactor, attempt - 1));
  }

  lemma Reorder(a: real, b: real, c: real)
    ensures a * (b * c) == b * (a * c)
  {
  }

  lemma {:induction false} PowGrows(factor: real, n: nat)
    requires factor >= 1.0
    ensures Pow(factor, n) >= 1.0
  {
    if n > 0 {
      PowGrows(factor, n - 1);
      Monotone(1.0, factor, Pow(factor, n - 1));
    }
  }

  lemma PowOneMore(factor: real, n: nat)
    ensures Pow(factor, n + 1) == factor * Pow(factor, n)
  {
  }

  lemma GrowthStep(raw: real, factor: real, cap: real)
    requires raw >= 0.0 && factor >= 1.0 && cap >= 0.0
    ensures var capped := if raw > cap then cap else raw;
            (if factor * raw > cap then cap else factor * raw)
            == (if factor * capped > cap then cap else factor * capped)
  {
    Monotone(1.0, factor, raw);
    Monotone(1.0, factor, cap);
  }

  /** Jitter spreads a delay evenly around the one without it, by the factor on either side. */
  lemma JitterIsEven(retry: Retry, attempt: nat, x: real)
    requires attempt >= 1 && retry.jitterFactor > 0.0
    ensures var plain := Backoff(retry.(jitterFactor := 0.0), attempt, x);
      && Backoff(retry, attempt, 0.0) == plain - plain * retry.jitterFactor
      && Backoff(retry, attempt, 0.5) == plain
      && Backoff(retry, attempt, x) + Backoff(retry, attempt, 1.0 - x) == 2.0 * plain
  {
    var jitter := Capped(retry, attempt) * retry.jitterFactor;
    assert x * 2.0 * jitter + (1.0 - x) * 2.0 * jitter == 2.0 * jitter;
  }
}
