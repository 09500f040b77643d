/** How long a request waits in all (internal/llmclient/client.go): exactly which settings keep the total within
    MaxRetries * MaxBackoff * (1 + JitterFactor), whatever is drawn and whatever the upstream does. */
module ClientBackoff {
  import opened BreakerProtocol
  import opened Client
  import CircuitBreaker

  function Max(a: real, b: real): real { if a < b then b else a }

  /** The longest wait before an attempt, over all draws: the jitter spreads evenly, so it is at one of the ends. */
  function Worst(retry: Retry, attempt: nat): real
    requires attempt >= 1
  {
    Max(Sleep(retry, attempt, 0.0), Sleep(retry, attempt, 1.0))
  }

  /** The longest waits before the first `n` retries, added up. */
  function WorstTotal(retry: Retry, n: nat): real {
    if n == 0 then 0.0 else WorstTotal(retry, n - 1) + Worst(retry, n)
  }

  function TotalBound(retry: Retry): real {
    (MaxAttempts(retry) - 1) as real * WaitBound(retry)
  }

  /** The random source draws from [0, 1). */
  ghost predicate Draws(env: Env) {
    forall k :: 0.0 <= env.random(k) < 1.0
  }

  // ---------------------------------------------------------------- settings that keep the bound

  lemma AffineBelowEnds(a: real, b: real, x: real)
    requires 0.0 <= x <= 1.0
    ensures a + x * b <= Max(a, a + b)
  {
    if b >= 0.0 {
      Monotone(x, 1.0, b);
    } else {
      Monotone(0.0, x, -b);
      assert x * -b == -(x * b);
    }
  }

  /** The delay is the draw-0 delay and an even slope. */
  lemma BackoffIsAffine(retry: Retry, attempt: nat, x: real)
    requires attempt >= 1
    ensures var a, b := Backoff(retry, attempt, 0.0), Backoff(retry, attempt, 1.0) - Backoff(retry, attempt, 0.0);
            Backoff(retry, attempt, x) == a + x * b
  {
    var jitter := Capped(retry, attempt) * retry.jitterFactor;
    assert x * 2.0 * jitter == x * (2.0 * jitter);
  }

  lemma SleepBelowWorst(retry: Retry, attempt: nat, x: real)
    requires attempt >= 1 && 0.0 <= x <= 1.0
    ensures 0.0 <= Sleep(retry, attempt, x) <= Worst(retry, attempt)
  {
    var a, b := Backoff(retry, attempt, 0.0), Backoff(retry, attempt, 1.0) - Backoff(retry, attempt, 0.0);
    BackoffIsAffine(retry, attempt, x);
    AffineBelowEnds(a, b, x);
  }

  lemma {:induction false} SumBelowWorst(retry: Retry, env: Env, m: nat, n: nat)
    requires Draws(env) && m <= n
    ensures SumOf(Delays(retry, env), m) <= WorstTotal(retry, n)
    decreases n
  {
    if m < n {
      SumBelowWorst(retry, env, m, n - 1);
      SleepBelowWorst(retry, n, 0.0);
    } else if n > 0 {
      SumBelowWorst(retry, env, n - 1, n - 1);
      SleepBelowWorst(retry, n, env.random(n));
    }
  }

  // ---------------------------------------------------------------- settings that do not

  /** A draw whose delay comes within `slack` of the longest. */
  function BadDraw(retry: Retry, attempt: nat, slack: real): real
    requires slack > 0.0
  {
    if attempt == 0 || Sleep(retry, attempt, 1.0) <= Sleep(retry, attempt, 0.0) then 0.0
    else
      var slope := Backoff(retry, attempt, 1.0) - Backoff(retry, attempt, 0.0);
      if slope + slack > 0.0 then slope / (slope + slack) else 0.0
  }

  lemma NearOne(slope: real, slack: real)
    requires slope > 0.0 && slack > 0.0
    ensures 0.0 <= slope / (slope + slack) < 1.0
    ensures slope - slope / (slope + slack) * slope <= slack
  {
    var x := slope / (slope + slack);
    assert x * (slope + slack) == slope;
    assert x >= 0.0 by {
      if x < 0.0 {
        Monotone(x, 0.0, slope + slack);
      }
    }
    assert x < 1.0 by {
      if x >= 1.0 {
        Monotone(1.0, x, slope + slack);
      }
    }
    Monotone(x, 1.0, slack);
    assert slope == x * slope + x * slack;
  }

  lemma BadDrawIsBad(retry: Retry, attempt: nat, slack: real)
    requires slack > 0.0
    ensures 0.0 <= BadDraw(retry, attempt, slack) < 1.0
    ensures attempt >= 1 ==> Sleep(retry, attempt, BadDraw(retry, attempt, slack)) >= Worst(retry, attempt) - slack
  {
    if attempt >= 1 && Sleep(retry, attempt, 1.0) > Sleep(retry, attempt, 0.0) {
      var a, b := Backoff(retry, attempt, 0.0), Backoff(retry, attempt, 1.0) - Backoff(retry, attempt, 0.0);
      assert b > 0.0;
      NearOne(b, slack);
      BackoffIsAffine(retry, attempt, BadDraw(retry, attempt, slack));
    }
  }

  /** An upstream that is always unavailable, a caller who never gives up, and bad draws. */
  function BadLuck(retry: Retry, slack: real): Env
    requires slack > 0.0
  {
    Env(_ => Response(STATUS_SERVICE_UNAVAILABLE), _ => false,
        (k: nat) => BadDraw(retry, k, slack), false,
        CircuitBreaker.Admission(true, false), false)
  }

  lemma {:induction false} BadLuckWaits(retry: Retry, slack: real, n: nat)
    requires slack > 0.0
    ensures SumOf(Delays(retry, BadLuck(retry, slack)), n) >= WorstTotal(retry, n) - Times(n, slack)
  {
    if n > 0 {
      BadLuckWaits(retry, slack, n - 1);
      BadDrawIsBad(retry, n, slack);
      assert Delays(retry, BadLuck(retry, slack))(n) == Sleep(retry, n, BadDraw(retry, n, slack));
    }
  }

  lemma BadLuckLives(retry: Retry, slack: real, outcomeOf: Upstream -> Outcome) returns (r: Finished)
    requires slack > 0.0
    ensures var env := BadLuck(retry, slack);
            Draws(env) && Life(Delays(retry, env), env, MaxAttempts(retry), outcomeOf, r)
            && Waited(r.trace) == SumOf(Delays(retry, env), MaxAttempts(retry) - 1)
  {
    var env, max := BadLuck(retry, slack), MaxAttempts(retry);
    forall k: nat ensures 0.0 <= env.random(k) < 1.0 {
      BadDrawIsBad(retry, k, slack);
    }
    var last := env.upstream(max - 1);
    var delay := Delays(retry, env);
    r := Finished(outcomeOf(last), CompletionOf(last), max, []);
    r := r.(trace := Body(delay, env, r) + [Closing(env, r)]);
    assert Life(delay, env, max, outcomeOf, r);
    LifeWaits(delay, env, max, outcomeOf, r);
  }

  ghost predicate AlwaysWithin(retry: Retry, outcomeOf: Upstream -> Outcome, bound: real) {
    forall env, r :: Draws(env) && Life(Delays(retry, env), env, MaxAttempts(retry), outcomeOf, r) ==>
      Waited(r.trace) <= bound
  }

  lemma Gap(n: nat, gap: real) returns (slack: real)
    requires gap > 0.0
    ensures slack > 0.0 && n as real * slack < gap
  {
    slack := gap / (n + 1) as real;
    assert slack * (n + 1) as real == gap;
    assert slack > 0.0 by {
      if slack <= 0.0 {
        Monotone(slack, 0.0, (n + 1) as real);
      }
    }
    assert slack * (n + 1) as real == n as real * slack + slack;
  }

  /** Every request keeps its waits within the total, for all draws and upstreams, if and only if the longest waits
      before each retry add up to no more. */
  lemma TotalBackoffIsBoundedIff(retry: Retry, outcomeOf: Upstream -> Outcome)
    ensures AlwaysWithin(retry, outcomeOf, TotalBound(retry)) <==>
            WorstTotal(retry, MaxAttempts(retry) - 1) <= TotalBound(retry)
  {
    var n := MaxAttempts(retry) - 1;
    if WorstTotal(retry, n) <= TotalBound(retry) {
      forall env, r | Draws(env) && Life(Delays(retry, env), env, MaxAttempts(retry), outcomeOf, r)
        ensures Waited(r.trace) <= TotalBound(retry)
      {
        LifeWaits(Delays(retry, env), env, MaxAttempts(retry), outcomeOf, r);
        SumBelowWorst(retry, env, WaitsOf(env, r), n);
      }
    } else {
      var slack := Gap(n, WorstTotal(retry, n) - TotalBound(retry));
      var r := BadLuckLives(retry, slack, outcomeOf);
      BadLuckWaits(retry, slack, n);
      TimesIsProduct(n, slack);
      assert Waited(r.trace) > TotalBound(retry);
    }
  }
}
