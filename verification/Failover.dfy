/** The failover sweep (internal/gateway/failover.go, inference_execute.go and attempts.go): a failed primary call is
    followed by calls to the other targets. Non-streaming and streaming requests each have their own sweep. */
module Failover {
  import opened Wrappers
  import Strings

  // ---------------------------------------------------------------- the world around one request

  /** An error. Only gateway errors can start a sweep; `modelTrouble` says that its code or message speaks of a
      missing, unsupported or unavailable model. */
  datatype Failure = Failure(gateway: bool, status: int, errorType: string, message: string, provider: string,
    modelTrouble: bool)

  /** What the provider does with a call: it fails, returns nothing, or answers, naming itself. */
  datatype Answer = Fails(failure: Failure) | Empty | Answers(provider: string)

  /** A failover target, with what the authorizer, the rate limiter and the provider say when they are asked. */
  datatype Target = Target(qualified: string, model: string, providerType: string, providerName: string,
                           allowed: bool, available: bool, answer: Answer)

  /** A request. Its context is found done at the check of this number and every later one: the first check is made
      before the sweep, the others before each target. */
  datatype Request = Request(qualified: string, providerType: string, providerName: string, usageModel: string,
                             saturated: Option<Failure>, answer: Answer, targets: seq<Target>, doneFrom: nat)

  datatype Form = Responding | Streaming

  datatype Call = Primary | Failover(target: nat)

  datatype Outcome =
    | Served(call: Call, providerType: string, providerName: string, usageModel: string, failoverModel: string)
    | Failed(failure: Failure)

  const PROVIDER_ERROR := "provider_error"

  function EmptyFailure(form: Form, providerType: string): Failure {
    match form
    case Responding => Failure(true, 502, PROVIDER_ERROR, "provider returned empty response", "", false)
    case Streaming => Failure(true, 502, PROVIDER_ERROR, "provider returned empty stream", providerType, false)
  }

  function FailureOf(form: Form, answer: Answer, providerType: string): Option<Failure> {
    match answer
    case Fails(failure) => Some(failure)
    case Empty => Some(EmptyFailure(form, providerType))
    case Answers(_) => None
  }

  predicate ShouldAttemptFailover(f: Failure) {
    f.gateway && (f.status >= 500 || f.status == 429 || f.modelTrouble)
  }

  function FirstNonEmpty(a: string, b: string): string {
    if Strings.Trim(a) != "" then Strings.Trim(a) else Strings.Trim(b)
  }

  function ResponseProviderType(fallback: string, responseProvider: string): string {
    if Strings.Trim(responseProvider) != "" then Strings.Trim(responseProvider) else Strings.Trim(fallback)
  }

  // ---------------------------------------------------------------- attempts

  datatype Kind = PrimaryAttempt | FailoverAttempt

  datatype Attempt = Attempt(number: int, kind: Kind, providerType: string, providerName: string, model: string,
                             status: int, success: bool, errorType: string, errorMessage: string)

  /** providerAttemptFromResult, not yet numbered. */
  function AttemptFromResult(kind: Kind, providerType: string, providerName: string, model: string,
                             failure: Option<Failure>): Attempt {
    match failure
    case None => Attempt(0, kind, providerType, providerName, model, 200, true, "", "")
    case Some(f) =>
      if f.gateway then Attempt(0, kind, providerType, providerName, model, f.status, false, f.errorType, f.message)
      else Attempt(0, kind, providerType, providerName, model, 500, false, PROVIDER_ERROR, f.message)
  }

  function Tidied(a: Attempt): Attempt {
    a.(providerType := Strings.Trim(a.providerType), providerName := Strings.Trim(a.providerName),
       model := Strings.Trim(a.model), errorType := Strings.Trim(a.errorType),
         errorMessage := Strings.Trim(a.errorMessage))
  }

  /** These attempts as recorded after `before` others. */
  function Numbered(attempts: seq<Attempt>, before: nat): (r: seq<Attempt>)
    ensures |r| == |attempts|
    ensures forall k :: 0 <= k < |r| ==> r[k] == Tidied(attempts[k]).(number := before + k + 1)
  {
    seq(|attempts|, k requires 0 <= k < |attempts| => Tidied(attempts[k]).(number := before + k + 1))
  }

  lemma NumberedInTwoSteps(before: seq<Attempt>, first: Attempt, rest: seq<Attempt>)
    ensures (before + Numbered([first], |before|)) + Numbered(rest, |before| + 1) ==
            before + Numbered([first] + rest, |before|)
  {
  }

  class AttemptRecorder {
    var attempts: seq<Attempt>

    constructor ()
      ensures attempts == []
    {
      attempts := [];
    }

    /** recordProviderAttempt: an attempt without a number gets the next one. */
    method Record(attempt: Attempt)
      modifies this
      ensures attempt.number <= 0 ==> attempts == old(attempts) + Numbered([attempt], |old(attempts)|)
      ensures attempt.number > 0 ==> attempts == old(attempts) + [Tidied(attempt)]
    {
      var tidied := Tidied(attempt);
      if tidied.number <= 0 {
        tidied := tidied.(number := |attempts| + 1);
      }
      attempts := attempts + [tidied];
    }
  }

  /** The provider's side: it sees the calls. */
  class Upstream {
    var calls: seq<Call>

    constructor ()
      ensures calls == []
    {
      calls := [];
    }

    method Ask(request: Request, call: Call) returns (answer: Answer)
      requires call.Failover? ==> call.target < |request.targets|
      modifies this
      ensures calls == old(calls) + [call]
      ensures answer == if call.Primary? then request.answer else request.targets[call.target].answer
    {
      calls := calls + [call];
      answer := if call.Primary? then request.answer else request.targets[call.target].answer;
    }
  }

  // ---------------------------------------------------------------- which targets are tried

  /** A target that is called when the sweep comes to it. */
  predicate Usable(t: Target) {
    t.allowed && t.available
  }

  predicate Saves(t: Target) {
    Usable(t) && t.answer.Answers?
  }

  /** The usable ones among the first `n` targets, in order. */
  function UsableBelow(targets: seq<Target>, n: nat): seq<nat>
    requires n <= |targets|
  {
    if n == 0 then []
    else UsableBelow(targets, n - 1) + if Usable(targets[n - 1]) then [n - 1] else []
  }

  /** How many targets the sweep looks at, when it has already looked at `i`. */
  function Reach(targets: seq<Target>, doneFrom: nat, i: nat): (n: nat)
    requires i <= |targets|
    ensures i <= n <= |targets|
    ensures i < n ==> n < doneFrom
    ensures forall k :: i <= k < n - 1 ==> !Saves(targets[k])
    ensures n == |targets| || n + 1 >= doneFrom || (i < n && Saves(targets[n - 1]))
    decreases |targets| - i
  {
    if i == |targets| || i + 1 >= doneFrom then i
    else if Saves(targets[i]) then i + 1
    else Reach(targets, doneFrom, i + 1)
  }

  predicate Sweeps(request: Request, failure: Failure) {
    request.doneFrom > 0 && request.targets != [] && ShouldAttemptFailover(failure)
  }

  /** The targets called after the primary failed this way. */
  function Tried(request: Request, failure: Failure): seq<nat> {
    if Sweeps(request, failure) then UsableBelow(request.targets, Reach(request.targets, request.doneFrom, 0)) else []
  }

  /** The error of the last call made while looking at the first `n` targets. */
  function LastFailure(form: Form, failure: Failure, targets: seq<Target>, n: nat): Failure
    requires n <= |targets|
  {
    if n == 0 then failure
    else if Usable(targets[n - 1]) && FailureOf(form, targets[n - 1].answer, targets[n - 1].providerType).Some?
    then FailureOf(form, targets[n - 1].answer, targets[n - 1].providerType).value
    else LastFailure(form, failure, targets, n - 1)
  }

  function ServedBy(form: Form, request: Request, i: nat): Outcome
    requires i < |request.targets| && request.targets[i].answer.Answers?
  {
    var t := request.targets[i];
    match form
    case Responding =>
      Served(Failover(i), ResponseProviderType(t.providerType, t.answer.provider), t.providerName, "", t.qualified)
    case Streaming => Served(Failover(i), t.providerType, t.providerName, t.model, t.qualified)
  }

  function SweepOutcome(form: Form, request: Request, failure: Failure): Outcome {
    if !Sweeps(request, failure) then Failed(failure)
    else
      var n := Reach(request.targets, request.doneFrom, 0);
      if n > 0 && Saves(request.targets[n - 1]) then ServedBy(form, request, n - 1)
      else Failed(LastFailure(form, failure, request.targets, n))
  }

  function AttemptAt(form: Form, t: Target): Attempt {
    match form
    case Responding =>
      var resolved := if t.answer.Answers? then ResponseProviderType(t.providerType, t.answer.provider) else "";
      AttemptFromResult(FailoverAttempt, FirstNonEmpty(resolved, t.providerType), t.providerName, t.qualified,
                        FailureOf(form, t.answer, t.providerType))
    case Streaming =>
      var resolved := if t.answer.Answers? then t.providerType else "";
      AttemptFromResult(FailoverAttempt, FirstNonEmpty(resolved, t.providerType), t.providerName, t.qualified,
                        FailureOf(form, t.answer, t.providerType))
  }

  ghost predicate Within(tried: seq<nat>, n: nat) {
    forall k :: 0 <= k < |tried| ==> tried[k] < n
  }

  function CallsTo(tried: seq<nat>): (r: seq<Call>)
    ensures |r| == |tried| && forall k :: 0 <= k < |r| ==> r[k] == Failover(tried[k])
  {
    seq(|tried|, k requires 0 <= k < |tried| => Failover(tried[k]))
  }

  ghost function AttemptsAt(form: Form, targets: seq<Target>, tried: seq<nat>): (r: seq<Attempt>)
    requires Within(tried, |targets|)
    ensures |r| == |tried| && forall k :: 0 <= k < |r| ==> r[k] == AttemptAt(form, targets[tried[k]])
  {
    seq(|tried|, k requires 0 <= k < |tried| => AttemptAt(form, targets[tried[k]]))
  }

  lemma {:induction false} UsableBelowIsExact(targets: seq<Target>, n: nat)
    requires n <= |targets|
    ensures Within(UsableBelow(targets, n), n)
    ensures forall i: nat :: i in UsableBelow(targets, n) <==> i < n && Usable(targets[i])
    ensures forall j, k :: 0 <= j < k < |UsableBelow(targets, n)| ==>
            UsableBelow(targets, n)[j] < UsableBelow(targets, n)[k]
  {
    if n > 0 {
      UsableBelowIsExact(targets, n - 1);
    }
  }

  // ---------------------------------------------------------------- the two sweeps

  /** What the sweep leaves behind: a call and an attempt for every target tried. */
  ghost predicate Logged(request: Request, form: Form, tried: seq<nat>, calls: seq<Call>, calls': seq<Call>,
                         attempts: seq<Attempt>, attempts': seq<Attempt>)
  {
    && Within(tried, |request.targets|)
    && calls' == calls + CallsTo(tried)
    && attempts' == attempts + Numbered(AttemptsAt(form, request.targets, tried), |attempts|)
  }

  lemma LoggedOneMore(request: Request, form: Form, tried: seq<nat>, calls: seq<Call>, calls': seq<Call>,
                      attempts: seq<Attempt>, attempts': seq<Attempt>, i: nat)
    requires i < |request.targets| && Logged(request, form, tried, calls, calls', attempts, attempts')
    ensures Logged(request, form, tried + [i], calls, calls' + [Failover(i)],
                   attempts, attempts' + Numbered([AttemptAt(form, request.targets[i])], |attempts'|))
  {
    assert AttemptsAt(form, request.targets, tried + [i]) ==
           AttemptsAt(form, request.targets, tried) + [AttemptAt(form, request.targets[i])];
    assert CallsTo(tried + [i]) == CallsTo(tried) + [Failover(i)];
  }

  /** One call of the non-streaming sweep, and its record. */
  method CallForResponse(request: Request, i: nat, upstream: Upstream, recorder: AttemptRecorder)
    returns (resolved: string, failure: Option<Failure>)
    requires i < |request.targets|
    modifies upstream, recorder
    ensures upstream.calls == old(upstream.calls) + [Failover(i)]
    ensures recorder.attempts ==
            old(recorder.attempts) + Numbered([AttemptAt(Responding, request.targets[i])], |old(recorder.attempts)|)
    ensures failure == FailureOf(Responding, request.targets[i].answer, request.targets[i].providerType)
    ensures failure.None? ==>
            resolved == ResponseProviderType(request.targets[i].providerType, request.targets[i].answer.provider)
  {
    var t := request.targets[i];
    var answer := upstream.Ask(request, Failover(i));
    failure := FailureOf(Responding, answer, t.providerType);
    resolved := if answer.Answers? then ResponseProviderType(t.providerType, answer.provider) else "";
    recorder.Record(AttemptFromResult(FailoverAttempt, FirstNonEmpty(resolved, t.providerType), t.providerName,
      t.qualified, failure));
  }

  /** A target the sweep comes to: called and recorded if it is usable, else passed over. */
  method TryTargetForResponse(request: Request, i: nat, upstream: Upstream, recorder: AttemptRecorder,
                              ghost calls: seq<Call>, ghost attempts: seq<Attempt>)
    returns (resolved: string, failure: Option<Failure>, called: bool)
    requires i < |request.targets|
    requires Logged(request, Responding, UsableBelow(request.targets, i), calls, upstream.calls, attempts,
             recorder.attempts)
    modifies upstream, recorder
    ensures Logged(request, Responding, UsableBelow(request.targets, i + 1), calls, upstream.calls, attempts,
            recorder.attempts)
    ensures called == Usable(request.targets[i])
    ensures called ==> failure == FailureOf(Responding, request.targets[i].answer, request.targets[i].providerType)
    ensures called && failure.None? ==>
              resolved == ResponseProviderType(request.targets[i].providerType, request.targets[i].answer.provider)
  {
    var t := request.targets[i];
    if !t.allowed {
      return "", None, false;
    }
    if !t.available {
      return "", None, false;
    }
    LoggedOneMore(request, Responding, UsableBelow(request.targets, i), calls, upstream.calls, attempts,
      recorder.attempts, i);
    resolved, failure := CallForResponse(request, i, upstream, recorder);
    called := true;
  }

  /** tryFailoverResponse. */
  method TryFailoverResponse(request: Request, primaryErr: Failure, upstream: Upstream, recorder: AttemptRecorder)
    returns (outcome: Outcome)
    modifies upstream, recorder
    ensures Logged(request, Responding, Tried(request, primaryErr), old(upstream.calls), upstream.calls,
                   old(recorder.attempts), recorder.attempts)
    ensures outcome == SweepOutcome(Responding, request, primaryErr)
  {
    if request.doneFrom == 0 {
      return Failed(primaryErr);
    }
    if |request.targets| == 0 || !ShouldAttemptFailover(primaryErr) {
      return Failed(primaryErr);
    }
    var lastErr := primaryErr;
    for i := 0 to |request.targets|
      invariant Reach(request.targets, request.doneFrom, 0) == Reach(request.targets, request.doneFrom, i)
      invariant i > 0 ==> !Saves(request.targets[i - 1])
      invariant lastErr == LastFailure(Responding, primaryErr, request.targets, i)
      invariant Logged(request, Responding, UsableBelow(request.targets, i), old(upstream.calls), upstream.calls,
                       old(recorder.attempts), recorder.attempts)
    {
      if i + 1 >= request.doneFrom {
        return Failed(lastErr);
      }
      var t := request.targets[i];
      var resolved, failure, called :=
        TryTargetForResponse(request, i, upstream, recorder, old(upstream.calls), old(recorder.attempts));
      if !called {
        continue;
      }
      if failure.None? {
        return Served(Failover(i), resolved, t.providerName, "", t.qualified);
      }
      lastErr := failure.value;
    }
    return Failed(lastErr);
  }

  /** One call of the streaming sweep, and its record. */
  method CallForStream(request: Request, i: nat, upstream: Upstream, recorder: AttemptRecorder)
    returns (resolved: string, usageModel: string, failure: Option<Failure>)
    requires i < |request.targets|
    modifies upstream, recorder
    ensures upstream.calls == old(upstream.calls) + [Failover(i)]
    ensures recorder.attempts ==
            old(recorder.attempts) + Numbered([AttemptAt(Streaming, request.targets[i])], |old(recorder.attempts)|)
    ensures failure == FailureOf(Streaming, request.targets[i].answer, request.targets[i].providerType)
    ensures failure.None? ==> resolved == request.targets[i].providerType && usageModel == request.targets[i].model
  {
    var t := request.targets[i];
    var answer := upstream.Ask(request, Failover(i));
    match answer {
      case Fails(f) => resolved, usageModel, failure := "", "", Some(f);
      case Empty => resolved, usageModel, failure := "", "", Some(EmptyFailure(Streaming, t.providerType));
      case Answers(_) => resolved, usageModel, failure := t.providerType, t.model, None;
    }
    recorder.Record(AttemptFromResult(FailoverAttempt, FirstNonEmpty(resolved, t.providerType), t.providerName,
      t.qualified, failure));
  }

  /** A target the sweep comes to: called and recorded if it is usable, else passed over. */
  method TryTargetForStream(request: Request, i: nat, upstream: Upstream, recorder: AttemptRecorder,
                            ghost calls: seq<Call>, ghost attempts: seq<Attempt>)
    returns (resolved: string, usageModel: string, failure: Option<Failure>, called: bool)
    requires i < |request.targets|
    requires Logged(request, Streaming, UsableBelow(request.targets, i), calls, upstream.calls, attempts,
             recorder.attempts)
    modifies upstream, recorder
    ensures Logged(request, Streaming, UsableBelow(request.targets, i + 1), calls, upstream.calls, attempts,
            recorder.attempts)
    ensures called == Usable(request.targets[i])
    ensures called ==> failure == FailureOf(Streaming, request.targets[i].answer, request.targets[i].providerType)
    ensures called && failure.None? ==>
            resolved == request.targets[i].providerType && usageModel == request.targets[i].model
  {
    var t := request.targets[i];
    if !t.allowed {
      return "", "", None, false;
    }
    if !t.available {
      return "", "", None, false;
    }
    LoggedOneMore(request, Streaming, UsableBelow(request.targets, i), calls, upstream.calls, attempts,
      recorder.attempts, i);
    resolved, usageModel, failure := CallForStream(request, i, upstream, recorder);
    called := true;
  }

  /** tryFailoverStream. */
  method TryFailoverStream(request: Request, primaryErr: Failure, upstream: Upstream, recorder: AttemptRecorder)
    returns (outcome: Outcome)
    modifies upstream, recorder
    ensures Logged(request, Streaming, Tried(request, primaryErr), old(upstream.calls), upstream.calls,
                   old(recorder.attempts), recorder.attempts)
    ensures outcome == SweepOutcome(Streaming, request, primaryErr)
  {
    if request.doneFrom == 0 {
      return Failed(primaryErr);
    }
    if |request.targets| == 0 || !ShouldAttemptFailover(primaryErr) {
      return Failed(primaryErr);
    }
    var lastErr := primaryErr;
    for i := 0 to |request.targets|
      invariant Reach(request.targets, request.doneFrom, 0) == Reach(request.targets, request.doneFrom, i)
      invariant i > 0 ==> !Saves(request.targets[i - 1])
      invariant lastErr == LastFailure(Streaming, primaryErr, request.targets, i)
      invariant Logged(request, Streaming, UsableBelow(request.targets, i), old(upstream.calls), upstream.calls,
                       old(recorder.attempts), recorder.attempts)
    {
      if i + 1 >= request.doneFrom {
        return Failed(lastErr);
      }
      var t := request.targets[i];
      var resolved, usageModel, failure, called :=
        TryTargetForStream(request, i, upstream, recorder, old(upstream.calls), old(recorder.attempts));
      if !called {
        continue;
      }
      if failure.None? {
        return Served(Failover(i), resolved, t.providerName, usageModel, t.qualified);
      }
      lastErr := failure.value;
    }
    return Failed(lastErr);
  }

  // ---------------------------------------------------------------- whole requests

  function PrimaryFailure(form: Form, request: Request): Option<Failure> {
    if request.saturated.Some? then request.saturated else FailureOf(form, request.answer, request.providerType)
  }

  function PrimaryRecord(form: Form, request: Request): Attempt {
    var named := if request.saturated.None? && request.answer.Answers? then request.answer.provider else "";
    var providerType :=
      if form.Responding? && request.saturated.None? then ResponseProviderType(request.providerType, named)
      else request.providerType;
    AttemptFromResult(PrimaryAttempt, providerType, request.providerName, request.qualified,
      PrimaryFailure(form, request))
  }

  /** The targets a request tries. */
  function TriedBy(form: Form, request: Request): seq<nat> {
    if PrimaryFailure(form, request).Some? then Tried(request, PrimaryFailure(form, request).value) else []
  }

  function PrimaryCalls(request: Request): seq<Call> {
    if request.saturated.Some? then [] else [Primary]
  }

  /** The calls a request makes. */
  function CallsOf(form: Form, request: Request): seq<Call> {
    PrimaryCalls(request) + CallsTo(TriedBy(form, request))
  }

  ghost function AttemptsOf(form: Form, request: Request): seq<Attempt>
    requires Within(TriedBy(form, request), |request.targets|)
  {
    [PrimaryRecord(form, request)] + AttemptsAt(form, request.targets, TriedBy(form, request))
  }

  function OutcomeOf(form: Form, request: Request): Outcome {
    if PrimaryFailure(form, request).Some? then SweepOutcome(form, request, PrimaryFailure(form, request).value)
    else match form
      case Responding =>
        Served(Primary, ResponseProviderType(request.providerType, request.answer.provider), request.providerName,
               "", "")
      case Streaming => Served(Primary, request.providerType, request.providerName, request.usageModel, "")
  }

  /** Exactly these calls, this outcome and these records, numbered from the recorder's next number. */
  ghost predicate Runs(form: Form, request: Request, calls: seq<Call>, calls': seq<Call>,
                       attempts: seq<Attempt>, attempts': seq<Attempt>, outcome: Outcome)
  {
    && Within(TriedBy(form, request), |request.targets|)
    && calls' == calls + CallsOf(form, request)
    && attempts' == attempts + Numbered(AttemptsOf(form, request), |attempts|)
    && outcome == OutcomeOf(form, request)
  }

  lemma LoggedAfterFirst(form: Form, request: Request, first: Attempt, firstCalls: seq<Call>, tried: seq<nat>,
                         calls: seq<Call>, middle: seq<Call>, calls': seq<Call>,
                         attempts: seq<Attempt>, between: seq<Attempt>, attempts': seq<Attempt>)
    requires middle == calls + firstCalls && between == attempts + Numbered([first], |attempts|)
    requires Logged(request, form, tried, middle, calls', between, attempts')
    ensures calls' == calls + (firstCalls + CallsTo(tried))
    ensures attempts' == attempts + Numbered([first] + AttemptsAt(form, request.targets, tried), |attempts|)
  {
    NumberedInTwoSteps(attempts, first, AttemptsAt(form, request.targets, tried));
  }

  lemma SweepCompletesRun(form: Form, request: Request, calls: seq<Call>, middle: seq<Call>, calls': seq<Call>,
                          attempts: seq<Attempt>, between: seq<Attempt>, attempts': seq<Attempt>)
    requires middle == calls + PrimaryCalls(request)
    requires between == attempts + Numbered([PrimaryRecord(form, request)], |attempts|)
    requires Logged(request, form, TriedBy(form, request), middle, calls', between, attempts')
    ensures Runs(form, request, calls, calls', attempts, attempts', OutcomeOf(form, request))
  {
    LoggedAfterFirst(form, request, PrimaryRecord(form, request), PrimaryCalls(request), TriedBy(form, request),
                     calls, middle, calls', attempts, between, attempts');
  }

  /** The primary call of executeTranslatedWithFailover, and its record. */
  method CallPrimaryForResponse(request: Request, upstream: Upstream, recorder: AttemptRecorder)
    returns (resolved: string, failure: Option<Failure>)
    modifies upstream, recorder
    ensures upstream.calls == old(upstream.calls) + PrimaryCalls(request)
    ensures recorder.attempts ==
            old(recorder.attempts) + Numbered([PrimaryRecord(Responding, request)], |old(recorder.attempts)|)
    ensures failure == PrimaryFailure(Responding, request)
    ensures failure.None? ==> resolved == ResponseProviderType(request.providerType, request.answer.provider)
  {
    if request.saturated.Some? {
      recorder.Record(AttemptFromResult(PrimaryAttempt, request.providerType, request.providerName, request.qualified,
        request.saturated));
      return "", request.saturated;
    }
    var answer := upstream.Ask(request, Primary);
    failure := FailureOf(Responding, answer, request.providerType);
    resolved := ResponseProviderType(request.providerType, if answer.Answers? then answer.provider else "");
    recorder.Record(AttemptFromResult(PrimaryAttempt, resolved, request.providerName, request.qualified, failure));
  }

  /** executeTranslatedWithFailover. */
  method ExecuteTranslatedWithFailover(request: Request, upstream: Upstream, recorder: AttemptRecorder)
    returns (outcome: Outcome)
    modifies upstream, recorder
    ensures Runs(Responding, request, old(upstream.calls), upstream.calls, old(recorder.attempts), recorder.attempts,
            outcome)
  {
    var resolved, failure := CallPrimaryForResponse(request, upstream, recorder);
    ghost var middle, between := upstream.calls, recorder.attempts;
    if failure.None? {
      outcome := Served(Primary, resolved, request.providerName, "", "");
    } else {
      outcome := TryFailoverResponse(request, failure.value, upstream, recorder);
    }
    SweepCompletesRun(Responding, request, old(upstream.calls), middle, upstream.calls,
                      old(recorder.attempts), between, recorder.attempts);
  }

  /** streamTranslatedProviderRequest. */
  method StreamTranslatedProviderRequest(request: Request, upstream: Upstream, recorder: AttemptRecorder)
    returns (outcome: Outcome)
    modifies upstream, recorder
    ensures Runs(Streaming, request, old(upstream.calls), upstream.calls, old(recorder.attempts), recorder.attempts,
            outcome)
  {
    var err := request.saturated;
    if err.None? {
      var answer := upstream.Ask(request, Primary);
      match answer
      case Answers(_) =>
        recorder.Record(AttemptFromResult(PrimaryAttempt, request.providerType, request.providerName,
          request.qualified, None));
        SweepCompletesRun(Streaming, request, old(upstream.calls), upstream.calls, upstream.calls,
                          old(recorder.attempts), recorder.attempts, recorder.attempts);
        return Served(Primary, request.providerType, request.providerName, request.usageModel, "");
      case Empty => err := Some(EmptyFailure(Streaming, request.providerType));
      case Fails(f) => err := Some(f);
    }
    recorder.Record(AttemptFromResult(PrimaryAttempt, request.providerType, request.providerName, request.qualified,
      err));
    ghost var middle, between := upstream.calls, recorder.attempts;
    outcome := TryFailoverStream(request, err.value, upstream, recorder);
    SweepCompletesRun(Streaming, request, old(upstream.calls), middle, upstream.calls,
                      old(recorder.attempts), between, recorder.attempts);
  }

  // ---------------------------------------------------------------- what a request does

  /** A gateway error of status 429 or from 500 on, or one that speaks of a missing or unavailable model. */
  predicate CallsForFailover(f: Failure) {
    f.gateway && (f.status == 429 || f.status >= 500 || f.modelTrouble)
  }

  /** The primary fails in a way that starts a sweep: it is saturated, or fails, or returns nothing. */
  predicate StartsSweep(request: Request) {
    match request.saturated
    case Some(f) => CallsForFailover(f)
    case None => request.answer.Empty? || (request.answer.Fails? && CallsForFailover(request.answer.failure))
  }

  /** The sweep comes to this target and calls it: the primary's error starts a sweep, the context is not done by
      then, the target is authorised and available, and no earlier one of that kind has answered. */
  ghost predicate Wanted(request: Request, i: nat) {
    && StartsSweep(request)
    && i < |request.targets| && i + 1 < request.doneFrom
    && request.targets[i].allowed && request.targets[i].available
    && forall j :: 0 <= j < i ==>
         !(request.targets[j].allowed && request.targets[j].available && request.targets[j].answer.Answers?)
  }

  lemma {:induction false} ReachIsFirstStop(targets: seq<Target>, doneFrom: nat, i: nat, k: nat)
    requires i <= k < |targets|
    ensures k < Reach(targets, doneFrom, i) <==> k + 1 < doneFrom && forall j :: i <= j < k ==> !Saves(targets[j])
    decreases |targets| - i
  {
    if i + 1 < doneFrom && !Saves(targets[i]) && i < k {
      ReachIsFirstStop(targets, doneFrom, i + 1, k);
    }
  }

  lemma TriedIsWanted(form: Form, request: Request, i: nat)
    ensures i in TriedBy(form, request) <==> Wanted(request, i)
  {
    var targets := request.targets;
    UsableBelowIsExact(targets, Reach(targets, request.doneFrom, 0));
    if i < |targets| {
      ReachIsFirstStop(targets, request.doneFrom, 0, i);
    }
  }

  /** A saturated primary is never called, any other is called first and once; the targets called are exactly the
      wanted ones, each once and in order. */
  lemma CallsAreExactlyTheWantedOnes(form: Form, request: Request)
    ensures forall k :: 0 <= k < |CallsOf(form, request)| ==>
              (CallsOf(form, request)[k] == Primary <==> k == 0 && request.saturated.None?)
    ensures request.saturated.None? ==> CallsOf(form, request) != []
    ensures forall i: nat :: Failover(i) in CallsOf(form, request) <==> Wanted(request, i)
    ensures forall j, k :: 0 <= j < k < |CallsOf(form, request)| && CallsOf(form, request)[j].Failover? ==>
              CallsOf(form, request)[k].Failover? && CallsOf(form, request)[j].target < CallsOf(form, request)[k].target
  {
    var tried := TriedBy(form, request);
    UsableBelowIsExact(request.targets, Reach(request.targets, request.doneFrom, 0));
    assert CallsOf(form, request) == PrimaryCalls(request) + CallsTo(tried);
    forall i: nat ensures Failover(i) in CallsOf(form, request) <==> Wanted(request, i) {
      TriedIsWanted(form, request, i);
      CallsToHolds(tried, i);
      assert Failover(i) in CallsOf(form, request) <==> Failover(i) in CallsTo(tried);
    }
  }

  lemma CallsToHolds(tried: seq<nat>, i: nat)
    ensures Failover(i) in CallsTo(tried) <==> i in tried
  {
    if i in tried {
      var k :| 0 <= k < |tried| && tried[k] == i;
      assert CallsTo(tried)[k] == Failover(i);
    }
  }

  /** The error of the last call, or the primary's if there was no other call. */
  ghost function LastError(form: Form, request: Request): Option<Failure>
    requires Within(TriedBy(form, request), |request.targets|)
  {
    var tried := TriedBy(form, request);
    if tried == [] then PrimaryFailure(form, request)
    else
      var t := request.targets[tried[|tried| - 1]];
      FailureOf(form, t.answer, t.providerType)
  }

  lemma {:induction false} LastFailureIsOfLastTried(form: Form, failure: Failure, targets: seq<Target>, n: nat)
    requires n <= |targets| && forall k :: 0 <= k < n ==> !Saves(targets[k])
    ensures var tried := UsableBelow(targets, n);
            if tried == [] then LastFailure(form, failure, targets, n) == failure
            else tried[|tried| - 1] < n &&
                 var t := targets[tried[|tried| - 1]];
                 FailureOf(form, t.answer, t.providerType) == Some(LastFailure(form, failure, targets, n))
  {
    if n > 0 {
      LastFailureIsOfLastTried(form, failure, targets, n - 1);
    }
  }

  /** A request is served by the primary if that answers, else by the first wanted target that does; if none does, it
      fails with the error of the last call. */
  lemma ServedByFirstAnswer(form: Form, request: Request)
    ensures OutcomeOf(form, request).Served? && OutcomeOf(form, request).call == Primary <==>
            request.saturated.None? && request.answer.Answers?
    ensures forall i: nat :: (OutcomeOf(form, request).Served? && OutcomeOf(form, request).call == Failover(i)) <==>
                             (Wanted(request, i) && request.targets[i].answer.Answers?)
    ensures Within(TriedBy(form, request), |request.targets|)
    ensures OutcomeOf(form, request).Failed? ==> LastError(form, request) == Some(OutcomeOf(form, request).failure)
  {
    UsableBelowIsExact(request.targets, Reach(request.targets, request.doneFrom, 0));
    forall i: nat ensures (OutcomeOf(form, request).Served? && OutcomeOf(form, request).call == Failover(i)) <==>
                          (Wanted(request, i) && request.targets[i].answer.Answers?)
    {
      TargetServesIff(form, request, i);
    }
    if OutcomeOf(form, request).Failed? {
      FailsWithLastError(form, request);
    }
  }

  lemma TriedIsWithin(form: Form, request: Request)
    ensures Within(TriedBy(form, request), |request.targets|)
  {
    UsableBelowIsExact(request.targets, Reach(request.targets, request.doneFrom, 0));
  }

  lemma FailsWithLastError(form: Form, request: Request)
    requires OutcomeOf(form, request).Failed?
    ensures Within(TriedBy(form, request), |request.targets|)
    ensures LastError(form, request) == Some(OutcomeOf(form, request).failure)
  {
    var n := Reach(request.targets, request.doneFrom, 0);
    UsableBelowIsExact(request.targets, n);
    if Sweeps(request, PrimaryFailure(form, request).value) {
      assert forall k :: 0 <= k < n ==> !Saves(request.targets[k]);
      LastFailureIsOfLastTried(form, PrimaryFailure(form, request).value, request.targets, n);
    }
  }

  lemma TargetServesIff(form: Form, request: Request, i: nat)
    ensures (OutcomeOf(form, request).Served? && OutcomeOf(form, request).call == Failover(i)) <==>
            (Wanted(request, i) && request.targets[i].answer.Answers?)
  {
    var targets := request.targets;
    var n := Reach(targets, request.doneFrom, 0);
    if i < |targets| {
      ReachIsFirstStop(targets, request.doneFrom, 0, i);
    }
    if i + 1 < n {
      assert !Saves(targets[i]);
    }
    if PrimaryFailure(form, request).Some? && Sweeps(request, PrimaryFailure(form, request).value) && n > 0
      && i + 1 == n {
      assert i < n;
    }
  }

  // ---------------------------------------------------------------- the two forms agree

  /** The same attempt, up to the provider type an answer names and the wording of an empty answer's error. */
  predicate SameAttempt(a: Attempt, b: Attempt) {
    && a.kind == b.kind && a.providerName == b.providerName && a.model == b.model
    && a.status == b.status && a.success == b.success && a.errorType == b.errorType
  }

  predicate SameFailure(a: Failure, b: Failure) {
    a.gateway == b.gateway && a.status == b.status && a.errorType == b.errorType && a.modelTrouble == b.modelTrouble
  }

  predicate SameOutcome(a: Outcome, b: Outcome) {
    match (a, b)
    case (Served(c, _, name, _, model), Served(d, _, name', _, model')) => c == d && name == name' && model == model'
    case (Failed(f), Failed(g)) => SameFailure(f, g)
    case _ => false
  }

  lemma {:induction false} LastFailuresAgree(f: Failure, g: Failure, targets: seq<Target>, n: nat)
    requires n <= |targets| && SameFailure(f, g)
    ensures SameFailure(LastFailure(Responding, f, targets, n), LastFailure(Streaming, g, targets, n))
  {
    if n > 0 {
      LastFailuresAgree(f, g, targets, n - 1);
    }
  }

  /** Faced with the same answers, the streaming and the non-streaming form make the same calls and record the same
      attempts, and end alike. */
  lemma FormsAgree(request: Request, before: nat)
    ensures CallsOf(Responding, request) == CallsOf(Streaming, request)
    ensures Within(TriedBy(Responding, request), |request.targets|)
            && Within(TriedBy(Streaming, request), |request.targets|)
    ensures var a, b := Numbered(AttemptsOf(Responding, request), before),
            Numbered(AttemptsOf(Streaming, request), before);
            |a| == |b| && forall k :: 0 <= k < |a| ==>
              SameAttempt(a[k], b[k]) && a[k].number == b[k].number == before + k + 1
    ensures SameOutcome(OutcomeOf(Responding, request), OutcomeOf(Streaming, request))
  {
    TriesAgree(request);
    OutcomesAgree(request);
    TriedIsWithin(Responding, request);
    AttemptsAgree(request, TriedBy(Responding, request));
  }

  lemma AttemptsAgree(request: Request, tried: seq<nat>)
    requires Within(tried, |request.targets|)
    ensures var a := [PrimaryRecord(Responding, request)] + AttemptsAt(Responding, request.targets, tried);
            var b := [PrimaryRecord(Streaming, request)] + AttemptsAt(Streaming, request.targets, tried);
            |a| == |b| && forall k :: 0 <= k < |a| ==> SameAttempt(Tidied(a[k]), Tidied(b[k]))
  {
    PrimaryRecordsAgree(request);
    var a := [PrimaryRecord(Responding, request)] + AttemptsAt(Responding, request.targets, tried);
    var b := [PrimaryRecord(Streaming, request)] + AttemptsAt(Streaming, request.targets, tried);
    forall k | 0 <= k < |a| ensures SameAttempt(Tidied(a[k]), Tidied(b[k])) {
      if k > 0 {
        RecordsAgree(request.targets[tried[k - 1]]);
      }
      TidyingKeepsSameness(a[k], b[k]);
    }
  }

  lemma TidyingKeepsSameness(a: Attempt, b: Attempt)
    requires SameAttempt(a, b)
    ensures SameAttempt(Tidied(a), Tidied(b))
  {
  }

  lemma PrimaryRecordsAgree(request: Request)
    ensures SameAttempt(PrimaryRecord(Responding, request), PrimaryRecord(Streaming, request))
  {
  }

  lemma RecordsAgree(t: Target)
    ensures SameAttempt(AttemptAt(Responding, t), AttemptAt(Streaming, t))
  {
  }

  lemma OutcomesAgree(request: Request)
    ensures SameOutcome(OutcomeOf(Responding, request), OutcomeOf(Streaming, request))
  {
    TriesAgree(request);
    if PrimaryFailure(Responding, request).Some? {
      LastFailuresAgree(PrimaryFailure(Responding, request).value, PrimaryFailure(Streaming, request).value,
                        request.targets, Reach(request.targets, request.doneFrom, 0));
    }
  }

  lemma TriesAgree(request: Request)
    ensures TriedBy(Responding, request) == TriedBy(Streaming, request)
    ensures PrimaryFailure(Responding, request).Some? <==> PrimaryFailure(Streaming, request).Some?
    ensures PrimaryFailure(Responding, request).Some? ==>
              SameFailure(PrimaryFailure(Responding, request).value, PrimaryFailure(Streaming, request).value)
  {
  }

  /** They record the same provider type for a target unless its answer names another. */
  lemma ProviderTypesAgreeIff(t: Target)
    ensures Tidied(AttemptAt(Responding, t)).providerType == Tidied(AttemptAt(Streaming, t)).providerType <==>
            (t.answer.Answers? ==>
               Strings.Trim(t.answer.provider) == "" || Strings.Trim(t.answer.provider) == Strings.Trim(t.providerType))
  {
    Strings.TrimFixesTrimmed(t.providerType);
    Strings.TrimFixesTrimmed(Strings.Trim(t.providerType));
    if t.answer.Answers? {
      Strings.TrimFixesTrimmed(t.answer.provider);
      Strings.TrimFixesTrimmed(Strings.Trim(t.answer.provider));
    }
  }
}
