/** What a request with failover tells (internal/gateway/failover.go, inference_execute.go and attempts.go): whom it may
    call, what its records say of the calls, and the error it ends with. */
module FailoverRecords {
  import opened Wrappers
  import opened Failover
  import Strings

  /** In either form, a target is called only if the caller is authorised for it and the rate limiter lets it through,
      and only after an error that calls for failover. */
  lemma OnlyAuthorisedTargetsAreCalled(form: Form, request: Request, i: nat)
    requires Failover.Call.Failover(i) in CallsOf(form, request)
    ensures StartsSweep(request) && i < |request.targets|
    ensures request.targets[i].allowed && request.targets[i].available
  {
    CallsAreExactlyTheWantedOnes(form, request);
    assert Wanted(request, i);
  }

  // ---------------------------------------------------------------- how a call fails

  /** This error is what comes of this answer: what the provider says, or a bad gateway if it returns nothing. */
  predicate FailsWith(answer: Answer, f: Failure) {
    match answer
    case Fails(g) => f == g
    case Empty => f.gateway && f.status == 502 && f.errorType == "provider_error" && !f.modelTrouble
    case Answers(_) => false
  }

  lemma FailureIsTold(form: Form, answer: Answer, providerType: string)
    ensures FailureOf(form, answer, providerType).None? <==> answer.Answers?
    ensures FailureOf(form, answer, providerType).Some? ==>
            FailsWith(answer, FailureOf(form, answer, providerType).value)
  {
  }

  /** A failed request ends with the error of the last call it made; without any call, with that of its saturation. */
  lemma EndsWithLastError(form: Form, request: Request)
    requires OutcomeOf(form, request).Failed?
    ensures var calls, failure := CallsOf(form, request), OutcomeOf(form, request).failure;
      if calls == [] then request.saturated == Some(failure)
      else match calls[|calls| - 1]
        case Primary => FailsWith(request.answer, failure)
        case Failover(i) => i < |request.targets| && FailsWith(request.targets[i].answer, failure)
  {
    var tried := TriedBy(form, request);
    ServedByFirstAnswer(form, request);
    assert CallsOf(form, request) == PrimaryCalls(request) + CallsTo(tried);
    FailureIsTold(form, request.answer, request.providerType);
    if tried != [] {
      var t := request.targets[tried[|tried| - 1]];
      FailureIsTold(form, t.answer, t.providerType);
      assert CallsTo(tried)[|tried| - 1] == Failover.Call.Failover(tried[|tried| - 1]);
    }
  }

  // ---------------------------------------------------------------- how a request is served

  /** A streamed answer goes by the provider type of who was called; another by the one it names, if it names any. */
  predicate GoesBy(form: Form, served: string, own: string, named: string) {
    match form
    case Streaming => served == own
    case Responding => served == if Strings.Trim(named) != "" then Strings.Trim(named) else Strings.Trim(own)
  }

  /** What is told of a served request is what belongs to the one that answered. */
  lemma ServedIsTold(form: Form, request: Request)
    requires OutcomeOf(form, request).Served?
    ensures var o := OutcomeOf(form, request);
      match o.call
      case Primary =>
        && request.answer.Answers? && GoesBy(form, o.providerType, request.providerType, request.answer.provider)
        && o.providerName == request.providerName && o.failoverModel == ""
        && (form.Streaming? ==> o.usageModel == request.usageModel)
      case Failover(i) =>
        && i < |request.targets| && request.targets[i].answer.Answers?
        && var t := request.targets[i];
           GoesBy(form, o.providerType, t.providerType, t.answer.provider)
           && o.providerName == t.providerName && o.failoverModel == t.qualified
           && (form.Streaming? ==> o.usageModel == t.model)
  {
  }

  // ---------------------------------------------------------------- what the records say

  /** The record of a call says whether it was answered, and if not, with which error. */
  predicate TellsAnswer(a: Attempt, answer: Answer) {
    && (a.success <==> answer.Answers?)
    && (answer.Answers? ==> a.status == 200 && a.errorType == "" && a.errorMessage == "")
    && (answer.Fails? && answer.failure.gateway ==>
          a.status == answer.failure.status && a.errorType == Strings.Trim(answer.failure.errorType)
          && a.errorMessage == Strings.Trim(answer.failure.message))
    && (answer.Fails? && !answer.failure.gateway ==>
        a.status == 500 && a.errorMessage == Strings.Trim(answer.failure.message))
    && (answer.Empty? ==> a.status == 502)
  }

  lemma EmptyTrims()
    ensures Strings.Trim("") == ""
  {
  }

  predicate TellsTarget(a: Attempt, t: Target) {
    && a.kind.FailoverAttempt? && TellsAnswer(a, t.answer)
    && a.providerName == Strings.Trim(t.providerName) && a.model == Strings.Trim(t.qualified)
  }

  predicate TellsPrimary(a: Attempt, request: Request) {
    && a.kind.PrimaryAttempt?
    && TellsAnswer(a, if request.saturated.Some? then Fails(request.saturated.value) else request.answer)
    && a.providerName == Strings.Trim(request.providerName) && a.model == Strings.Trim(request.qualified)
  }

  lemma TargetIsTold(form: Form, t: Target, number: int)
    ensures TellsTarget(Tidied(AttemptAt(form, t)).(number := number), t)
  {
    EmptyTrims();
  }

  lemma PrimaryIsTold(form: Form, request: Request, number: int)
    ensures TellsPrimary(Tidied(PrimaryRecord(form, request)).(number := number), request)
  {
    EmptyTrims();
  }

  lemma RecordAt(form: Form, request: Request, tried: seq<nat>, before: nat, k: nat)
    requires Within(tried, |request.targets|) && k <= |tried|
    ensures var records := Numbered([PrimaryRecord(form, request)] + AttemptsAt(form, request.targets, tried), before);
      && |records| == 1 + |tried|
      && records[k] == Tidied(if k == 0 then PrimaryRecord(form, request)
                              else AttemptAt(form, request.targets[tried[k - 1]])).(number := before + k + 1)
  {
  }

  /** The first record is of the primary, called or saturated; then comes one for each target called, in order. They are
      numbered without gaps, and each names its provider and model and tells how the call ended. */
  lemma RecordsTellTheCalls(form: Form, request: Request, before: nat, k: nat)
    requires k <= |TriedBy(form, request)|
    ensures Within(TriedBy(form, request), |request.targets|)
    ensures var records := Numbered(AttemptsOf(form, request), before);
      && |records| == 1 + |TriedBy(form, request)| && records[k].number == before + k + 1
      && if k == 0 then TellsPrimary(records[0], request)
         else TellsTarget(records[k], request.targets[TriedBy(form, request)[k - 1]])
  {
    TriedIsWithin(form, request);
    RecordAt(form, request, TriedBy(form, request), before, k);
    if k == 0 {
      PrimaryIsTold(form, request, before + 1);
    } else {
      TargetIsTold(form, request.targets[TriedBy(form, request)[k - 1]], before + k + 1);
    }
  }

  /** The calls to targets are those recorded. */
  lemma RecordedIsCalled(form: Form, request: Request)
    ensures CallsOf(form, request) ==
            (if request.saturated.Some? then [] else [Primary])
            + seq(|TriedBy(form, request)|, k requires 0 <= k < |TriedBy(form, request)| =>
                Failover.Call.Failover(TriedBy(form, request)[k]))
  {
  }
}
