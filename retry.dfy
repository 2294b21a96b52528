/**
 * `make_request`: at most `max_retries` GETs, retrying only status,
 * redirect and transport errors, with a sleep of `backoff_factor * 2^attempt`
 * between attempts.  The transport is the sequence of what each attempt gets;
 * sleeps are recorded instead of performed.
 */
module Retry {
  import opened Wrappers
  import opened Httpx
  import opened Messages
  import opened Client

  /** What one `self._session.get(...)` gives: a response, or an exception. */
  datatype Attempt = Received(response: ResponseInfo) | Failed(error: Exception)

  /** How the `try` block of one attempt ends: with the body it returns, or the exception it raises. */
  datatype TryOutcome = Returned(value: Json) | Raised(error: Exception)

  /** `raise_for_status()` then `response.json()`; a transport exception passes through. */
  function TryBlock(a: Attempt): (t: TryOutcome)
    ensures t.Returned? <==> a.Received? && IsSuccess(a.response.status) && a.response.json.Parsed?
    ensures t.Returned? ==> t.value == a.response.json.value
    ensures a.Failed? ==> t == Raised(a.error)
    ensures a.Received? && !IsSuccess(a.response.status) ==>
              t.Raised? && t.error.HTTPStatusError? && t.error.response == a.response
    ensures a.Received? && IsSuccess(a.response.status) && a.response.json.Malformed? ==>
              t == Raised(ValueError(a.response.json.repr))
  {
    match a
    case Failed(e) => Raised(e)
    case Received(r) =>
      if !IsSuccess(r.status) then Raised(HTTPStatusError(r, ""))
      else match r.json
        case Parsed(v) => Returned(v)
        case Malformed(repr) => Raised(ValueError(repr))
  }

  /** The debug line written once the status check passes, before the body is parsed. */
  function TryLog(a: Attempt, url: string): (log: seq<LogEvent>)
    ensures |log| <= 1
    ensures log != [] <==> a.Received? && IsSuccess(a.response.status)
    ensures forall i :: 0 <= i < |log| ==> log[i] == Debug(RequestSucceeded(url))
    ensures TryBlock(a).Returned? ==> log == [Debug(RequestSucceeded(url))]
  {
    if a.Received? && IsSuccess(a.response.status) then [Debug(RequestSucceeded(url))] else []
  }

  /** An attempt that is retried (or, on the last attempt, ends the loop with None). */
  predicate Transient(a: Attempt) {
    TryBlock(a).Raised? && IsRetried(TryBlock(a).error)
  }

  /** Everything one call produces: the result, the headers of each request sent, the sleeps, the log. */
  datatype RequestRun = RequestRun(result: Option<Json>, sent: seq<Headers>, sleeps: seq<real>, log: seq<LogEvent>)

  function Pow2(k: nat): (p: nat)
    ensures p >= 1
  {
    if k == 0 then 1 else 2 * Pow2(k - 1)
  }

  /** The sleep after a retried failure of attempt `k`, doubling from `backoff`. */
  function Delay(backoff: real, k: nat): real {
    if k == 0 then backoff else 2.0 * Delay(backoff, k - 1)
  }

  /** The sleep is `backoff_factor * (2 ** attempt)`. */
  lemma {:induction false} DelayIsBackoffTimesPower(backoff: real, k: nat)
    ensures Delay(backoff, k) == backoff * Pow2(k) as real
  {
    if k > 0 {
      DelayIsBackoffTimesPower(backoff, k - 1);
      assert backoff * Pow2(k) as real == 2.0 * (backoff * Pow2(k - 1) as real);
    }
  }

  /** The warning a retried attempt logs. */
  function RetryWarning(h: Handling): LogEvent
    requires h.Retried?
  {
    if h.onLoggerObject then LoggerObjectWarning(h.message) else Warning(h.message)
  }

  /** How one pass of the loop body ends: the call returns `run`, or it logs `log` and sleeps. */
  datatype Step = Return(run: RequestRun) | Continue(log: seq<LogEvent>)

  /** The loop body for one attempt; `isLast` is `attempt == max_retries - 1`. */
  function AttemptStep(url: string, headers: Headers, a: Attempt, isLast: bool): (step: Step)
    ensures step.Continue? <==> Transient(a) && !isLast
    ensures step.Return? ==>
              step.run.sent == [headers] && step.run.sleeps == [] &&
              (step.run.result.Some? <==> TryBlock(a).Returned?) &&
              (step.run.result.Some? ==> step.run.result.value == TryBlock(a).value)
    ensures step.Return? ==> Error(AllRetriesFailed(url)) !in step.run.log
    ensures step.Continue? ==> Error(AllRetriesFailed(url)) !in step.log
  {
    match TryBlock(a)
    case Returned(v) => Return(RequestRun(Some(v), [headers], [], TryLog(a, url)))
    case Raised(e) =>
      var h := HandleAttemptError(e, url);
      match h
      case GiveUp(m) => Return(RequestRun(None, [headers], [], TryLog(a, url) + [Error(m)]))
      case Retried(m, _) =>
        if isLast then Return(RequestRun(None, [headers], [], TryLog(a, url) + [RetryWarning(h), Error(m)]))
        else Continue(TryLog(a, url) + [RetryWarning(h)])
  }

  /** The loop from attempt `k` on; once the attempts run out, the final error is logged. */
  function AttemptsFrom(url: string, maxRetries: int, backoff: real, headers: Headers,
                        outcomes: seq<Attempt>, k: nat): RequestRun
    requires maxRetries <= |outcomes|
    decreases maxRetries - k
  {
    if k >= maxRetries then RequestRun(None, [], [], [Error(AllRetriesFailed(url))])
    else
      match AttemptStep(url, headers, outcomes[k], k == maxRetries - 1)
      case Return(run) => run
      case Continue(log) =>
        After([headers], [Delay(backoff, k)], log, AttemptsFrom(url, maxRetries, backoff, headers, outcomes, k + 1))
  }

  /** One retried attempt followed by the rest of the loop. */
  lemma ContinueUnfolds(url: string, maxRetries: int, backoff: real, headers: Headers,
                        outcomes: seq<Attempt>, k: nat, log: seq<LogEvent>)
    requires maxRetries <= |outcomes| && k < maxRetries
    requires AttemptStep(url, headers, outcomes[k], k == maxRetries - 1) == Continue(log)
    ensures AttemptsFrom(url, maxRetries, backoff, headers, outcomes, k) ==
            After([headers], [Delay(backoff, k)], log, AttemptsFrom(url, maxRetries, backoff, headers, outcomes, k + 1))
  {
  }

  /** The same, after the requests, sleeps and log lines of the earlier attempts. */
  lemma ContinueAfter(url: string, maxRetries: int, backoff: real, headers: Headers,
                      outcomes: seq<Attempt>, k: nat, log: seq<LogEvent>,
                      sent0: seq<Headers>, sleeps0: seq<real>, log0: seq<LogEvent>)
    requires maxRetries <= |outcomes| && k < maxRetries
    requires AttemptStep(url, headers, outcomes[k], k == maxRetries - 1) == Continue(log)
    ensures After(sent0, sleeps0, log0, AttemptsFrom(url, maxRetries, backoff, headers, outcomes, k)) ==
            After(sent0 + [headers], sleeps0 + [Delay(backoff, k)], log0 + log,
                  AttemptsFrom(url, maxRetries, backoff, headers, outcomes, k + 1))
  {
    ContinueUnfolds(url, maxRetries, backoff, headers, outcomes, k, log);
    AfterAfter(sent0, sleeps0, log0, [headers], [Delay(backoff, k)], log,
               AttemptsFrom(url, maxRetries, backoff, headers, outcomes, k + 1));
  }

  /** An attempt that ends the loop. */
  lemma ReturnUnfolds(url: string, maxRetries: int, backoff: real, headers: Headers,
                      outcomes: seq<Attempt>, k: nat, run: RequestRun)
    requires maxRetries <= |outcomes| && k < maxRetries
    requires AttemptStep(url, headers, outcomes[k], k == maxRetries - 1) == Return(run)
    ensures AttemptsFrom(url, maxRetries, backoff, headers, outcomes, k) == run
  {
  }

  /** The whole of `make_request` on the given transport. */
  function Request(cfg: Config, url: string, maxRetries: int, backoff: real, base: Headers,
                   outcomes: seq<Attempt>): (run: RequestRun)
    requires maxRetries <= |outcomes|
    ensures |run.sent| <= (if maxRetries < 0 then 0 else maxRetries)
    ensures |run.sleeps| == (if run.sent == [] then 0 else |run.sent| - 1)
    ensures maxRetries <= 0 ==> run.result == None && run.sent == [] && run.sleeps == []
    ensures url != "" && maxRetries > 0 ==> |run.sent| >= 1
    ensures forall i :: 0 <= i < |run.sent| ==> run.sent[i] == ApiHeaders(cfg, url, base)
    ensures url != "" ==> (Error(AllRetriesFailed(url)) in run.log <==> maxRetries <= 0)
    ensures url == "" ==> run == RequestRun(None, [], [], [Warning(EmptyUrl)])
  {
    if url == "" then RequestRun(None, [], [], [Warning(EmptyUrl)])
    else
      var headers := ApiHeaders(cfg, url, base);
      if maxRetries > 0 then
        AttemptsSentAndSlept(url, maxRetries, backoff, headers, outcomes, 0);
        NoFinalErrorAfterAnAttempt(url, maxRetries, backoff, headers, outcomes, 0);
        AttemptsFrom(url, maxRetries, backoff, headers, outcomes, 0)
      else AttemptsFrom(url, maxRetries, backoff, headers, outcomes, 0)
  }

  /** `run` preceded by what earlier attempts produced. */
  function After(sent: seq<Headers>, sleeps: seq<real>, log: seq<LogEvent>, run: RequestRun): RequestRun {
    RequestRun(run.result, sent + run.sent, sleeps + run.sleeps, log + run.log)
  }

  /** Nothing before a run. */
  lemma AfterNothing(run: RequestRun)
    ensures After([], [], [], run) == run
  {
    assert [] + run.sent == run.sent && [] + run.sleeps == run.sleeps && [] + run.log == run.log;
  }

  /** Once the attempts run out, only the final error is logged. */
  lemma AttemptsEnd(url: string, maxRetries: int, backoff: real, headers: Headers, outcomes: seq<Attempt>, k: nat)
    requires maxRetries <= |outcomes| && k >= maxRetries
    ensures AttemptsFrom(url, maxRetries, backoff, headers, outcomes, k) == RequestRun(None, [], [], [Error(AllRetriesFailed(url))])
  {
  }

  /** Earlier attempts followed by later ones. */
  lemma AfterAfter(sent: seq<Headers>, sleeps: seq<real>, log: seq<LogEvent>,
                   sent': seq<Headers>, sleeps': seq<real>, log': seq<LogEvent>, run: RequestRun)
    ensures After(sent, sleeps, log, After(sent', sleeps', log', run)) ==
            After(sent + sent', sleeps + sleeps', log + log', run)
  {
    assert sent + (sent' + run.sent) == (sent + sent') + run.sent;
    assert sleeps + (sleeps' + run.sleeps) == (sleeps + sleeps') + run.sleeps;
    assert log + (log' + run.log) == (log + log') + run.log;
  }

  /** `make_request`: the empty-URL guard, the headers, then the retry loop. */
  method MakeRequest(cfg: Config, url: string, maxRetries: int, backoff: real, base: Headers,
                     outcomes: seq<Attempt>)
    returns (result: Option<Json>, sent: seq<Headers>, sleeps: seq<real>, log: seq<LogEvent>)
    requires maxRetries <= |outcomes|
    ensures RequestRun(result, sent, sleeps, log) == Request(cfg, url, maxRetries, backoff, base, outcomes)
  {
    if url == "" {
      return None, [], [], [Warning(EmptyUrl)];
    }
    var headers := GetHeaders(cfg, url, base);
    result, sent, sleeps, log := RetryLoop(url, maxRetries, backoff, headers, outcomes);
  }

  /** One pass of the loop body: the `try` block, then the `except` clause that catches its exception. */
  method RunAttempt(url: string, headers: Headers, a: Attempt, isLast: bool) returns (step: Step)
    ensures step == AttemptStep(url, headers, a, isLast)
  {
    var outcome := TryBlock(a);
    var tryLog := TryLog(a, url);
    if outcome.Returned? {
      return Return(RequestRun(Some(outcome.value), [headers], [], tryLog));
    }
    var handling := HandleAttemptError(outcome.error, url);
    if handling.GiveUp? {
      return Return(RequestRun(None, [headers], [], tryLog + [Error(handling.message)]));
    }
    var m := handling.message;
    var warning := if handling.onLoggerObject then LoggerObjectWarning(m) else Warning(m);
    assert warning == RetryWarning(handling);
    if isLast {
      return Return(RequestRun(None, [headers], [], tryLog + [warning, Error(m)]));
    }
    step := Continue(tryLog + [warning]);
  }

  /** The `for attempt in range(max_retries)` loop of `make_request`, with its early returns and the final error. */
  method RetryLoop(url: string, maxRetries: int, backoff: real, headers: Headers, outcomes: seq<Attempt>)
    returns (result: Option<Json>, sent: seq<Headers>, sleeps: seq<real>, log: seq<LogEvent>)
    requires maxRetries <= |outcomes|
    ensures RequestRun(result, sent, sleeps, log) == AttemptsFrom(url, maxRetries, backoff, headers, outcomes, 0)
  {
    ghost var whole := AttemptsFrom(url, maxRetries, backoff, headers, outcomes, 0);
    sent, sleeps, log := [], [], [];
    AfterNothing(whole);
    var attempt := 0;
    while attempt < maxRetries
      invariant attempt == 0 || attempt < maxRetries
      invariant whole == After(sent, sleeps, log, AttemptsFrom(url, maxRetries, backoff, headers, outcomes, attempt))
      decreases maxRetries - attempt
    {
      var step := RunAttempt(url, headers, outcomes[attempt], attempt == maxRetries - 1);
      if step.Return? {
        ReturnUnfolds(url, maxRetries, backoff, headers, outcomes, attempt, step.run);
        return step.run.result, sent + step.run.sent, sleeps + step.run.sleeps, log + step.run.log;
      }
      ContinueAfter(url, maxRetries, backoff, headers, outcomes, attempt, step.log, sent, sleeps, log);
      sent, sleeps, log := sent + [headers], sleeps + [Delay(backoff, attempt)], log + step.log;
      attempt := attempt + 1;
    }
    AttemptsEnd(url, maxRetries, backoff, headers, outcomes, attempt);
    log := log + [Error(AllRetriesFailed(url))];
    result := None;
  }

  // ---------------------------------------------------------------------
  // What the loop does

  /** The `n` sleeps after attempts `k, ..., k + n - 1`. */
  function Schedule(backoff: real, k: nat, n: nat): (sleeps: seq<real>)
    ensures |sleeps| == n
    ensures forall i :: 0 <= i < n ==> sleeps[i] == Delay(backoff, k + i)
    decreases n
  {
    if n == 0 then [] else [Delay(backoff, k)] + Schedule(backoff, k + 1, n - 1)
  }

  /** Every run that makes at least one attempt sends between one and `max_retries - k` requests, all with the same headers. */
  lemma {:induction false} AttemptsSent(url: string, maxRetries: int, backoff: real, headers: Headers,
                                        outcomes: seq<Attempt>, k: nat)
    requires maxRetries <= |outcomes| && k < maxRetries
    ensures var run := AttemptsFrom(url, maxRetries, backoff, headers, outcomes, k);
      1 <= |run.sent| <= maxRetries - k &&
      (forall i :: 0 <= i < |run.sent| ==> run.sent[i] == headers)
    decreases maxRetries - k
  {
    var step := AttemptStep(url, headers, outcomes[k], k == maxRetries - 1);
    var run := AttemptsFrom(url, maxRetries, backoff, headers, outcomes, k);
    if step.Continue? {
      var rest := AttemptsFrom(url, maxRetries, backoff, headers, outcomes, k + 1);
      AttemptsSent(url, maxRetries, backoff, headers, outcomes, k + 1);
      ContinueUnfolds(url, maxRetries, backoff, headers, outcomes, k, step.log);
      assert run == After([headers], [Delay(backoff, k)], step.log, rest);
      assert run.sent == [headers] + rest.sent;
    } else {
      ReturnUnfolds(url, maxRetries, backoff, headers, outcomes, k, step.run);
      assert run == step.run && run.sent == [headers];
    }
  }

  /** ... and sleeps after each attempt but the last, doubling each time. */
  lemma {:induction false} AttemptsSlept(url: string, maxRetries: int, backoff: real, headers: Headers,
                                         outcomes: seq<Attempt>, k: nat)
    requires maxRetries <= |outcomes| && k < maxRetries
    ensures var run := AttemptsFrom(url, maxRetries, backoff, headers, outcomes, k);
      |run.sent| >= 1 && run.sleeps == Schedule(backoff, k, |run.sent| - 1)
    decreases maxRetries - k
  {
    var step := AttemptStep(url, headers, outcomes[k], k == maxRetries - 1);
    var run := AttemptsFrom(url, maxRetries, backoff, headers, outcomes, k);
    if step.Continue? {
      var rest := AttemptsFrom(url, maxRetries, backoff, headers, outcomes, k + 1);
      AttemptsSlept(url, maxRetries, backoff, headers, outcomes, k + 1);
      ContinueUnfolds(url, maxRetries, backoff, headers, outcomes, k, step.log);
      assert run == After([headers], [Delay(backoff, k)], step.log, rest);
      assert run.sent == [headers] + rest.sent && run.sleeps == [Delay(backoff, k)] + rest.sleeps;
    } else {
      ReturnUnfolds(url, maxRetries, backoff, headers, outcomes, k, step.run);
      assert run == step.run && run.sent == [headers];
      assert run.sleeps == [];
    }
  }

  /** Both of the above. */
  lemma AttemptsSentAndSlept(url: string, maxRetries: int, backoff: real, headers: Headers,
                             outcomes: seq<Attempt>, k: nat)
    requires maxRetries <= |outcomes| && k < maxRetries
    ensures var run := AttemptsFrom(url, maxRetries, backoff, headers, outcomes, k);
      1 <= |run.sent| <= maxRetries - k &&
      (forall i :: 0 <= i < |run.sent| ==> run.sent[i] == headers) &&
      run.sleeps == Schedule(backoff, k, |run.sent| - 1)
  {
    AttemptsSent(url, maxRetries, backoff, headers, outcomes, k);
    AttemptsSlept(url, maxRetries, backoff, headers, outcomes, k);
  }

  /**
   * The attempt a run stops at: every attempt before it was retried, the
   * result is its body if it returned one, and if it was retried too it is
   * the last attempt allowed.
   */
  lemma {:induction false} AttemptsStop(url: string, maxRetries: int, backoff: real, headers: Headers,
                                        outcomes: seq<Attempt>, k: nat)
    requires maxRetries <= |outcomes| && k < maxRetries
    ensures var run := AttemptsFrom(url, maxRetries, backoff, headers, outcomes, k);
            var last := k + |run.sent| - 1;
      k <= last < maxRetries &&
      (forall i :: k <= i < last ==> Transient(outcomes[i])) &&
      (run.result.Some? <==> TryBlock(outcomes[last]).Returned?) &&
      (run.result.Some? ==> run.result.value == TryBlock(outcomes[last]).value) &&
      (Transient(outcomes[last]) ==> last == maxRetries - 1)
    decreases maxRetries - k
  {
    var step := AttemptStep(url, headers, outcomes[k], k == maxRetries - 1);
    var run := AttemptsFrom(url, maxRetries, backoff, headers, outcomes, k);
    if step.Continue? {
      var rest := AttemptsFrom(url, maxRetries, backoff, headers, outcomes, k + 1);
      AttemptsStop(url, maxRetries, backoff, headers, outcomes, k + 1);
      ContinueUnfolds(url, maxRetries, backoff, headers, outcomes, k, step.log);
      assert run == After([headers], [Delay(backoff, k)], step.log, rest);
      assert |run.sent| == 1 + |rest.sent| && run.result == rest.result;
    } else {
      ReturnUnfolds(url, maxRetries, backoff, headers, outcomes, k, step.run);
      assert run == step.run && run.sent == [headers];
    }
  }

  /**
   * `j` retried failures followed by a body give that body after `j + 1`
   * requests and the sleeps `backoff * 2^0, ..., backoff * 2^(j-1)`.
   */
  lemma SuccessAfterRetries(cfg: Config, url: string, maxRetries: int, backoff: real, base: Headers,
                            outcomes: seq<Attempt>, j: nat, body: Json)
    requires maxRetries <= |outcomes| && j < maxRetries && url != ""
    requires forall i :: 0 <= i < j ==> Transient(outcomes[i])
    requires TryBlock(outcomes[j]) == Returned(body)
    ensures var run := Request(cfg, url, maxRetries, backoff, base, outcomes);
      run.result == Some(body) && |run.sent| == j + 1 &&
      run.sleeps == Schedule(backoff, 0, j)
  {
    AttemptsSentAndSlept(url, maxRetries, backoff, ApiHeaders(cfg, url, base), outcomes, 0);
    AttemptsStop(url, maxRetries, backoff, ApiHeaders(cfg, url, base), outcomes, 0);
  }

  /**
   * When every attempt is retried (an endpoint answering 500, say), exactly
   * `max_retries` requests are made, with a sleep after each but the last,
   * and the result is None.
   */
  lemma AllAttemptsFail(cfg: Config, url: string, maxRetries: int, backoff: real, base: Headers,
                        outcomes: seq<Attempt>)
    requires maxRetries <= |outcomes| && 0 < maxRetries && url != ""
    requires forall i :: 0 <= i < maxRetries ==> Transient(outcomes[i])
    ensures var run := Request(cfg, url, maxRetries, backoff, base, outcomes);
      run.result == None && |run.sent| == maxRetries &&
      run.sleeps == Schedule(backoff, 0, maxRetries - 1)
  {
    AttemptsSentAndSlept(url, maxRetries, backoff, ApiHeaders(cfg, url, base), outcomes, 0);
    AttemptsStop(url, maxRetries, backoff, ApiHeaders(cfg, url, base), outcomes, 0);
  }

  /** A permanent failure on the first attempt ends the call there: one request, no sleep, None. */
  lemma PermanentFailureNotRetried(cfg: Config, url: string, maxRetries: int, backoff: real, base: Headers,
                                   outcomes: seq<Attempt>)
    requires maxRetries <= |outcomes| && 0 < maxRetries && url != ""
    requires TryBlock(outcomes[0]).Raised? && !Transient(outcomes[0])
    ensures var run := Request(cfg, url, maxRetries, backoff, base, outcomes);
      run.result == None && |run.sent| == 1 && run.sleeps == []
  {
    AttemptsSentAndSlept(url, maxRetries, backoff, ApiHeaders(cfg, url, base), outcomes, 0);
    AttemptsStop(url, maxRetries, backoff, ApiHeaders(cfg, url, base), outcomes, 0);
  }

  /** A 2xx response whose body is not JSON is such a permanent failure. */
  lemma MalformedJsonIsPermanent(r: ResponseInfo, repr: string)
    requires IsSuccess(r.status) && r.json == Malformed(repr)
    ensures TryBlock(Received(r)) == Raised(ValueError(repr)) && !Transient(Received(r))
  {
    InstanceFacts(ValueError(repr));
  }

  /** A non-2xx response is retried. */
  lemma StatusErrorIsTransient(r: ResponseInfo)
    requires !IsSuccess(r.status)
    ensures Transient(Received(r))
  {
    InstanceFacts(HTTPStatusError(r, ""));
  }

  lemma {:induction false} NoFinalErrorAfterAnAttempt(url: string, maxRetries: int, backoff: real, headers: Headers,
                                                      outcomes: seq<Attempt>, k: nat)
    requires maxRetries <= |outcomes| && k < maxRetries
    ensures Error(AllRetriesFailed(url)) !in AttemptsFrom(url, maxRetries, backoff, headers, outcomes, k).log
    decreases maxRetries - k
  {
    var a := outcomes[k];
    if Transient(a) && k < maxRetries - 1 {
      NoFinalErrorAfterAnAttempt(url, maxRetries, backoff, headers, outcomes, k + 1);
    }
  }

  /** With the defaults, two status errors in a row give two requests, one sleep of one second, and None. */
  lemma DefaultsOnServerErrors(cfg: Config, url: string, r: ResponseInfo)
    requires url != "" && r.status == 500
    ensures var run := Request(cfg, url, MaxRetries, BackoffFactor, map[], [Received(r), Received(r)]);
      run.result == None && |run.sent| == 2 && run.sleeps == [1.0]
  {
    StatusErrorIsTransient(r);
    AllAttemptsFail(cfg, url, MaxRetries, BackoffFactor, map[], [Received(r), Received(r)]);
    assert Delay(BackoffFactor, 0) == 1.0;
  }
}
