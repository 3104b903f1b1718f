/**
 * The control logic of the Python client class `AwsIatk`: the
 * `retry_until` decorator and its retry loop, the fold of user context
 * functions over a generated event, the retry of trace-tree fetches
 * while the trace is not yet found, and the polling loop of
 * `wait_until_event_matched`.
 *
 * Time is milliseconds. The clock is an input: each loop check reads the
 * next entry of a sequence. What the wrapped function and the assertion
 * do at each attempt is an input too. When the inputs run out before the
 * loop ends, the result is `OutOfInput`.
 */
module IatkClient {
  import opened Wrappers
  import opened Json
  import Text
  import PyPollEvents

  /** The exceptions the modelled code raises or lets through. */
  datatype PyError =
    | TypeError(message: string)
    | ValueError(message: string)
    | IatkException(message: string, code: int)
    | RetryableException(message: string)
    | InvalidParamException(message: string)
    | OtherError(message: string)

  /** The `timeout` argument: an int or float (in milliseconds here), or anything else. */
  datatype TimeoutArg = Number(ms: int) | NotNumber

  /**
   * The checks `retry_until` makes when the decorator is built, before
   * any call: the timeout's type, its sign, then the assertion.
   */
  function ValidateRetryArgs(timeout: TimeoutArg, assertionCallable: bool): (r: Outcome<PyError>)
    ensures r == Pass <==> timeout.Number? && timeout.ms >= 0 && assertionCallable
    ensures timeout.NotNumber? ==> r == Fail(TypeError("timeout must be an int or float"))
    ensures timeout.Number? && timeout.ms < 0 ==> r == Fail(ValueError("timeout must not be a negative value"))
    ensures timeout.Number? && timeout.ms >= 0 && !assertionCallable ==>
      r == Fail(TypeError("condition is not a callable function"))
  {
    if timeout.NotNumber? then Fail(TypeError("timeout must be an int or float"))
    else if timeout.ms < 0 then Fail(ValueError("timeout must not be a negative value"))
    else if !assertionCallable then Fail(TypeError("condition is not a callable function"))
    else Pass
  }

  /** What one attempt of the wrapped call and its assertion does. */
  datatype Attempt =
    | RetryableRaised              // the call raised one of the retryable exceptions
    | CallRaised(error: PyError)   // the call raised anything else
    | AssertionPassed              // the assertion returned
    | AssertionFailed              // the assertion raised AssertionError
    | AssertionRaised(error: PyError)

  /** One pass of the loop: the elapsed time read by the loop check, and the attempt run after it. */
  datatype Tick = Tick(elapsed: int, attempt: Attempt)

  datatype RetryResult = Returned(value: bool) | Raised(error: PyError) | OutOfInput

  /** A run of the retry loop: its result and the sleeps (ms) it made, in order. */
  datatype Run = Run(result: RetryResult, sleeps: seq<nat>)

  function Pow2(n: nat): (r: nat)
    ensures r >= 1
  {
    if n == 0 then 1 else 2 * Pow2(n - 1)
  }

  /** The sleep after the n-th failed assertion: 0.05 * 2^n seconds. */
  function Backoff(n: nat): nat
  {
    50 * Pow2(n)
  }

  /** A zero timeout replaces the elapsed time by -1, so the check never expires. */
  predicate InTime(timeout: int, elapsed: int)
  {
    (if timeout == 0 then -1 else elapsed) < timeout
  }

  /** The retry loop as a value, from attempt number `attempt` on. */
  function Retry(timeout: int, ticks: seq<Tick>, attempt: nat): Run
    decreases |ticks|
  {
    if ticks == [] then Run(OutOfInput, [])
    else if !InTime(timeout, ticks[0].elapsed) then Run(Returned(false), [])
    else
      match ticks[0].attempt
      case RetryableRaised => Retry(timeout, ticks[1..], attempt)
      case CallRaised(e) => Run(Raised(e), [])
      case AssertionPassed => Run(Returned(true), [])
      case AssertionRaised(e) => Run(Raised(e), [])
      case AssertionFailed =>
        var rest := Retry(timeout, ticks[1..], attempt + 1);
        Run(rest.result, [Backoff(attempt)] + rest.sleeps)
  }

  /** `_wrapper`: loops while time remains, retrying on retryable exceptions and failed assertions. */
  method RetryWrapper(timeout: int, ticks: seq<Tick>) returns (run: Run)
    ensures run == Retry(timeout, ticks, 1)
  {
    var attempt := 1;
    var sleeps := [];
    var i := 0;
    while i < |ticks| && InTime(timeout, ticks[i].elapsed)
      invariant i <= |ticks|
      invariant Retry(timeout, ticks, 1) == Run(Retry(timeout, ticks[i..], attempt).result, sleeps + Retry(timeout, ticks[i..], attempt).sleeps)
      decreases |ticks| - i
    {
      assert ticks[i..][1..] == ticks[i + 1..];
      match ticks[i].attempt {
        case RetryableRaised =>
          i := i + 1;
          continue;
        case CallRaised(e) =>
          return Run(Raised(e), sleeps);
        case AssertionPassed =>
          return Run(Returned(true), sleeps);
        case AssertionRaised(e) =>
          return Run(Raised(e), sleeps);
        case AssertionFailed =>
      }
      sleeps := sleeps + [Backoff(attempt)];
      attempt := attempt + 1;
      i := i + 1;
    }
    if i == |ticks| {
      return Run(OutOfInput, sleeps);
    }
    return Run(Returned(false), sleeps);
  }

  /** An attempt after which the loop goes round again. */
  predicate Continues(a: Attempt)
  {
    a.RetryableRaised? || a.AssertionFailed?
  }

  /** The result decided at a tick that ends the loop. */
  function Decision(timeout: int, t: Tick): RetryResult
  {
    if !InTime(timeout, t.elapsed) then Returned(false)
    else
      match t.attempt
      case CallRaised(e) => Raised(e)
      case AssertionRaised(e) => Raised(e)
      case AssertionPassed => Returned(true)
      case _ => OutOfInput
  }

  /** The number of failed assertions among `ticks`. */
  function FailedAssertions(ticks: seq<Tick>): nat
  {
    if ticks == [] then 0
    else (if ticks[0].attempt.AssertionFailed? then 1 else 0) + FailedAssertions(ticks[1..])
  }

  /**
   * The first tick that does not go round again decides the result; the
   * loop has then slept once per failed assertion before it, the n-th
   * sleep being `Backoff(attempt + n)`. Without such a tick the inputs
   * ran out.
   */
  lemma {:induction false} RetryDecidedAtFirstStop(timeout: int, ticks: seq<Tick>, attempt: nat, k: nat)
    requires k < |ticks|
    requires !(InTime(timeout, ticks[k].elapsed) && Continues(ticks[k].attempt))
    requires forall j :: 0 <= j < k ==> InTime(timeout, ticks[j].elapsed) && Continues(ticks[j].attempt)
    ensures Retry(timeout, ticks, attempt).result == Decision(timeout, ticks[k])
    ensures |Retry(timeout, ticks, attempt).sleeps| == FailedAssertions(ticks[..k])
    ensures forall n :: 0 <= n < |Retry(timeout, ticks, attempt).sleeps| ==>
      Retry(timeout, ticks, attempt).sleeps[n] == Backoff(attempt + n)
    decreases k
  {
    if k > 0 {
      var next := if ticks[0].attempt.AssertionFailed? then attempt + 1 else attempt;
      forall j | 0 <= j < k - 1 ensures InTime(timeout, ticks[1..][j].elapsed) && Continues(ticks[1..][j].attempt) {
        assert ticks[1..][j] == ticks[j + 1];
      }
      RetryDecidedAtFirstStop(timeout, ticks[1..], next, k - 1);
      assert ticks[..k][1..] == ticks[1..][..k - 1];
    }
  }

  /** If every tick goes round again, the inputs run out. */
  lemma {:induction false} RetryNeverStops(timeout: int, ticks: seq<Tick>, attempt: nat)
    requires forall j :: 0 <= j < |ticks| ==> InTime(timeout, ticks[j].elapsed) && Continues(ticks[j].attempt)
    ensures Retry(timeout, ticks, attempt).result == OutOfInput
    decreases |ticks|
  {
    if ticks != [] {
      forall j | 0 <= j < |ticks| - 1 ensures InTime(timeout, ticks[1..][j].elapsed) && Continues(ticks[1..][j].attempt) {
        assert ticks[1..][j] == ticks[j + 1];
      }
      RetryNeverStops(timeout, ticks[1..], if ticks[0].attempt.AssertionFailed? then attempt + 1 else attempt);
    }
  }

  /** With a zero timeout the loop never gives up: it returns False on no input. */
  lemma {:induction false} ZeroTimeoutNeverFalse(ticks: seq<Tick>, attempt: nat)
    ensures Retry(0, ticks, attempt).result != Returned(false)
    decreases |ticks|
  {
    if ticks != [] {
      ZeroTimeoutNeverFalse(ticks[1..], attempt + 1);
      ZeroTimeoutNeverFalse(ticks[1..], attempt);
    }
  }

  /** The back-off delays strictly increase. */
  lemma {:induction false} BackoffIncreases(m: nat, n: nat)
    requires m < n
    ensures Backoff(m) < Backoff(n)
    decreases n
  {
    if m < n - 1 {
      BackoffIncreases(m, n - 1);
    }
  }

  /**
   * What a user context function gives back: a JSON value, a value
   * `json.dumps` refuses, or an exception it raised.
   */
  datatype PyValue = Plain(v: Json) | NotSerializable | ContextRaised(error: PyError)

  /** A user context function, named, applied to the event so far. */
  datatype ContextFn = ContextFn(name: string, apply: PyValue -> PyValue)

  function NotSerializableMessage(name: string): string
  {
    "context applier " + name + " returns a non-JSON-serializable result"
  }

  const EmptyEventMessage := "event is empty, make sure function returns a valid event"

  /**
   * The left fold of the context functions, stopping at the first one that
   * raises (its exception propagates unchanged) or returns a
   * non-serialisable result.
   */
  function Fold(event: PyValue, contexts: seq<ContextFn>): Result<PyValue, PyError>
    decreases |contexts|
  {
    if contexts == [] then Ok(event)
    else
      var next := contexts[0].apply(event);
      if next.ContextRaised? then Err(next.error)
      else if next.NotSerializable? then Err(IatkException(NotSerializableMessage(contexts[0].name), 400))
      else Fold(next, contexts[1..])
  }

  /** Folding over two lists in a row is folding over the first and then over the second. */
  lemma {:induction false} FoldAppend(event: PyValue, a: seq<ContextFn>, b: seq<ContextFn>)
    ensures Fold(event, a + b) == match Fold(event, a) { case Err(e) => Err(e) case Ok(v) => Fold(v, b) }
    decreases |a|
  {
    if a != [] {
      assert a + b != [] && (a + b)[0] == a[0];
      assert (a + b)[1..] == a[1..] + b;
      var next := a[0].apply(event);
      if next.Plain? {
        FoldAppend(next, a[1..], b);
        assert Fold(event, a + b) == Fold(next, a[1..] + b);
        assert Fold(event, a) == Fold(next, a[1..]);
      }
    } else {
      assert a + b == b;
    }
  }

  /**
   * A fold fails only with an exception some context function raised, or
   * by naming a context function whose result was not serialisable.
   */
  lemma {:induction false} FoldFailureNamesContext(event: PyValue, contexts: seq<ContextFn>)
    requires Fold(event, contexts).Err?
    ensures exists i ::
      0 <= i < |contexts| &&
      (Fold(event, contexts).error == IatkException(NotSerializableMessage(contexts[i].name), 400) ||
       exists v :: contexts[i].apply(v) == ContextRaised(Fold(event, contexts).error))
    decreases |contexts|
  {
    var next := contexts[0].apply(event);
    if next.Plain? {
      FoldFailureNamesContext(next, contexts[1..]);
      var e := Fold(event, contexts).error;
      var i :| 0 <= i < |contexts[1..]| &&
        (e == IatkException(NotSerializableMessage(contexts[1..][i].name), 400) ||
         exists v :: contexts[1..][i].apply(v) == ContextRaised(e));
      assert contexts[1..][i] == contexts[i + 1];
    }
  }

  /** `_apply_contexts` as a value: the fold, then a final None is refused. */
  function ApplyContextsSpec(event: PyValue, contexts: seq<ContextFn>): Result<PyValue, PyError>
  {
    match Fold(event, contexts)
    case Err(e) => Err(e)
    case Ok(v) => if v == Plain(JNull) then Err(IatkException(EmptyEventMessage, 404)) else Ok(v)
  }

  /** `_apply_contexts`: rebinds the event through each context function in turn. */
  method ApplyContexts(event: PyValue, contexts: seq<ContextFn>) returns (r: Result<PyValue, PyError>)
    ensures r == ApplyContextsSpec(event, contexts)
    ensures contexts == [] && event != Plain(JNull) ==> r == Ok(event)
    ensures r.Ok? ==> r.value != Plain(JNull)
    ensures |contexts| > 0 && contexts[0].apply(event).ContextRaised? ==> r == Err(contexts[0].apply(event).error)
  {
    var generated := event;
    for i := 0 to |contexts|
      invariant Fold(event, contexts) == Fold(generated, contexts[i..])
      invariant i > 0 ==> generated.Plain?
    {
      assert contexts[i..][1..] == contexts[i + 1..];
      generated := contexts[i].apply(generated);
      if generated.ContextRaised? {
        return Err(generated.error);
      }
      if generated.NotSerializable? {
        return Err(IatkException(NotSerializableMessage(contexts[i].name), 400));
      }
    }
    assert contexts[|contexts|..] == [];
    if generated == Plain(JNull) {
      return Err(IatkException(EmptyEventMessage, 404));
    }
    return Ok(generated);
  }

  /**
   * `fetch_trace_tree`'s handler: an IatkException whose text mentions
   * "trace not found" becomes retryable, any other becomes code 500; other
   * exceptions pass.
   */
  function ClassifyTraceTreeError(e: PyError): (r: PyError)
    ensures r.RetryableException? <==> (e.IatkException? && Text.Contains(e.message, "trace not found")) || e.RetryableException?
    ensures e.IatkException? && !Text.Contains(e.message, "trace not found") ==> r == IatkException(e.message, 500)
    ensures !e.IatkException? ==> r == e
  {
    if e.IatkException? then
      if Text.Contains(e.message, "trace not found") then RetryableException(e.message) else IatkException(e.message, 500)
    else e
  }

  /** One trace-tree fetch: the RPC's answer, and what the assertion does with the tree. */
  datatype FetchTick = FetchTick(elapsed: int, fetched: Result<Json, PyError>, check: Attempt)

  /** The attempt one fetch amounts to inside the retry loop. */
  function FetchAttempt(t: FetchTick): Attempt
  {
    match t.fetched
    case Err(e) =>
      var c := ClassifyTraceTreeError(e);
      if c.RetryableException? then RetryableRaised else CallRaised(c)
    case Ok(_) => t.check
  }

  function FetchTicks(ticks: seq<FetchTick>): (r: seq<Tick>)
    ensures |r| == |ticks|
    ensures forall i :: 0 <= i < |ticks| ==> r[i] == Tick(ticks[i].elapsed, FetchAttempt(ticks[i]))
  {
    if ticks == [] then [] else [Tick(ticks[0].elapsed, FetchAttempt(ticks[0]))] + FetchTicks(ticks[1..])
  }

  /** `retry_get_trace_tree_until`: the retry loop over fetches, IatkExceptions re-raised with code 500. */
  method RetryGetTraceTreeUntil(timeout: int, ticks: seq<FetchTick>) returns (r: RetryResult)
    ensures var run := Retry(timeout, FetchTicks(ticks), 1).result;
      r == if run.Raised? && run.error.IatkException? then Raised(IatkException(run.error.message, 500)) else run
    ensures r.Raised? && r.error.IatkException? ==> r.error.code == 500
  {
    var run := RetryWrapper(timeout, FetchTicks(ticks));
    r := run.result;
    if r.Raised? && r.error.IatkException? {
      r := Raised(IatkException(r.error.message, 500));
    }
  }

  /**
   * While every fetch fails with "trace not found" and every assertion
   * fails, the loop never raises: it retries until the time is up.
   */
  lemma TraceNotFoundIsRetried(timeout: int, ticks: seq<FetchTick>)
    requires forall i :: 0 <= i < |ticks| ==>
      (ticks[i].fetched.Err? && ticks[i].fetched.error.IatkException? && Text.Contains(ticks[i].fetched.error.message, "trace not found")) ||
      (ticks[i].fetched.Ok? && ticks[i].check.AssertionFailed?)
    ensures !Retry(timeout, FetchTicks(ticks), 1).result.Raised?
  {
    var ts := FetchTicks(ticks);
    if k :| 0 <= k < |ts| && !(InTime(timeout, ts[k].elapsed) && Continues(ts[k].attempt)) {
      var first := FirstStop(timeout, ts, k);
      RetryDecidedAtFirstStop(timeout, ts, 1, first);
    } else {
      RetryNeverStops(timeout, ts, 1);
    }
  }

  /** The first tick at or before `k` that ends the loop. */
  lemma FirstStop(timeout: int, ts: seq<Tick>, k: nat) returns (first: nat)
    requires k < |ts| && !(InTime(timeout, ts[k].elapsed) && Continues(ts[k].attempt))
    ensures first <= k && !(InTime(timeout, ts[first].elapsed) && Continues(ts[first].attempt))
    ensures forall j :: 0 <= j < first ==> InTime(timeout, ts[j].elapsed) && Continues(ts[j].attempt)
  {
    first := 0;
    while InTime(timeout, ts[first].elapsed) && Continues(ts[first].attempt)
      invariant first <= k
      invariant forall j :: 0 <= j < first ==> InTime(timeout, ts[j].elapsed) && Continues(ts[j].attempt)
      decreases k - first
    {
      first := first + 1;
    }
  }

  /** What the assertion does with one polled event. */
  datatype Check = Matches | Mismatch | CheckRaised(error: PyError)

  /** One poll of `wait_until_event_matched`: the elapsed time before it, and the events or the poll's error. */
  datatype PollTick = PollTick(elapsed: int, polled: Result<seq<Check>, PyError>)

  /** The inner loop: the first event the assertion does not reject decides. */
  function FirstDecisive(events: seq<Check>): Option<Check>
  {
    if events == [] then None
    else if events[0].Mismatch? then FirstDecisive(events[1..])
    else Some(events[0])
  }

  /** The polling loop as a value. */
  function Wait(timeout: int, polls: seq<PollTick>): RetryResult
    decreases |polls|
  {
    if polls == [] then OutOfInput
    else if !(polls[0].elapsed < timeout) then Returned(false)
    else
      match polls[0].polled
      case Err(e) => Raised(e)
      case Ok(events) =>
        match FirstDecisive(events)
        case None => Wait(timeout, polls[1..])
        case Some(Matches) => Returned(true)
        case Some(CheckRaised(e)) => Raised(e)
        case Some(Mismatch) => Wait(timeout, polls[1..])
  }

  /** The inner loop over the events of one poll. */
  method CheckEvents(events: seq<Check>) returns (d: Option<Check>)
    ensures d == FirstDecisive(events)
    ensures d.Some? ==> !d.value.Mismatch? && d.value in events
    ensures d.None? ==> forall i :: 0 <= i < |events| ==> events[i].Mismatch?
  {
    var i := 0;
    while i < |events|
      invariant i <= |events|
      invariant FirstDecisive(events) == FirstDecisive(events[i..])
      invariant forall j :: 0 <= j < i ==> events[j].Mismatch?
    {
      assert events[i..][1..] == events[i + 1..];
      if !events[i].Mismatch? {
        return Some(events[i]);
      }
      i := i + 1;
    }
    return None;
  }

  /**
   * `wait_until_event_matched`: the parameters are checked first; then
   * each poll's events are tried in order until one passes, until time
   * runs out.
   */
  method WaitUntilEventMatched(listenerId: string, timeoutSeconds: int, polls: seq<PollTick>) returns (r: RetryResult)
    ensures PyPollEvents.ValidateWaitTimeout(timeoutSeconds).Some? ==>
      r == Raised(InvalidParamException(PyPollEvents.ValidateWaitTimeout(timeoutSeconds).value))
    ensures PyPollEvents.ValidateWaitTimeout(timeoutSeconds).None? ==> r == Wait(timeoutSeconds * 1000, polls)
  {
    var invalid := PyPollEvents.ValidateWaitTimeout(timeoutSeconds);
    if invalid.Some? {
      return Raised(InvalidParamException(invalid.value));
    }
    var timeout := timeoutSeconds * 1000;
    var i := 0;
    while i < |polls| && polls[i].elapsed < timeout
      invariant i <= |polls|
      invariant Wait(timeout, polls) == Wait(timeout, polls[i..])
      decreases |polls| - i
    {
      assert polls[i..][1..] == polls[i + 1..];
      if polls[i].polled.Err? {
        return Raised(polls[i].polled.error);
      }
      var d := CheckEvents(polls[i].polled.value);
      if d == Some(Matches) {
        return Returned(true);
      }
      if d.Some? && d.value.CheckRaised? {
        return Raised(d.value.error);
      }
      i := i + 1;
    }
    if i == |polls| {
      return OutOfInput;
    }
    return Returned(false);
  }

  /** `wait_until_event_matched` returns True only if some polled event passed the assertion in time. */
  lemma {:induction false} WaitTrueOnlyOnMatch(timeout: int, polls: seq<PollTick>)
    requires Wait(timeout, polls) == Returned(true)
    ensures exists i, j :: 0 <= i < |polls| && polls[i].elapsed < timeout && polls[i].polled.Ok? &&
                           0 <= j < |polls[i].polled.value| && polls[i].polled.value[j] == Matches
    decreases |polls|
  {
    var events := polls[0].polled.value;
    if FirstDecisive(events) == Some(Matches) {
      var j := DecisiveIndex(events);
    } else {
      WaitTrueOnlyOnMatch(timeout, polls[1..]);
      var i, j :| 0 <= i < |polls[1..]| && polls[1..][i].elapsed < timeout && polls[1..][i].polled.Ok? &&
        0 <= j < |polls[1..][i].polled.value| && polls[1..][i].polled.value[j] == Matches;
      assert polls[1..][i] == polls[i + 1];
    }
  }

  /** Where the decisive event sits. */
  lemma {:induction false} DecisiveIndex(events: seq<Check>) returns (j: nat)
    requires FirstDecisive(events).Some?
    ensures j < |events| && events[j] == FirstDecisive(events).value
    ensures forall i :: 0 <= i < j ==> events[i].Mismatch?
    decreases |events|
  {
    if events[0].Mismatch? {
      var k := DecisiveIndex(events[1..]);
      j := k + 1;
      forall i | 0 <= i < j ensures events[i].Mismatch? {
        if i > 0 {
          assert events[i] == events[1..][i - 1];
        }
      }
    } else {
      j := 0;
    }
  }
}
