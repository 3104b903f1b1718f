/**
 * The `zion` Python client's parameters for retrying an X-Ray trace fetch
 * (`RetryFetchXRayTraceUntilParams` in `zion/retry_xray_trace.py`): the
 * trace header must be a string and the timeout lie in 0..999 seconds.
 *
 * The trace header is any Python value, here a decoded JSON value; a
 * raised `InvalidParamException` is an `Err` with its message.
 */
module PyRetryXray {
  import opened Wrappers
  import opened Json
  import PyPollEvents

  const HeaderNotString := "trace header must be in a form of a string"
  const TimeoutRange := "timeout must be between 0 and 999"
  const DefaultTimeoutSeconds := 30

  datatype RetryFetchXRayTraceUntilParams = RetryFetchXRayTraceUntilParams(
    traceHeader: string, condition: string -> bool, timeoutSeconds: int)

  /**
   * `RetryFetchXRayTraceUntilParams.__init__`: the header's type is checked
   * first, then the timeout; accepted values are stored unchanged.
   */
  function NewRetryParams(traceHeader: Json, condition: string -> bool, timeoutSeconds: int)
    : (r: Result<RetryFetchXRayTraceUntilParams, string>)
    ensures !traceHeader.JStr? ==> r == Err(HeaderNotString)
    ensures traceHeader.JStr? ==> (r.Ok? <==> 0 <= timeoutSeconds <= 999)
    ensures traceHeader.JStr? && r.Err? ==> r.error == TimeoutRange
    ensures r.Ok? ==> r.value == RetryFetchXRayTraceUntilParams(traceHeader.s, condition, timeoutSeconds)
  {
    if !traceHeader.JStr? then Err(HeaderNotString)
    else if timeoutSeconds < 0 || timeoutSeconds > 999 then Err(TimeoutRange)
    else Ok(RetryFetchXRayTraceUntilParams(traceHeader.s, condition, timeoutSeconds))
  }

  /** The constructor called without a timeout. */
  function NewRetryParamsDefault(traceHeader: Json, condition: string -> bool)
    : (r: Result<RetryFetchXRayTraceUntilParams, string>)
    ensures r.Ok? <==> traceHeader.JStr?
    ensures r.Ok? ==> r.value.timeoutSeconds == 30
  {
    NewRetryParams(traceHeader, condition, DefaultTimeoutSeconds)
  }

  /**
   * A timeout this class accepts is one the event-matching parameters
   * accept, or 0, which only this class allows.
   */
  lemma TimeoutRangesDiffer(traceHeader: string, condition: string -> bool, timeoutSeconds: int, listenerId: string)
    ensures NewRetryParams(JStr(traceHeader), condition, timeoutSeconds).Ok? <==>
      PyPollEvents.NewWaitUntilEventMatchedParams(listenerId, timeoutSeconds).Ok? || timeoutSeconds == 0
    ensures NewRetryParams(JStr(traceHeader), condition, 0).Ok? &&
      PyPollEvents.NewWaitUntilEventMatchedParams(listenerId, 0).Err?
  {
  }
}
