/**
 * The Python client's poll-events parameter classes. The `aws_iatk` and
 * `aws_ctk` packages hold identical copies (`PollEventsOutput`,
 * `PollEventsParams.to_dict`, `WaitUntilEventMatchedParams`); the older
 * `zion` package builds the whole JSON-RPC request itself
 * (`jsonrpc_dumps`).
 */
module PyPollEvents {
  import opened Wrappers
  import opened Json

  const PollEventsMethod := "test_harness.eventbridge.poll_events"
  const TimeoutRangeMessage := "timeout_seconds must be between 1 and 999"

  /** `PollEventsParams`; a `None` field is an absent value. */
  datatype PollEventsParams = PollEventsParams(listenerId: string, waitTimeSeconds: Option<int>,
                                               maxNumberOfMessages: Option<int>)

  /** `PollEventsParams.to_dict`: the listener id always, each optional field when it is not None. */
  function ToDict(p: PollEventsParams): (d: map<string, Json>)
    ensures "ListenerId" in d && d["ListenerId"] == JStr(p.listenerId)
    ensures "WaitTimeSeconds" in d <==> p.waitTimeSeconds.Some?
    ensures "MaxNumberOfMessages" in d <==> p.maxNumberOfMessages.Some?
    ensures d.Keys <= {"ListenerId", "WaitTimeSeconds", "MaxNumberOfMessages"}
  {
    var d := map["ListenerId" := JStr(p.listenerId)];
    var d := if p.waitTimeSeconds.Some? then d["WaitTimeSeconds" := JNum(p.waitTimeSeconds.value)] else d;
    if p.maxNumberOfMessages.Some? then d["MaxNumberOfMessages" := JNum(p.maxNumberOfMessages.value)] else d
  }

  /** Reading an optional number back from a request dict. */
  function OptionalNumber(d: map<string, Json>, key: string): Option<int>
  {
    if key in d && d[key].JNum? then Some(d[key].n) else None
  }

  /** How the RPC side reads the request parameters back. */
  function FromDict(d: map<string, Json>): Option<PollEventsParams>
  {
    if "ListenerId" in d && d["ListenerId"].JStr? then
      Some(PollEventsParams(d["ListenerId"].s, OptionalNumber(d, "WaitTimeSeconds"), OptionalNumber(d, "MaxNumberOfMessages")))
    else None
  }

  /** Reading back what `to_dict` writes gives the parameters again: a zero is kept, a None stays absent. */
  lemma ToDictRoundTrip(p: PollEventsParams)
    ensures FromDict(ToDict(p)) == Some(p)
  {
    var d := ToDict(p);
    assert "ListenerId" in d && d["ListenerId"] == JStr(p.listenerId);
    if p.waitTimeSeconds.Some? {
      assert d["WaitTimeSeconds"] == JNum(p.waitTimeSeconds.value);
    }
    if p.maxNumberOfMessages.Some? {
      assert d["MaxNumberOfMessages"] == JNum(p.maxNumberOfMessages.value);
    }
  }

  /** The `WaitUntilEventMatchedParams` range check: the error message, if the timeout is refused. */
  function ValidateWaitTimeout(timeoutSeconds: int): (r: Option<string>)
    ensures r.None? <==> 1 <= timeoutSeconds <= 999
    ensures r.Some? ==> r.value == TimeoutRangeMessage
  {
    if timeoutSeconds <= 0 || timeoutSeconds > 999 then Some(TimeoutRangeMessage) else None
  }

  datatype WaitUntilEventMatchedParams = WaitUntilEventMatchedParams(timeoutSeconds: int, pollParams: PollEventsParams)

  /**
   * `WaitUntilEventMatchedParams.__init__`: refuses a timeout outside
   * 1..999 with InvalidParamException, and otherwise polls the listener
   * with a 3-second wait for up to 10 messages.
   */
  function NewWaitUntilEventMatchedParams(listenerId: string, timeoutSeconds: int): (r: Result<WaitUntilEventMatchedParams, string>)
    ensures r.Ok? <==> 1 <= timeoutSeconds <= 999
    ensures r.Err? ==> r.error == TimeoutRangeMessage
    ensures r.Ok? ==> r.value.timeoutSeconds == timeoutSeconds
    ensures r.Ok? ==>
      ToDict(r.value.pollParams) == map["ListenerId" := JStr(listenerId), "WaitTimeSeconds" := JNum(3), "MaxNumberOfMessages" := JNum(10)]
  {
    match ValidateWaitTimeout(timeoutSeconds)
    case Some(m) => Err(m)
    case None => Ok(WaitUntilEventMatchedParams(timeoutSeconds, PollEventsParams(listenerId, Some(3), Some(10))))
  }

  /**
   * `PollEventsOutput.__init__`: the `output` list under `result`, or []
   * when either is absent; a `result` that is not a dict has no `.get`
   * (an AttributeError in Python).
   */
  function PollEventsOutput(data: map<string, Json>): (r: Result<Json, string>)
    ensures "result" !in data ==> r == Ok(JArr([]))
    ensures "result" in data && data["result"].JObj? && "output" !in data["result"].fields ==> r == Ok(JArr([]))
    ensures "result" in data && data["result"].JObj? && "output" in data["result"].fields ==>
      r == Ok(data["result"].fields["output"])
    ensures r.Err? <==> "result" in data && !data["result"].JObj?
  {
    match GetOr(data, "result", JObj(map[]))
    case JObj(result) => Ok(GetOr(result, "output", JArr([])))
    case _ => Err("AttributeError")
  }

  /** Python truthiness of an optional string argument: None and "" are falsy. */
  predicate TruthyText(s: Option<string>)
  {
    s.Some? && s.value != ""
  }

  /** The request parameters with Region and Profile added when truthy. */
  function WithRegionProfile(params: map<string, Json>, region: Option<string>, profile: Option<string>): (d: map<string, Json>)
    ensures forall k :: k in params && k != "Region" && k != "Profile" ==> k in d && d[k] == params[k]
    ensures TruthyText(region) ==> "Region" in d && d["Region"] == JStr(region.value)
    ensures TruthyText(profile) ==> "Profile" in d && d["Profile"] == JStr(profile.value)
    ensures d.Keys == params.Keys + (if TruthyText(region) then {"Region"} else {}) + (if TruthyText(profile) then {"Profile"} else {})
  {
    var d := if TruthyText(region) then params["Region" := JStr(region.value)] else params;
    if TruthyText(profile) then d["Profile" := JStr(profile.value)] else d
  }

  /**
   * `zion`'s `PollEventsParams.jsonrpc_dumps`, before encoding: a fixed
   * envelope with id "42" around the same parameters `to_dict` builds,
   * plus Region and Profile when truthy.
   */
  function ZionRequest(p: PollEventsParams, region: Option<string>, profile: Option<string>): (d: map<string, Json>)
    ensures d.Keys == {"jsonrpc", "id", "method", "params"}
    ensures d["jsonrpc"] == JStr("2.0") && d["id"] == JStr("42") && d["method"] == JStr(PollEventsMethod)
    ensures d["params"].JObj? && d["params"].fields == WithRegionProfile(ToDict(p), region, profile)
  {
    var params := map["ListenerId" := JStr(p.listenerId)];
    var params := if p.waitTimeSeconds.Some? then params["WaitTimeSeconds" := JNum(p.waitTimeSeconds.value)] else params;
    var params := if p.maxNumberOfMessages.Some? then params["MaxNumberOfMessages" := JNum(p.maxNumberOfMessages.value)] else params;
    var params := if TruthyText(region) then params["Region" := JStr(region.value)] else params;
    var params := if TruthyText(profile) then params["Profile" := JStr(profile.value)] else params;
    map["jsonrpc" := JStr("2.0"), "id" := JStr("42"), "method" := JStr(PollEventsMethod), "params" := JObj(params)]
  }

  /** The zion request carries parameters the RPC side reads back as the original ones. */
  lemma ZionRequestRoundTrip(p: PollEventsParams, region: Option<string>, profile: Option<string>)
    ensures var d := ZionRequest(p, region, profile); FromDict(d["params"].fields) == Some(p)
  {
    var d := ToDict(p);
    var e := WithRegionProfile(d, region, profile);
    ToDictRoundTrip(p);
    assert "ListenerId" in e && e["ListenerId"] == d["ListenerId"];
    assert OptionalNumber(e, "WaitTimeSeconds") == OptionalNumber(d, "WaitTimeSeconds");
    assert OptionalNumber(e, "MaxNumberOfMessages") == OptionalNumber(d, "MaxNumberOfMessages");
  }
}
