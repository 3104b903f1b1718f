/**
 * Parameter checks of three public RPC methods (`internal/pkg/public-rpc`):
 * polling a listener, adding an EventBridge listener, and generating a
 * mock event. Each check runs before the method loads any AWS
 * configuration.
 */
module PublicRpc {
  import opened Wrappers
  import Text
  import Tags

  // ------------------------------------------------------------ poll events

  const MissingListenerId := "missing required param \"ListenerId\""
  const MaxMessagesRange := "\"MaxNumberOfMessages\" must be an integer between 1 and 10"
  const WaitTimeRange := "\"WaitTimeSeconds\" must be an integer between 0 and 20"

  /**
   * The `validateParams` checks, in order, on the decoded fields; an
   * absent number is a nil pointer, and reading it panics.
   */
  function ValidatePoll(listenerId: string, waitTimeSeconds: Option<int>, maxNumberOfMessages: Option<int>): Option<GoError>
  {
    if listenerId == "" then Some(Failure(MissingListenerId))
    else if maxNumberOfMessages.None? then Some(Panic(NilDereference))
    else if maxNumberOfMessages.value <= 0 || maxNumberOfMessages.value > 10 then Some(Failure(MaxMessagesRange))
    else if waitTimeSeconds.None? then Some(Panic(NilDereference))
    else if waitTimeSeconds.value < 0 || waitTimeSeconds.value > 20 then Some(Failure(WaitTimeRange))
    else None
  }

  /** An absent number takes the default; a present one is kept. */
  function Defaulted(n: Option<int>, default: int): (r: Option<int>)
    ensures r.Some?
    ensures n.Some? ==> r == n
    ensures n.None? ==> r == Some(default)
  {
    if n.None? then Some(default) else n
  }

  /** `PollEventsParams`: decoded from the request, then completed in place with defaults. */
  class PollEventsParams {
    var listenerId: string
    var waitTimeSeconds: Option<int>
    var maxNumberOfMessages: Option<int>

    constructor (listenerId: string, waitTimeSeconds: Option<int>, maxNumberOfMessages: Option<int>)
      ensures this.listenerId == listenerId && this.waitTimeSeconds == waitTimeSeconds
      ensures this.maxNumberOfMessages == maxNumberOfMessages
    {
      this.listenerId := listenerId;
      this.waitTimeSeconds := waitTimeSeconds;
      this.maxNumberOfMessages := maxNumberOfMessages;
    }

    /** `setDefaultValues`: a missing wait becomes 0 and a missing maximum 1. */
    method SetDefaultValues()
      modifies this
      ensures listenerId == old(listenerId)
      ensures waitTimeSeconds == Defaulted(old(waitTimeSeconds), 0)
      ensures maxNumberOfMessages == Defaulted(old(maxNumberOfMessages), 1)
    {
      if waitTimeSeconds.None? {
        waitTimeSeconds := Some(0);
      }
      if maxNumberOfMessages.None? {
        maxNumberOfMessages := Some(1);
      }
    }

    /** `validateParams`. */
    function ValidateParams(): Option<GoError>
      reads this
    {
      ValidatePoll(listenerId, waitTimeSeconds, maxNumberOfMessages)
    }

    /** The first two steps of `RPCMethod`: fill in the defaults, then validate. */
    method Check() returns (err: Option<GoError>)
      modifies this
      ensures err == ValidatePoll(old(listenerId), Defaulted(old(waitTimeSeconds), 0), Defaulted(old(maxNumberOfMessages), 1))
      ensures listenerId == old(listenerId)
      ensures waitTimeSeconds == Defaulted(old(waitTimeSeconds), 0)
      ensures maxNumberOfMessages == Defaulted(old(maxNumberOfMessages), 1)
    {
      SetDefaultValues();
      err := ValidateParams();
    }
  }

  /**
   * Once the defaults are in, validation never panics; it passes exactly
   * when the listener id is given and each number is absent or in range,
   * and otherwise names the first failing check: the id, then the
   * maximum, then the wait.
   */
  lemma PollDefaultsValidate(listenerId: string, waitTimeSeconds: Option<int>, maxNumberOfMessages: Option<int>)
    ensures var err := ValidatePoll(listenerId, Defaulted(waitTimeSeconds, 0), Defaulted(maxNumberOfMessages, 1));
      var maxOk := maxNumberOfMessages.None? || 1 <= maxNumberOfMessages.value <= 10;
      var waitOk := waitTimeSeconds.None? || 0 <= waitTimeSeconds.value <= 20;
      && (err.None? <==> listenerId != "" && maxOk && waitOk)
      && (err.Some? ==> err.value.Failure?)
      && (listenerId == "" ==> err == Some(Failure(MissingListenerId)))
      && (listenerId != "" && !maxOk ==> err == Some(Failure(MaxMessagesRange)))
      && (listenerId != "" && maxOk && !waitOk ==> err == Some(Failure(WaitTimeRange)))
  {
  }

  // ------------------------------------------------------- add eb listener

  const MissingEventBusName := "missing required param \"EventBusName\""
  const MissingRuleName := "missing required param \"RuleName\""

  datatype AddEbListenerParams = AddEbListenerParams(eventBusName: string, targetId: string, ruleName: string,
                                                     tags: map<string, string>)

  /** `validateParams`: the bus name is required, then the rule name. */
  function ValidateAddEbListener(p: AddEbListenerParams): (r: Option<string>)
    ensures r.None? <==> p.eventBusName != "" && p.ruleName != ""
    ensures p.eventBusName == "" ==> r == Some(MissingEventBusName)
    ensures p.eventBusName != "" && p.ruleName == "" ==> r == Some(MissingRuleName)
  {
    if p.eventBusName == "" then Some(MissingEventBusName)
    else if p.ruleName == "" then Some(MissingRuleName)
    else None
  }

  /**
   * The checks at the start of `RPCMethod`: the required parameters, then
   * the tags, whose first reserved key is reported after "invalid tags: ".
   */
  method CheckAddEbListener(p: AddEbListenerParams) returns (err: Option<string>)
    ensures ValidateAddEbListener(p).Some? ==> err == ValidateAddEbListener(p)
    ensures ValidateAddEbListener(p).None? ==>
      (err.None? <==> forall i :: 0 <= i < |Tags.SystemTagKeys| ==> Tags.SystemTagKeys[i] !in p.tags)
    ensures ValidateAddEbListener(p).None? && err.Some? ==>
      exists i :: 0 <= i < |Tags.SystemTagKeys| && Tags.SystemTagKeys[i] in p.tags &&
                  err.value == "invalid tags: " + Tags.ReservedKeyMessage(Tags.SystemTagKeys[i]) &&
                  forall j :: 0 <= j < i ==> Tags.SystemTagKeys[j] !in p.tags
  {
    err := ValidateAddEbListener(p);
    if err.Some? {
      return;
    }
    var tagCheck := Tags.ValidateTags(p.tags);
    if tagCheck.Fail? {
      return Some("invalid tags: " + tagCheck.error);
    }
    return None;
  }

  // ---------------------------------------------------- generate mock event

  const RequiresBoth := "requires both \"RegistryName\" and \"SchemaName\""
  const SupportedContexts := ["eventbridge.v0"]

  datatype GenerateMockEventsParams = GenerateMockEventsParams(registryName: string, schemaName: string,
                                                               schemaVersion: string, eventRef: string,
                                                               context: seq<string>, overrides: string,
                                                               skipOptional: bool)

  function UnsupportedContext(c: string): string
  {
    Text.Quote(c) + " is not a supported context. supported context: " + Text.GoList(SupportedContexts)
  }

  /**
   * `validateParams`: both names are required; then every context must be
   * supported, and the first one that is not is named. No context at all
   * passes.
   */
  method ValidateGenerateMockEvent(p: GenerateMockEventsParams) returns (err: Option<string>)
    ensures p.registryName == "" || p.schemaName == "" ==> err == Some(RequiresBoth)
    ensures err.None? <==>
      p.registryName != "" && p.schemaName != "" && forall i :: 0 <= i < |p.context| ==> p.context[i] in SupportedContexts
    ensures p.registryName != "" && p.schemaName != "" && err.Some? ==>
      exists i :: 0 <= i < |p.context| && p.context[i] !in SupportedContexts && err.value == UnsupportedContext(p.context[i]) &&
                  forall j :: 0 <= j < i ==> p.context[j] in SupportedContexts
  {
    if p.registryName == "" || p.schemaName == "" {
      return Some(RequiresBoth);
    }
    for i := 0 to |p.context|
      invariant forall j :: 0 <= j < i ==> p.context[j] in SupportedContexts
    {
      if p.context[i] !in SupportedContexts {
        return Some(UnsupportedContext(p.context[i]));
      }
    }
    return None;
  }

  /** `GenerateMockEvent` as it stands: an empty event and no error, whatever the schema. */
  function GenerateMockEvent<Schema>(schema: Schema, skipOptional: bool): (r: Result<string, string>)
    ensures r == Ok("")
  {
    Ok("")
  }
}
