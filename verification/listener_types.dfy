/**
 * The EventBridge listener of the test harness
 * (`internal/pkg/harness/eventbridge/listener/types.go`): an SQS queue
 * subscribed to an event bus through a rule, deployed and destroyed step
 * by step.
 *
 * The listener's dependencies (the rule and queue helpers and the SQS
 * client) are an `Options` object: each call appends its request to
 * `calls` and answers with the object's response function. A nil event
 * bus or queue that the source dereferences is a `Panic` result.
 */
module ListenerTypes {
  import opened Wrappers
  import opened Harness
  import Text
  import Tags
  import EventRule

  const TestHarnessType := "EventBridge.Listener"
  const IDPrefix := "iatk_eb_"
  const MessageRetentionPeriod := 3600
  const NoReceiptHandles := "receiptHandles must have at least one item"

  const Int32Min := -0x8000_0000
  const Int32Max := 0x7fff_ffff

  predicate IsInt32(n: int)
  {
    Int32Min <= n <= Int32Max
  }

  /** Go's `int32` arithmetic: the result wraps around modulo 2^32. */
  function WrapInt32(n: int): (r: int)
    ensures IsInt32(r)
    ensures IsInt32(n) ==> r == n
    ensures (r - n) % 0x1_0000_0000 == 0
  {
    (n - Int32Min) % 0x1_0000_0000 + Int32Min
  }

  /** An SQS message as received; either field may be nil. */
  datatype Message = Message(body: Option<string>, receiptHandle: Option<string>)

  /** A received event: the message body and the handle that deletes it. */
  datatype Event = Event(body: string, receiptHandle: string)

  datatype BatchEntry = BatchEntry(id: string, receiptHandle: string)

  /** The calls a listener makes through its options. */
  datatype OpCall =
    | CreateRule(name: string, eventBusName: string, eventPattern: string, description: string, tags: map<string, string>)
    | CreateQueue(name: string, tags: map<string, string>, policy: string, retentionPeriod: int)
    | PutQueueTarget(listenerId: string, queue: Queue, rule: EventRule.Rule, target: Option<EventRule.TargetFields>)
    | DeleteRule(eventBusName: string, name: string)
    | DeleteQueue(queueUrl: string)
    | GetQueueWithName(name: string)
    | GetEventBusNameFromQueue(queueUrl: string)
    | GetRule(name: string, eventBusName: string)
    | ReceiveMessage(queueUrl: string, maxNumberOfMessages: int, waitTimeSeconds: int, visibilityTimeout: int)
    | DeleteMessageBatch(queueUrl: string, entries: seq<BatchEntry>)

  /** The listener's dependencies; `calls` logs every request made through them. */
  class Options {
    var calls: seq<OpCall>
    const createRule: OpCall -> Result<EventRule.Rule, string>
    const createQueue: OpCall -> Result<Queue, string>
    const putQueueTarget: OpCall -> Option<string>
    const deleteRule: OpCall -> Option<string>
    const deleteQueue: OpCall -> Option<string>
    const getQueueWithName: OpCall -> Result<Queue, string>
    /** The bus name tagged on a queue; a lookup error is only logged, so it is left out. */
    const getEventBusNameFromQueue: OpCall -> string
    const getRule: OpCall -> Result<EventRule.Rule, string>
    const receiveMessage: OpCall -> Result<seq<Message>, string>
    const deleteMessageBatch: OpCall -> Option<string>

    constructor (createRule: OpCall -> Result<EventRule.Rule, string>, createQueue: OpCall -> Result<Queue, string>,
                 putQueueTarget: OpCall -> Option<string>, deleteRule: OpCall -> Option<string>,
                 deleteQueue: OpCall -> Option<string>, getQueueWithName: OpCall -> Result<Queue, string>,
                 getEventBusNameFromQueue: OpCall -> string, getRule: OpCall -> Result<EventRule.Rule, string>,
                 receiveMessage: OpCall -> Result<seq<Message>, string>, deleteMessageBatch: OpCall -> Option<string>)
      ensures calls == []
      ensures this.createRule == createRule && this.createQueue == createQueue && this.putQueueTarget == putQueueTarget
      ensures this.deleteRule == deleteRule && this.deleteQueue == deleteQueue && this.getQueueWithName == getQueueWithName
      ensures this.getEventBusNameFromQueue == getEventBusNameFromQueue && this.getRule == getRule
      ensures this.receiveMessage == receiveMessage && this.deleteMessageBatch == deleteMessageBatch
    {
      calls := [];
      this.createRule := createRule;
      this.createQueue := createQueue;
      this.putQueueTarget := putQueueTarget;
      this.deleteRule := deleteRule;
      this.deleteQueue := deleteQueue;
      this.getQueueWithName := getQueueWithName;
      this.getEventBusNameFromQueue := getEventBusNameFromQueue;
      this.getRule := getRule;
      this.receiveMessage := receiveMessage;
      this.deleteMessageBatch := deleteMessageBatch;
    }

    method CallCreateRule(c: OpCall) returns (r: Result<EventRule.Rule, string>)
      requires c.CreateRule?
      modifies this
      ensures calls == old(calls) + [c] && r == createRule(c)
    {
      calls := calls + [c];
      r := createRule(c);
    }

    method CallCreateQueue(c: OpCall) returns (r: Result<Queue, string>)
      requires c.CreateQueue?
      modifies this
      ensures calls == old(calls) + [c] && r == createQueue(c)
    {
      calls := calls + [c];
      r := createQueue(c);
    }

    method CallPutQueueTarget(c: OpCall) returns (err: Option<string>)
      requires c.PutQueueTarget?
      modifies this
      ensures calls == old(calls) + [c] && err == putQueueTarget(c)
    {
      calls := calls + [c];
      err := putQueueTarget(c);
    }

    method CallDeleteRule(c: OpCall) returns (err: Option<string>)
      requires c.DeleteRule?
      modifies this
      ensures calls == old(calls) + [c] && err == deleteRule(c)
    {
      calls := calls + [c];
      err := deleteRule(c);
    }

    method CallDeleteQueue(c: OpCall) returns (err: Option<string>)
      requires c.DeleteQueue?
      modifies this
      ensures calls == old(calls) + [c] && err == deleteQueue(c)
    {
      calls := calls + [c];
      err := deleteQueue(c);
    }

    method CallGetQueueWithName(c: OpCall) returns (r: Result<Queue, string>)
      requires c.GetQueueWithName?
      modifies this
      ensures calls == old(calls) + [c] && r == getQueueWithName(c)
    {
      calls := calls + [c];
      r := getQueueWithName(c);
    }

    method CallGetEventBusNameFromQueue(c: OpCall) returns (name: string)
      requires c.GetEventBusNameFromQueue?
      modifies this
      ensures calls == old(calls) + [c] && name == getEventBusNameFromQueue(c)
    {
      calls := calls + [c];
      name := getEventBusNameFromQueue(c);
    }

    method CallGetRule(c: OpCall) returns (r: Result<EventRule.Rule, string>)
      requires c.GetRule?
      modifies this
      ensures calls == old(calls) + [c] && r == getRule(c)
    {
      calls := calls + [c];
      r := getRule(c);
    }

    method CallReceiveMessage(c: OpCall) returns (r: Result<seq<Message>, string>)
      requires c.ReceiveMessage?
      modifies this
      ensures calls == old(calls) + [c] && r == receiveMessage(c)
    {
      calls := calls + [c];
      r := receiveMessage(c);
    }

    method CallDeleteMessageBatch(c: OpCall) returns (err: Option<string>)
      requires c.DeleteMessageBatch?
      modifies this
      ensures calls == old(calls) + [c] && err == deleteMessageBatch(c)
    {
      calls := calls + [c];
      err := deleteMessageBatch(c);
    }
  }

  /** The listener's fields at one moment. */
  datatype ListenerState = ListenerState(
    id: string, eventPattern: string, customTags: map<string, string>, target: Option<EventRule.TargetFields>,
    eventBus: Option<EventBus>, queue: Option<Queue>, rule: Option<EventRule.Rule>)

  /** What `JSON` reports: the listener's id, the bus under test and the components. */
  datatype Output = Output(id: string, testTarget: Resource, components: seq<Resource>)

  /** The tags a listener puts on its rule and queue: the four system tags, then the custom ones. */
  function SystemTags(listenerId: string, bus: EventBus, created: string): map<string, string>
  {
    map[Tags.IdKey := listenerId, Tags.TypeKey := TestHarnessType,
        Tags.TargetKey := ArnString(bus.arn), Tags.CreatedKey := created]
  }

  function AllTags(listenerId: string, bus: EventBus, created: string, custom: map<string, string>): map<string, string>
  {
    SystemTags(listenerId, bus, created) + custom
  }

  /**
   * The tags hold every custom tag as given and every system tag no custom
   * tag overrides, and nothing else.
   */
  lemma TagsContents(listenerId: string, bus: EventBus, created: string, custom: map<string, string>)
    ensures var t := AllTags(listenerId, bus, created, custom);
      && t.Keys == {Tags.IdKey, Tags.TypeKey, Tags.TargetKey, Tags.CreatedKey} + custom.Keys
      && (forall k :: k in custom ==> t[k] == custom[k])
      && (Tags.IdKey !in custom ==> t[Tags.IdKey] == listenerId)
      && (Tags.TypeKey !in custom ==> t[Tags.TypeKey] == TestHarnessType)
      && (Tags.TargetKey !in custom ==> t[Tags.TargetKey] == ArnString(bus.arn))
      && (Tags.CreatedKey !in custom ==> t[Tags.CreatedKey] == created)
  {
  }

  /** The resources a listener owns: the queue before the rule, each only when present. */
  function ComponentsOf(queue: Option<Queue>, rule: Option<EventRule.Rule>): (r: seq<Resource>)
    ensures |r| == (if queue.Some? then 1 else 0) + (if rule.Some? then 1 else 0)
    ensures queue.Some? ==> r[0] == QueueResource(queue.value)
    ensures rule.Some? ==> r[|r| - 1] == EventRule.RuleResource(rule.value)
  {
    (if queue.Some? then [QueueResource(queue.value)] else []) +
    (if rule.Some? then [EventRule.RuleResource(rule.value)] else [])
  }

  /** `JSON` of a listener in state `s`; a listener without an event bus is dereferenced. */
  function JsonOf(s: ListenerState): (r: Result<Output, GoError>)
    ensures s.eventBus.None? ==> r == Err(Panic(NilDereference))
    ensures s.eventBus.Some? ==> r.Ok? && r.value.id == IDPrefix + s.id && r.value.testTarget == EventBusResource(s.eventBus.value)
    ensures s.eventBus.Some? ==> r.value.components == ComponentsOf(s.queue, s.rule)
  {
    if s.eventBus.None? then Err(Panic(NilDereference))
    else Ok(Output(IDPrefix + s.id, EventBusResource(s.eventBus.value), ComponentsOf(s.queue, s.rule)))
  }

  /** The text of the queue's access policy: events from the rule may be sent to the queue. */
  function QueuePolicy(queueArn: Arn, ruleArn: Arn): string
  {
    PolicyHead + PolicyId(ruleArn) + StatementHead + ResourceField(queueArn) + ConditionHead + SourceField(ruleArn) + PolicyTail
  }

  const PolicyHead := "{\"Version\": \"2012-10-17\", "
  const StatementHead := ", \"Statement\": [{\"Sid\": \"eblistener\", \"Effect\": \"Allow\", " +
                         "\"Principal\": {\"Service\": \"events.amazonaws.com\"}, \"Action\": \"sqs:SendMessage\", "
  const ConditionHead := ", \"Condition\": {\"ArnEquals\": {"
  const PolicyTail := "}}}]}"

  function PolicyId(ruleArn: Arn): string
  {
    "\"Id\": \"Write_Permission_for_Rule_" + ruleArn.resource + "\""
  }

  function ResourceField(queueArn: Arn): string
  {
    "\"Resource\": " + Text.Quote(ArnString(queueArn))
  }

  function SourceField(ruleArn: Arn): string
  {
    "\"aws:SourceArn\": " + Text.Quote(ArnString(ruleArn))
  }

  /** The policy names the queue as its resource, the rule as the source, and the rule's resource part in its id. */
  lemma PolicyEmbeds(queueArn: Arn, ruleArn: Arn)
    ensures Text.Contains(QueuePolicy(queueArn, ruleArn), ResourceField(queueArn))
    ensures Text.Contains(QueuePolicy(queueArn, ruleArn), SourceField(ruleArn))
    ensures Text.Contains(QueuePolicy(queueArn, ruleArn), PolicyId(ruleArn))
  {
    PiecesContained(PolicyHead, PolicyId(ruleArn), StatementHead, ResourceField(queueArn), ConditionHead, SourceField(ruleArn), PolicyTail);
  }

  lemma PiecesContained(a: string, b: string, c: string, d: string, e: string, f: string, g: string)
    ensures Text.Contains(a + b + c + d + e + f + g, b)
    ensures Text.Contains(a + b + c + d + e + f + g, d)
    ensures Text.Contains(a + b + c + d + e + f + g, f)
  {
    var p := a + b + c + d + e + f + g;
    assert p == a + b + (c + d + e + f + g);
    Text.ContainsInside(a, b, c + d + e + f + g);
    assert p == (a + b + c) + d + (e + f + g);
    Text.ContainsInside(a + b + c, d, e + f + g);
    assert p == (a + b + c + d + e) + f + g;
    Text.ContainsInside(a + b + c + d + e, f, g);
  }

  /** The error of a deploy step. */
  function DeployFailed(listenerId: string, e: string): string
  {
    "failed to deploy eb listener " + listenerId + ": " + e
  }

  function DestroyFailed(listenerId: string, e: string): string
  {
    "failed to destroy eb listener " + listenerId + ": " + e
  }

  /** What a step sequence did: the calls made, the error, and the rule and queue fields afterwards. */
  datatype Steps = Steps(calls: seq<OpCall>, err: Option<GoError>, rule: Option<EventRule.Rule>, queue: Option<Queue>)

  /** The CreateRule request of `Deploy`. */
  function RuleRequest(s: ListenerState, bus: EventBus, tags: map<string, string>): OpCall
  {
    CreateRule(IDPrefix + s.id, bus.name, s.eventPattern, "rule for Listener " + Text.Quote(IDPrefix + s.id) + "; created by zion", tags)
  }

  /** The CreateQueue request of `Deploy`: the queue's ARN is worked out before the queue exists. */
  function QueueRequest(s: ListenerState, bus: EventBus, tags: map<string, string>, r: EventRule.Rule): OpCall
  {
    var queueArn := Arn(bus.arn.partition, "sqs", bus.arn.region, bus.arn.accountId, IDPrefix + s.id);
    CreateQueue(IDPrefix + s.id, tags, QueuePolicy(queueArn, r.arn), MessageRetentionPeriod)
  }

  /**
   * `Deploy` on a listener in state `s` at time `created`: create the rule,
   * then the queue with a policy for that rule, then the queue target; the
   * first failure ends it.
   */
  function DeploySteps(s: ListenerState, o: Options, created: string): Steps
  {
    if s.eventBus.None? then Steps([], Some(Panic(NilDereference)), s.rule, s.queue)
    else
      var bus := s.eventBus.value;
      var tags := AllTags(IDPrefix + s.id, bus, created, s.customTags);
      var cr := RuleRequest(s, bus, tags);
      match o.createRule(cr)
      case Err(e) => Steps([cr], Some(Failure(DeployFailed(IDPrefix + s.id, e))), s.rule, s.queue)
      case Ok(r) => QueueSteps(s, o, cr, QueueRequest(s, bus, tags, r), r)
  }

  /** The steps of `Deploy` after the rule `r` was created by `cr`. */
  function QueueSteps(s: ListenerState, o: Options, cr: OpCall, cq: OpCall, r: EventRule.Rule): Steps
  {
    match o.createQueue(cq)
    case Err(e) => Steps([cr, cq], Some(Failure(DeployFailed(IDPrefix + s.id, e))), Some(r), s.queue)
    case Ok(q) =>
      var pt := PutQueueTarget(IDPrefix + s.id, q, r, s.target);
      var err := o.putQueueTarget(pt);
      Steps([cr, cq, pt], if err.Some? then Some(Failure(DeployFailed(IDPrefix + s.id, err.value))) else None, Some(r), Some(q))
  }

  /**
   * `Destroy` on a listener in state `s`: nothing when it has neither rule
   * nor queue; otherwise the rule is deleted before the queue, and each
   * field is cleared only once its resource is gone.
   */
  function DestroySteps(s: ListenerState, o: Options): Steps
  {
    var id := IDPrefix + s.id;
    if s.rule.None? && s.queue.None? then Steps([], None, None, None)
    else
      var dr := DeleteRule(if s.rule.Some? then s.rule.value.eventBusName else "", if s.rule.Some? then s.rule.value.name else "");
      if s.rule.Some? && o.deleteRule(dr).Some? then
        Steps([dr], Some(Failure(DestroyFailed(id, o.deleteRule(dr).value))), s.rule, s.queue)
      else
        var first := if s.rule.Some? then [dr] else [];
        var dq := DeleteQueue(if s.queue.Some? then s.queue.value.queueUrl else "");
        if s.queue.None? then Steps(first, None, None, None)
        else if o.deleteQueue(dq).Some? then
          Steps(first + [dq], Some(Failure(DestroyFailed(id, o.deleteQueue(dq).value))), None, s.queue)
        else Steps(first + [dq], None, None, None)
  }

  /** The events made from received messages, in order, nil fields read as "". */
  function EventsOf(messages: seq<Message>): (events: seq<Event>)
    ensures |events| == |messages|
    ensures forall i :: 0 <= i < |events| ==>
      events[i] == Event(EventRule.ToString(messages[i].body), EventRule.ToString(messages[i].receiptHandle))
  {
    if messages == [] then []
    else EventsOf(messages[..|messages| - 1]) +
         [Event(EventRule.ToString(messages[|messages| - 1].body), EventRule.ToString(messages[|messages| - 1].receiptHandle))]
  }

  /** The batch entries for `handles`: entry `i` has id "i" in decimal. */
  function BatchEntries(handles: seq<string>): (entries: seq<BatchEntry>)
    ensures |entries| == |handles|
    ensures forall i :: 0 <= i < |entries| ==> entries[i] == BatchEntry(Text.Decimal(i), handles[i])
  {
    if handles == [] then [] else BatchEntries(handles[..|handles| - 1]) + [BatchEntry(Text.Decimal(|handles| - 1), handles[|handles| - 1])]
  }

  /** The entry ids of a batch are distinct, as SQS requires of a batch. */
  lemma BatchIdsDistinct(handles: seq<string>, i: nat, j: nat)
    requires i < j < |handles|
    ensures BatchEntries(handles)[i].id != BatchEntries(handles)[j].id
  {
    Text.DecimalInjective(i, j);
  }

  /** The ReceiveMessage request for a listener's queue: the visibility timeout is the wait plus 5 seconds. */
  function ReceiveRequest(queue: Queue, waitTimeSeconds: int, maxNumberOfMessages: int): OpCall
  {
    ReceiveMessage(queue.queueUrl, maxNumberOfMessages, waitTimeSeconds, WrapInt32(waitTimeSeconds + 5))
  }

  class Listener {
    var id: string
    var eventPattern: string
    var customTags: map<string, string>
    var target: Option<EventRule.TargetFields>
    var eventBus: Option<EventBus>
    var queue: Option<Queue>
    var rule: Option<EventRule.Rule>
    const opts: Options

    constructor (s: ListenerState, opts: Options)
      ensures State() == s && this.opts == opts
    {
      id := s.id;
      eventPattern := s.eventPattern;
      customTags := s.customTags;
      target := s.target;
      eventBus := s.eventBus;
      queue := s.queue;
      rule := s.rule;
      this.opts := opts;
    }

    function State(): ListenerState
      reads this
    {
      ListenerState(id, eventPattern, customTags, target, eventBus, queue, rule)
    }

    /** `ID`: the listener's id behind the prefix "iatk_eb_". */
    function ID(): (r: string)
      reads this
      ensures Text.HasPrefix(r, IDPrefix) && r[|IDPrefix|..] == id
    {
      IDPrefix + id
    }

    /** `tags`: the system tags, then every custom tag over them. */
    method TagsAt(created: string) returns (tags: map<string, string>)
      requires eventBus.Some?
      ensures tags == AllTags(ID(), eventBus.value, created, customTags)
    {
      tags := SystemTags(ID(), eventBus.value, created);
      var todo := customTags.Keys;
      while todo != {}
        invariant todo <= customTags.Keys
        invariant tags == SystemTags(ID(), eventBus.value, created) + map k | k in customTags && k !in todo :: customTags[k]
        decreases todo
      {
        var key :| key in todo;
        todo := todo - {key};
        tags := tags[key := customTags[key]];
      }
      assert (map k | k in customTags && k !in todo :: customTags[k]) == customTags;
    }

    function Components(): seq<Resource>
      reads this
    {
      ComponentsOf(queue, rule)
    }

    /** `JSON`. */
    function Json(): Result<Output, GoError>
      reads this
    {
      JsonOf(State())
    }

    /** `Deploy`, at the time `created` (the source reads the clock). */
    method Deploy(created: string) returns (err: Option<GoError>)
      modifies this, opts
      ensures var st := DeploySteps(old(State()), opts, created);
        && opts.calls == old(opts.calls) + st.calls && err == st.err
        && State() == old(State()).(rule := st.rule, queue := st.queue)
    {
      if eventBus.None? {
        return Some(Panic(NilDereference));
      }
      var s := State();
      var tags := TagsAt(created);
      var bus := eventBus.value;
      var cr := RuleRequest(s, bus, tags);
      var r := opts.CallCreateRule(cr);
      if r.Err? {
        return Some(Failure(DeployFailed(ID(), r.error)));
      }
      err := DeployQueue(cr, QueueRequest(s, bus, tags, r.value), r.value);
    }

    /** The rest of `Deploy` once the rule `r` exists: record it, create the queue, then the queue target. */
    method DeployQueue(cr: OpCall, cq: OpCall, r: EventRule.Rule) returns (err: Option<GoError>)
      requires cq.CreateQueue?
      modifies this, opts
      ensures var st := QueueSteps(old(State()), opts, cr, cq, r);
        && opts.calls == old(opts.calls) + st.calls[1..] && err == st.err
        && State() == old(State()).(rule := st.rule, queue := st.queue)
    {
      rule := Some(r);
      var q := opts.CallCreateQueue(cq);
      if q.Err? {
        return Some(Failure(DeployFailed(ID(), q.error)));
      }
      queue := Some(q.value);
      var e := opts.CallPutQueueTarget(PutQueueTarget(ID(), q.value, r, target));
      if e.Some? {
        return Some(Failure(DeployFailed(ID(), e.value)));
      }
      return None;
    }

    /** `Destroy`. */
    method Destroy() returns (err: Option<GoError>)
      modifies this, opts
      ensures var st := DestroySteps(old(State()), opts);
        && opts.calls == old(opts.calls) + st.calls && err == st.err
        && State() == old(State()).(rule := st.rule, queue := st.queue)
    {
      if rule.None? && queue.None? {
        return None;
      }
      if rule.Some? {
        var e := opts.CallDeleteRule(DeleteRule(rule.value.eventBusName, rule.value.name));
        if e.Some? {
          return Some(Failure(DestroyFailed(ID(), e.value)));
        }
      }
      rule := None;
      if queue.Some? {
        var e := opts.CallDeleteQueue(DeleteQueue(queue.value.queueUrl));
        if e.Some? {
          return Some(Failure(DestroyFailed(ID(), e.value)));
        }
      }
      queue := None;
      return None;
    }

    /** `ReceiveEvents`: one ReceiveMessage call on the listener's queue; the events keep the messages' order. */
    method ReceiveEvents(waitTimeSeconds: int, maxNumberOfMessages: int) returns (r: Result<seq<Event>, GoError>)
      requires IsInt32(waitTimeSeconds) && IsInt32(maxNumberOfMessages)
      modifies opts
      ensures queue.None? ==> opts.calls == old(opts.calls) && r == Err(Panic(NilDereference))
      ensures queue.Some? ==>
        var c := ReceiveRequest(queue.value, waitTimeSeconds, maxNumberOfMessages);
        && opts.calls == old(opts.calls) + [c]
        && r == match opts.receiveMessage(c)
                case Err(e) => Err(Failure("failed to receive events: " + e))
                case Ok(messages) => Ok(EventsOf(messages))
    {
      if queue.None? {
        return Err(Panic(NilDereference));
      }
      var messages := opts.CallReceiveMessage(ReceiveRequest(queue.value, waitTimeSeconds, maxNumberOfMessages));
      if messages.Err? {
        return Err(Failure("failed to receive events: " + messages.error));
      }
      var events: seq<Event> := [];
      for i := 0 to |messages.value|
        invariant events == EventsOf(messages.value[..i])
      {
        assert messages.value[..i + 1][..i] == messages.value[..i];
        var m := messages.value[i];
        events := events + [Event(EventRule.ToString(m.body), EventRule.ToString(m.receiptHandle))];
      }
      assert messages.value[..|messages.value|] == messages.value;
      return Ok(events);
    }

    /** `DeleteEvents`: an empty list is refused before the queue is touched; otherwise one batch call. */
    method DeleteEvents(receiptHandles: seq<string>) returns (err: Option<GoError>)
      modifies opts
      ensures receiptHandles == [] ==> opts.calls == old(opts.calls) && err == Some(Failure(NoReceiptHandles))
      ensures receiptHandles != [] && queue.None? ==> opts.calls == old(opts.calls) && err == Some(Panic(NilDereference))
      ensures receiptHandles != [] && queue.Some? ==>
        var c := DeleteMessageBatch(queue.value.queueUrl, BatchEntries(receiptHandles));
        && opts.calls == old(opts.calls) + [c]
        && err == if opts.deleteMessageBatch(c).Some? then Some(Failure("failed to delete events: " + opts.deleteMessageBatch(c).value)) else None
    {
      if |receiptHandles| == 0 {
        return Some(Failure(NoReceiptHandles));
      }
      var entries: seq<BatchEntry> := [];
      for i := 0 to |receiptHandles|
        invariant entries == BatchEntries(receiptHandles[..i])
      {
        assert receiptHandles[..i + 1][..i] == receiptHandles[..i];
        entries := entries + [BatchEntry(Text.Decimal(i), receiptHandles[i])];
      }
      assert receiptHandles[..|receiptHandles|] == receiptHandles;
      if queue.None? {
        return Some(Panic(NilDereference));
      }
      var e := opts.CallDeleteMessageBatch(DeleteMessageBatch(queue.value.queueUrl, entries));
      if e.Some? {
        return Some(Failure("failed to delete events: " + e.value));
      }
      return None;
    }
  }

  /**
   * The order `Deploy` promises: the rule, then the queue, then the
   * target, each step only after the one before succeeded; on success
   * the listener holds the new rule and queue, and every failure is
   * reported behind "failed to deploy eb listener <id>: ".
   */
  lemma DeployOrder(s: ListenerState, o: Options, created: string)
    requires s.eventBus.Some?
    ensures var st := DeploySteps(s, o, created);
      && 1 <= |st.calls| <= 3
      && st.calls[0].CreateRule?
      && (|st.calls| >= 2 ==> st.calls[1].CreateQueue? && o.createRule(st.calls[0]).Ok? && st.rule == Some(o.createRule(st.calls[0]).value))
      && (|st.calls| == 3 ==> st.calls[2].PutQueueTarget? && o.createQueue(st.calls[1]).Ok? &&
                              st.queue == Some(o.createQueue(st.calls[1]).value))
      && (st.err.None? <==> |st.calls| == 3 && o.putQueueTarget(st.calls[2]).None?)
      && (st.err.Some? ==> st.err.value.Failure? &&
                           Text.HasPrefix(st.err.value.message, "failed to deploy eb listener " + IDPrefix + s.id + ": "))
  {
    var bus := s.eventBus.value;
    var tags := AllTags(IDPrefix + s.id, bus, created, s.customTags);
    var cr := RuleRequest(s, bus, tags);
    match o.createRule(cr)
    case Err(e) =>
      DeployFailedPrefix(IDPrefix + s.id, e);
    case Ok(r) =>
      QueueOrder(s, o, cr, QueueRequest(s, bus, tags, r), r);
  }

  /** The queue half of `DeployOrder`. */
  lemma QueueOrder(s: ListenerState, o: Options, cr: OpCall, cq: OpCall, r: EventRule.Rule)
    ensures var st := QueueSteps(s, o, cr, cq, r);
      && 2 <= |st.calls| <= 3 && st.calls[..2] == [cr, cq] && st.rule == Some(r)
      && (|st.calls| == 3 ==> st.calls[2].PutQueueTarget? && o.createQueue(cq).Ok? && st.queue == Some(o.createQueue(cq).value))
      && (st.err.None? <==> |st.calls| == 3 && o.putQueueTarget(st.calls[2]).None?)
      && (st.err.Some? ==> st.err.value.Failure? &&
                           Text.HasPrefix(st.err.value.message, "failed to deploy eb listener " + IDPrefix + s.id + ": "))
  {
    match o.createQueue(cq)
    case Err(e) =>
      DeployFailedPrefix(IDPrefix + s.id, e);
    case Ok(q) =>
      var pt := PutQueueTarget(IDPrefix + s.id, q, r, s.target);
      if o.putQueueTarget(pt).Some? {
        DeployFailedPrefix(IDPrefix + s.id, o.putQueueTarget(pt).value);
      }
  }

  lemma DeployFailedPrefix(listenerId: string, e: string)
    ensures Text.HasPrefix(DeployFailed(listenerId, e), "failed to deploy eb listener " + listenerId + ": ")
  {
    var p := "failed to deploy eb listener " + listenerId + ": ";
    assert DeployFailed(listenerId, e) == p + e;
    assert (p + e)[..|p|] == p;
  }

  /**
   * What `Destroy` promises: success clears both fields; the rule's
   * deletion comes before the queue's; a failure leaves the field whose
   * deletion failed, and the fields after it, as they were.
   */
  lemma DestroyOrder(s: ListenerState, o: Options)
    ensures var st := DestroySteps(s, o);
      && (st.err.None? ==> st.rule.None? && st.queue.None?)
      && (s.rule.None? && s.queue.None? ==> st.calls == [] && st.err.None?)
      && (forall i, j :: 0 <= i < j < |st.calls| ==> st.calls[i].DeleteRule? && st.calls[j].DeleteQueue?)
      && (st.err.Some? && st.rule.Some? ==> st.rule == s.rule && st.queue == s.queue)
      && (st.err.Some? ==> st.queue == s.queue)
      && (DeleteRule(if s.rule.Some? then s.rule.value.eventBusName else "", if s.rule.Some? then s.rule.value.name else "") in st.calls <==> s.rule.Some?)
  {
  }
}
