/**
 * The EventBridge listener operations of the test harness
 * (`internal/pkg/harness/eventbridge/listener/listener.go`): looking a
 * listener up by id, creating one with rollback, destroying several, and
 * polling its queue.
 *
 * Decoding an xid belongs to a library and is the parameter `xidDecodes`.
 * `DestroyMultiple` reaches the listeners only through its two injected
 * functions, so a fetched listener is represented by its id there.
 */
module EbListener {
  import opened Wrappers
  import opened Harness
  import Text
  import Dedup
  import EventRule
  import opened ListenerTypes

  /** The length of an xid in its text form. */
  const XidLength := 20
  const InvalidId := "invalid ID"
  const PollFailedPrefix := "failed to poll events: "
  const DestroyManyPrefix := "failed to destroy following listener(s): "

  /** `isValidID`: the prefix followed by 20 characters that decode as an xid. */
  predicate IsValidId(id: string, xidDecodes: string -> bool)
  {
    |id| == |IDPrefix| + XidLength && id[..|IDPrefix|] == IDPrefix && xidDecodes(id[|IDPrefix|..])
  }

  /** A valid id is exactly the prefix followed by a decodable xid. */
  lemma ValidIdShape(xid: string, xidDecodes: string -> bool)
    ensures IsValidId(IDPrefix + xid, xidDecodes) <==> |xid| == XidLength && xidDecodes(xid)
    ensures forall id :: IsValidId(id, xidDecodes) ==> id == IDPrefix + id[|IDPrefix|..]
  {
    assert (IDPrefix + xid)[..|IDPrefix|] == IDPrefix;
    assert (IDPrefix + xid)[|IDPrefix|..] == xid;
    forall id | IsValidId(id, xidDecodes) ensures id == IDPrefix + id[|IDPrefix|..] {
      assert id == id[..|IDPrefix|] + id[|IDPrefix|..];
    }
  }

  /** The queue of a listener is named by the listener's id. */
  function QueueName(listenerId: string): (name: string)
    ensures name == listenerId
  {
    listenerId
  }

  /** The rule of a listener is named by the listener's id. */
  function RuleName(listenerId: string): (name: string)
    ensures name == listenerId
  {
    listenerId
  }

  /** The calls `Get` makes and the listener state it returns. */
  datatype Lookup = Lookup(calls: seq<OpCall>, result: Result<ListenerState, string>)

  /**
   * `Get`: the id is checked before any lookup; a missing queue is fatal;
   * the rule is looked up on the bus tagged on the queue, and a missing bus
   * tag or rule leaves the listener without a rule.
   */
  function GetLookup(id: string, o: Options, xidDecodes: string -> bool): Lookup
  {
    if !IsValidId(id, xidDecodes) then Lookup([], Err(InvalidId))
    else
      var gq := GetQueueWithName(QueueName(id));
      match o.getQueueWithName(gq)
      case Err(e) => Lookup([gq], Err("faied to get eb listener " + id + ": " + e))
      case Ok(q) =>
        var gb := GetEventBusNameFromQueue(q.queueUrl);
        var busName := o.getEventBusNameFromQueue(gb);
        var found := ListenerState(id[|IDPrefix|..], "", map[], None, None, Some(q), None);
        if busName == "" then Lookup([gq, gb], Ok(found))
        else
          var gr := GetRule(RuleName(id), busName);
          Lookup([gq, gb, gr], Ok(found.(rule := if o.getRule(gr).Ok? then Some(o.getRule(gr).value) else None)))
  }

  /** `Get`. */
  method Get(id: string, o: Options, xidDecodes: string -> bool) returns (r: Result<ListenerTypes.Listener, string>)
    modifies o
    ensures o.calls == old(o.calls) + GetLookup(id, o, xidDecodes).calls
    ensures r.Err? <==> GetLookup(id, o, xidDecodes).result.Err?
    ensures r.Err? ==> r.error == GetLookup(id, o, xidDecodes).result.error
    ensures r.Ok? ==> fresh(r.value) && r.value.opts == o && r.value.State() == GetLookup(id, o, xidDecodes).result.value
  {
    if !IsValidId(id, xidDecodes) {
      return Err(InvalidId);
    }
    var suffix := id[|IDPrefix|..];
    var q := o.CallGetQueueWithName(GetQueueWithName(QueueName(id)));
    if q.Err? {
      return Err("faied to get eb listener " + id + ": " + q.error);
    }
    var busName := o.CallGetEventBusNameFromQueue(GetEventBusNameFromQueue(q.value.queueUrl));
    var rule: Option<EventRule.Rule> := None;
    if busName != "" {
      var found := o.CallGetRule(GetRule(RuleName(id), busName));
      if found.Ok? {
        rule := Some(found.value);
      }
    }
    var lr := new ListenerTypes.Listener(ListenerState(suffix, "", map[], None, None, Some(q.value), rule), o);
    return Ok(lr);
  }

  /**
   * What `Get` promises: an invalid id fails with "invalid ID" before any
   * call; a found listener has the requested id, the queue named by it,
   * and a rule only when the bus tag and the rule were both found.
   */
  lemma GetFound(id: string, o: Options, xidDecodes: string -> bool)
    ensures !IsValidId(id, xidDecodes) ==> GetLookup(id, o, xidDecodes) == Lookup([], Err(InvalidId))
    ensures var l := GetLookup(id, o, xidDecodes);
      l.result.Ok? ==>
        && IDPrefix + l.result.value.id == id
        && l.calls[0] == GetQueueWithName(id)
        && l.result.value.queue == Some(o.getQueueWithName(l.calls[0]).value)
        && (l.result.value.rule.Some? <==>
              |l.calls| == 3 && l.calls[2] == GetRule(id, o.getEventBusNameFromQueue(l.calls[1])) &&
              o.getEventBusNameFromQueue(l.calls[1]) != "" && o.getRule(l.calls[2]).Ok?)
  {
    if IsValidId(id, xidDecodes) {
      ValidIdShape(id[|IDPrefix|..], xidDecodes);
    }
  }

  function CreateFailed(listenerId: string, e: string): string
  {
    "failed to create eb listener " + listenerId + ": " + e
  }

  /**
   * `Create`: deploy; when deployment fails, destroy exactly once and
   * report the deployment's error whatever the rollback did; otherwise
   * report the listener's JSON. A panic in deployment ends it at once.
   */
  method Create(lr: ListenerTypes.Listener, created: string) returns (r: Result<Output, GoError>)
    modifies lr, lr.opts
    ensures var d := DeploySteps(old(lr.State()), lr.opts, created);
      var deployed := old(lr.State()).(rule := d.rule, queue := d.queue);
      var x := DestroySteps(deployed, lr.opts);
      && (d.err.None? ==> lr.opts.calls == old(lr.opts.calls) + d.calls && lr.State() == deployed &&
                          r == JsonOf(deployed) && r.Ok?)
      && (d.err.Some? && d.err.value.Panic? ==> lr.opts.calls == old(lr.opts.calls) + d.calls && r == Err(d.err.value))
      && (d.err.Some? && d.err.value.Failure? ==>
            && lr.opts.calls == old(lr.opts.calls) + d.calls + x.calls
            && lr.State() == deployed.(rule := x.rule, queue := x.queue)
            && r == Err(Failure(CreateFailed(IDPrefix + old(lr.id), d.err.value.message))))
  {
    var id := lr.ID();
    var errDeploy := lr.Deploy(created);
    if errDeploy.Some? {
      if errDeploy.value.Panic? {
        return Err(errDeploy.value);
      }
      var errDestroy := lr.Destroy();
      return Err(Failure(CreateFailed(id, errDeploy.value.message)));
    }
    return lr.Json();
  }

  /** `destroySingle`: destroy, and name the listener in the error. */
  method DestroySingle(lr: ListenerTypes.Listener) returns (err: Option<GoError>)
    modifies lr, lr.opts
    ensures var x := DestroySteps(old(lr.State()), lr.opts);
      && lr.opts.calls == old(lr.opts.calls) + x.calls
      && lr.State() == old(lr.State()).(rule := x.rule, queue := x.queue)
      && err == if x.err.Some? then Some(Wrap("failed to destroy eb listener " + Text.Quote(IDPrefix + old(lr.id)) + ": ", x.err.value)) else None
  {
    var id := lr.ID();
    var e := lr.Destroy();
    if e.Some? {
      return Some(Wrap("failed to destroy eb listener " + Text.Quote(id) + ": ", e.value));
    }
    return None;
  }

  /** `arns`: the ARN of each resource, in order. */
  method Arns(resources: seq<Resource>) returns (l: seq<string>)
    ensures |l| == |resources| && forall i :: 0 <= i < |l| ==> l[i] == resources[i].arn
  {
    l := [];
    for i := 0 to |resources|
      invariant |l| == i && forall j :: 0 <= j < i ==> l[j] == resources[j].arn
    {
      l := l + [resources[i].arn];
    }
  }

  /** The calls `DestroyMultiple` makes through its injected functions. */
  datatype DestroyCall = GetListener(id: string) | DestroyListener(listenerId: string)

  /**
   * The functions `DestroyMultiple` is given: `get` answers with the
   * fetched listener's id, `destroySingle` with its error, if any.
   */
  class DestroyMultipleOptions {
    var calls: seq<DestroyCall>
    const get: string -> Result<string, string>
    const destroySingle: string -> Option<string>

    constructor (get: string -> Result<string, string>, destroySingle: string -> Option<string>)
      ensures calls == [] && this.get == get && this.destroySingle == destroySingle
    {
      calls := [];
      this.get := get;
      this.destroySingle := destroySingle;
    }

    method CallGet(id: string) returns (r: Result<string, string>)
      modifies this
      ensures calls == old(calls) + [GetListener(id)] && r == get(id)
    {
      calls := calls + [GetListener(id)];
      r := get(id);
    }

    method CallDestroySingle(listenerId: string) returns (err: Option<string>)
      modifies this
      ensures calls == old(calls) + [DestroyListener(listenerId)] && err == destroySingle(listenerId)
    {
      calls := calls + [DestroyListener(listenerId)];
      err := destroySingle(listenerId);
    }
  }

  /** `errDestroySingle.String`. */
  function Reason(resourceGroupId: string, e: string): string
  {
    "{resource group id: " + resourceGroupId + ", reason: " + e + "}"
  }

  /** The listeners `get` finds among `ids`, in order. */
  function Fetched(ids: seq<string>, get: string -> Result<string, string>): seq<string>
  {
    if ids == [] then []
    else Fetched(ids[..|ids| - 1], get) + (if get(ids[|ids| - 1]).Ok? then [get(ids[|ids| - 1]).value] else [])
  }

  /** The reasons of the ids `get` fails on, in order. */
  function GetFailures(ids: seq<string>, get: string -> Result<string, string>): seq<string>
  {
    if ids == [] then []
    else
      var id := ids[|ids| - 1];
      GetFailures(ids[..|ids| - 1], get) + (if get(id).Err? then [Reason(id, get(id).error)] else [])
  }

  /** The reasons of the listeners `destroySingle` fails on, in order. */
  function DestroyFailures(listeners: seq<string>, destroySingle: string -> Option<string>): seq<string>
  {
    if listeners == [] then []
    else
      var l := listeners[|listeners| - 1];
      DestroyFailures(listeners[..|listeners| - 1], destroySingle) +
      (if destroySingle(l).Some? then [Reason(l, destroySingle(l).value)] else [])
  }

  function GetCalls(ids: seq<string>): (calls: seq<DestroyCall>)
    ensures |calls| == |ids| && forall i :: 0 <= i < |ids| ==> calls[i] == GetListener(ids[i])
  {
    if ids == [] then [] else GetCalls(ids[..|ids| - 1]) + [GetListener(ids[|ids| - 1])]
  }

  function DestroyCalls(listeners: seq<string>): (calls: seq<DestroyCall>)
    ensures |calls| == |listeners| && forall i :: 0 <= i < |listeners| ==> calls[i] == DestroyListener(listeners[i])
  {
    if listeners == [] then [] else DestroyCalls(listeners[..|listeners| - 1]) + [DestroyListener(listeners[|listeners| - 1])]
  }

  /** Every failure of `DestroyMultiple`: the lookups first, then the destructions. */
  function Failures(ids: seq<string>, o: DestroyMultipleOptions): seq<string>
  {
    var distinct := Dedup.Distinct(ids);
    GetFailures(distinct, o.get) + DestroyFailures(Fetched(distinct, o.get), o.destroySingle)
  }

  /**
   * `DestroyMultiple`: one lookup per distinct id in first-occurrence
   * order, then one destruction per listener found; nil error exactly when
   * nothing failed, else every failure joined by ", ".
   */
  method DestroyMultiple(ids: seq<string>, o: DestroyMultipleOptions) returns (err: Option<string>)
    modifies o
    ensures var distinct := Dedup.Distinct(ids);
      o.calls == old(o.calls) + GetCalls(distinct) + DestroyCalls(Fetched(distinct, o.get))
    ensures err == if Failures(ids, o) == [] then None else Some(DestroyManyPrefix + Text.Join(Failures(ids, o), ", "))
  {
    var distincts := Dedup.Dedup(ids);
    var listeners, getErrs := FetchAll(distincts, o);
    var destroyErrs := DestroyAll(listeners, o);
    var errs := getErrs + destroyErrs;
    if |errs| > 0 {
      var reasons := JoinReasons(errs);
      return Some(DestroyManyPrefix + reasons);
    }
    return None;
  }

  /** The lookup loop of `DestroyMultiple`. */
  method FetchAll(ids: seq<string>, o: DestroyMultipleOptions) returns (listeners: seq<string>, errs: seq<string>)
    modifies o
    ensures o.calls == old(o.calls) + GetCalls(ids)
    ensures listeners == Fetched(ids, o.get) && errs == GetFailures(ids, o.get)
  {
    errs := [];
    listeners := [];
    for i := 0 to |ids|
      invariant o.calls == old(o.calls) + GetCalls(ids[..i])
      invariant listeners == Fetched(ids[..i], o.get)
      invariant errs == GetFailures(ids[..i], o.get)
    {
      assert ids[..i + 1][..i] == ids[..i];
      var lr := o.CallGet(ids[i]);
      if lr.Err? {
        errs := errs + [Reason(ids[i], lr.error)];
      } else {
        listeners := listeners + [lr.value];
      }
    }
    assert ids[..|ids|] == ids;
  }

  /** The destruction loop of `DestroyMultiple`. */
  method DestroyAll(listeners: seq<string>, o: DestroyMultipleOptions) returns (errs: seq<string>)
    modifies o
    ensures o.calls == old(o.calls) + DestroyCalls(listeners)
    ensures errs == DestroyFailures(listeners, o.destroySingle)
  {
    errs := [];
    for i := 0 to |listeners|
      invariant o.calls == old(o.calls) + DestroyCalls(listeners[..i])
      invariant errs == DestroyFailures(listeners[..i], o.destroySingle)
    {
      assert listeners[..i + 1][..i] == listeners[..i];
      var e := o.CallDestroySingle(listeners[i]);
      if e.Some? {
        errs := errs + [Reason(listeners[i], e.value)];
      }
    }
    assert listeners[..|listeners|] == listeners;
  }

  /** The reasons loop of `DestroyMultiple`: a separator after every reason but the last. */
  method JoinReasons(errs: seq<string>) returns (reasons: string)
    ensures reasons == Text.Join(errs, ", ")
  {
    reasons := "";
    for i := 0 to |errs|
      invariant i == 0 ==> reasons == ""
      invariant 0 < i < |errs| ==> reasons == Text.Join(errs[..i], ", ") + ", "
      invariant 0 < i == |errs| ==> reasons == Text.Join(errs, ", ")
    {
      reasons := reasons + errs[i];
      if i > 0 {
        Text.JoinAppend(errs[..i], errs[i], ", ");
        assert errs[..i] + [errs[i]] == errs[..i + 1];
      }
      assert i + 1 == |errs| ==> errs[..i + 1] == errs;
      if i != |errs| - 1 {
        reasons := reasons + ", ";
      }
    }
  }

  /** `DestroyMultiple` fails exactly when some lookup or some destruction fails. */
  lemma {:induction false} DestroyMultipleFails(ids: seq<string>, o: DestroyMultipleOptions)
    ensures Failures(ids, o) == [] <==>
      (forall id :: id in ids ==> o.get(id).Ok?) &&
      (forall l :: l in Fetched(Dedup.Distinct(ids), o.get) ==> o.destroySingle(l).None?)
  {
    Dedup.DistinctSameElements(ids);
    GetFailuresEmpty(Dedup.Distinct(ids), o.get);
    DestroyFailuresEmpty(Fetched(Dedup.Distinct(ids), o.get), o.destroySingle);
  }

  lemma {:induction false} GetFailuresEmpty(ids: seq<string>, get: string -> Result<string, string>)
    ensures GetFailures(ids, get) == [] <==> forall id :: id in ids ==> get(id).Ok?
    decreases |ids|
  {
    if ids != [] {
      GetFailuresEmpty(ids[..|ids| - 1], get);
      assert ids == ids[..|ids| - 1] + [ids[|ids| - 1]];
    }
  }

  lemma {:induction false} DestroyFailuresEmpty(listeners: seq<string>, destroySingle: string -> Option<string>)
    ensures DestroyFailures(listeners, destroySingle) == [] <==> forall l :: l in listeners ==> destroySingle(l).None?
    decreases |listeners|
  {
    if listeners != [] {
      DestroyFailuresEmpty(listeners[..|listeners| - 1], destroySingle);
      assert listeners == listeners[..|listeners| - 1] + [listeners[|listeners| - 1]];
    }
  }

  /** Every listener found is destroyed: `Fetched` holds the answer of each id `get` succeeds on, in order. */
  lemma {:induction false} FetchedComplete(ids: seq<string>, get: string -> Result<string, string>)
    ensures forall id :: id in ids && get(id).Ok? ==> get(id).value in Fetched(ids, get)
    ensures forall l :: l in Fetched(ids, get) ==> exists id :: id in ids && get(id) == Ok(l)
    decreases |ids|
  {
    if ids != [] {
      var p := ids[..|ids| - 1];
      FetchedComplete(p, get);
      assert ids == p + [ids[|ids| - 1]];
    }
  }

  /** The bodies of events, in order. */
  function Bodies(events: seq<Event>): (bodies: seq<string>)
    ensures |bodies| == |events| && forall i :: 0 <= i < |events| ==> bodies[i] == events[i].body
  {
    if events == [] then [] else Bodies(events[..|events| - 1]) + [events[|events| - 1].body]
  }

  /** The receipt handles of events, in order. */
  function Handles(events: seq<Event>): (handles: seq<string>)
    ensures |handles| == |events| && forall i :: 0 <= i < |events| ==> handles[i] == events[i].receiptHandle
  {
    if events == [] then [] else Handles(events[..|events| - 1]) + [events[|events| - 1].receiptHandle]
  }

  /**
   * `PollEvents`: receive once; when something arrived, delete exactly
   * those messages with one batch, handles in received order; return the
   * bodies in received order. Either failure is reported behind
   * "failed to poll events: " and returns no bodies.
   */
  method PollEvents(lr: ListenerTypes.Listener, waitTimeSeconds: int, maxNumberOfMessages: int)
    returns (r: Result<seq<string>, GoError>)
    requires IsInt32(waitTimeSeconds) && IsInt32(maxNumberOfMessages)
    modifies lr.opts
    ensures lr.queue.None? ==> lr.opts.calls == old(lr.opts.calls) && r == Err(Panic(NilDereference))
    ensures lr.queue.Some? ==>
      var c := ReceiveRequest(lr.queue.value, waitTimeSeconds, maxNumberOfMessages);
      match lr.opts.receiveMessage(c)
      case Err(e) =>
        lr.opts.calls == old(lr.opts.calls) + [c] && r == Err(Failure(PollFailedPrefix + ("failed to receive events: " + e)))
      case Ok(messages) =>
        var events := EventsOf(messages);
        var d := DeleteMessageBatch(lr.queue.value.queueUrl, BatchEntries(Handles(events)));
        if messages == [] then lr.opts.calls == old(lr.opts.calls) + [c] && r == Ok([])
        else
          && lr.opts.calls == old(lr.opts.calls) + [c, d]
          && r == if lr.opts.deleteMessageBatch(d).Some? then Err(Failure(PollFailedPrefix + ("failed to delete events: " + lr.opts.deleteMessageBatch(d).value)))
                  else Ok(Bodies(events))
  {
    var events := lr.ReceiveEvents(waitTimeSeconds, maxNumberOfMessages);
    if events.Err? {
      return Err(Wrap(PollFailedPrefix, events.error));
    }
    ghost var c := ReceiveRequest(lr.queue.value, waitTimeSeconds, maxNumberOfMessages);
    assert events.value == EventsOf(lr.opts.receiveMessage(c).value);
    r := DeleteReceived(lr, events.value);
  }

  /** The rest of `PollEvents` once `events` arrived: delete them if any, then return their bodies. */
  method DeleteReceived(lr: ListenerTypes.Listener, events: seq<Event>) returns (r: Result<seq<string>, GoError>)
    requires lr.queue.Some?
    modifies lr.opts
    ensures var d := DeleteMessageBatch(lr.queue.value.queueUrl, BatchEntries(Handles(events)));
      if events == [] then lr.opts.calls == old(lr.opts.calls) && r == Ok([])
      else
        && lr.opts.calls == old(lr.opts.calls) + [d]
        && r == if lr.opts.deleteMessageBatch(d).Some? then Err(Failure(PollFailedPrefix + ("failed to delete events: " + lr.opts.deleteMessageBatch(d).value)))
                else Ok(Bodies(events))
  {
    var handles, ret := Split(events);
    if |handles| > 0 {
      var err := lr.DeleteEvents(handles);
      if err.Some? {
        return Err(Wrap(PollFailedPrefix, err.value));
      }
    }
    return Ok(ret);
  }

  /** The loop of `PollEvents` that separates receipt handles from bodies. */
  method Split(events: seq<Event>) returns (handles: seq<string>, bodies: seq<string>)
    ensures handles == Handles(events) && bodies == Bodies(events)
  {
    handles := [];
    bodies := [];
    for i := 0 to |events|
      invariant handles == Handles(events[..i]) && bodies == Bodies(events[..i])
    {
      assert events[..i + 1][..i] == events[..i];
      handles := handles + [events[i].receiptHandle];
      bodies := bodies + [events[i].body];
    }
    assert events[..|events|] == events;
  }

  /** The bodies returned and the handles deleted are those of the received messages, index by index. */
  lemma PollEventsOrder(messages: seq<Message>)
    ensures |Bodies(EventsOf(messages))| == |messages| && |Handles(EventsOf(messages))| == |messages|
    ensures forall i :: 0 <= i < |messages| ==>
      Bodies(EventsOf(messages))[i] == EventRule.ToString(messages[i].body) &&
      BatchEntries(Handles(EventsOf(messages)))[i].receiptHandle == EventRule.ToString(messages[i].receiptHandle)
  {
  }
}
