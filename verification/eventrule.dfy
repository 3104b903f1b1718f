/**
 * EventBridge rules of a test harness (`internal/pkg/harness/resource/eventrule/eventrule.go`):
 * creating, describing and deleting a rule, and putting an SQS queue as
 * its target.
 *
 * The EventBridge client is an `EbClient` object: each API call appends
 * its request to `calls` and answers with the client's response function,
 * so contracts can say which calls happen and in what order. ARN parsing
 * belongs to the AWS SDK and is the parameter `parseArn`; the parse error
 * the source drops is not modelled.
 */
module EventRule {
  import opened Wrappers
  import opened Harness
  import Text
  import Dedup

  const RuleType := "AWS::Events::Rule"
  const MutuallyExclusive := "input, inputPath, and inputTransformer are mutually exclusive"

  datatype Rule = Rule(name: string, eventBusName: string, eventPattern: string, arn: Arn)

  /** A rule is reported by its name and its ARN. */
  function RuleResource(r: Rule): (res: Resource)
    ensures res.kind == RuleType && res.physicalId == r.name && res.arn == ArnString(r.arn)
  {
    Resource(RuleType, r.name, ArnString(r.arn))
  }

  /** The harness's own input transformer, as the caller gives it. */
  datatype InputTransformer = InputTransformer(inputTemplate: string, inputPathsMap: map<string, string>)

  /** EventBridge's input transformer, as it is sent. */
  datatype EbInputTransformer = EbInputTransformer(inputTemplate: Option<string>, inputPathsMap: map<string, string>)

  /** The fields of an EventBridge target that the harness sets. */
  datatype TargetFields = TargetFields(arn: Option<string>, id: Option<string>, input: Option<string>,
                                       inputPath: Option<string>, inputTransformer: Option<EbInputTransformer>)

  /** An EventBridge target under construction, filled in place. */
  class Target {
    var arn: Option<string>
    var id: Option<string>
    var input: Option<string>
    var inputPath: Option<string>
    var inputTransformer: Option<EbInputTransformer>

    constructor (arn: string, id: string)
      ensures Fields() == TargetFields(Some(arn), Some(id), None, None, None)
    {
      this.arn := Some(arn);
      this.id := Some(id);
      input := None;
      inputPath := None;
      inputTransformer := None;
    }

    function Fields(): TargetFields
      reads this
    {
      TargetFields(arn, id, input, inputPath, inputTransformer)
    }
  }

  datatype Tag = Tag(key: string, value: string)

  /** The EventBridge API calls a rule operation can make. */
  datatype EbCall =
    | PutRule(name: string, description: string, eventBusName: string, eventPattern: string, tags: seq<Tag>)
    | DescribeRule(name: string, eventBusName: string)
    | PutTargets(rule: string, eventBusName: string, targets: seq<TargetFields>)
    | ListTargetsByRule(rule: string, eventBusName: string)
    | RemoveTargets(ids: seq<string>, rule: string, eventBusName: string)
    | DeleteRule(name: string, eventBusName: string)

  /** What DescribeRule answers with. */
  datatype RuleDescription = RuleDescription(arn: Option<string>, eventPattern: Option<string>)

  /**
   * An EventBridge client. Its responses are functions of the request;
   * `calls` is the log of every request made through it.
   */
  class EbClient {
    var calls: seq<EbCall>
    const putRule: EbCall -> Result<Option<string>, string>
    const describeRule: EbCall -> Result<RuleDescription, string>
    const putTargets: EbCall -> Option<string>
    const listTargetsByRule: EbCall -> Result<seq<Option<string>>, string>
    const removeTargets: EbCall -> Option<string>
    const deleteRule: EbCall -> Option<string>

    constructor (putRule: EbCall -> Result<Option<string>, string>,
                 describeRule: EbCall -> Result<RuleDescription, string>,
                 putTargets: EbCall -> Option<string>,
                 listTargetsByRule: EbCall -> Result<seq<Option<string>>, string>,
                 removeTargets: EbCall -> Option<string>,
                 deleteRule: EbCall -> Option<string>)
      ensures calls == []
      ensures this.putRule == putRule && this.describeRule == describeRule && this.putTargets == putTargets
      ensures this.listTargetsByRule == listTargetsByRule && this.removeTargets == removeTargets
      ensures this.deleteRule == deleteRule
    {
      calls := [];
      this.putRule := putRule;
      this.describeRule := describeRule;
      this.putTargets := putTargets;
      this.listTargetsByRule := listTargetsByRule;
      this.removeTargets := removeTargets;
      this.deleteRule := deleteRule;
    }

    /** PutRule: answers with the new rule's ARN, if any. */
    method CallPutRule(c: EbCall) returns (r: Result<Option<string>, string>)
      requires c.PutRule?
      modifies this
      ensures calls == old(calls) + [c] && r == putRule(c)
    {
      calls := calls + [c];
      r := putRule(c);
    }

    method CallDescribeRule(c: EbCall) returns (r: Result<RuleDescription, string>)
      requires c.DescribeRule?
      modifies this
      ensures calls == old(calls) + [c] && r == describeRule(c)
    {
      calls := calls + [c];
      r := describeRule(c);
    }

    method CallPutTargets(c: EbCall) returns (err: Option<string>)
      requires c.PutTargets?
      modifies this
      ensures calls == old(calls) + [c] && err == putTargets(c)
    {
      calls := calls + [c];
      err := putTargets(c);
    }

    /** ListTargetsByRule: answers with the target ids, each possibly nil. */
    method CallListTargetsByRule(c: EbCall) returns (r: Result<seq<Option<string>>, string>)
      requires c.ListTargetsByRule?
      modifies this
      ensures calls == old(calls) + [c] && r == listTargetsByRule(c)
    {
      calls := calls + [c];
      r := listTargetsByRule(c);
    }

    method CallRemoveTargets(c: EbCall) returns (err: Option<string>)
      requires c.RemoveTargets?
      modifies this
      ensures calls == old(calls) + [c] && err == removeTargets(c)
    {
      calls := calls + [c];
      err := removeTargets(c);
    }

    method CallDeleteRule(c: EbCall) returns (err: Option<string>)
      requires c.DeleteRule?
      modifies this
      ensures calls == old(calls) + [c] && err == deleteRule(c)
    {
      calls := calls + [c];
      err := deleteRule(c);
    }
  }

  /** `aws.ToString`: nil is the empty string. */
  function ToString(s: Option<string>): string
  {
    if s.Some? then s.value else ""
  }

  /** The keys of `tags`, in order. */
  function Keys(tags: seq<Tag>): (keys: seq<string>)
    ensures |keys| == |tags| && forall i :: 0 <= i < |tags| ==> keys[i] == tags[i].key
  {
    if tags == [] then [] else Keys(tags[..|tags| - 1]) + [tags[|tags| - 1].key]
  }

  /** `tags` lists each entry of `m` once, with its key and value. */
  predicate Enumerates(tags: seq<Tag>, m: map<string, string>)
  {
    && (forall i :: 0 <= i < |tags| ==> tags[i].key in m && m[tags[i].key] == tags[i].value)
    && (forall k :: k in m ==> k in Keys(tags))
    && Dedup.NoDuplicates(Keys(tags))
  }

  /** An enumeration of a map has exactly one tag per entry. */
  lemma EnumerationSize(tags: seq<Tag>, m: map<string, string>)
    requires Enumerates(tags, m)
    ensures |tags| == |m|
  {
    Dedup.NoDuplicatesCardinality(Keys(tags));
    assert (set x | x in Keys(tags)) == m.Keys;
  }

  /** `tagsToEBTags`: one tag per entry, in map order. */
  method TagsToEbTags(m: map<string, string>) returns (tags: seq<Tag>)
    ensures Enumerates(tags, m)
  {
    tags := [];
    var todo := m.Keys;
    while todo != {}
      invariant todo <= m.Keys
      invariant forall i :: 0 <= i < |tags| ==> tags[i].key in m && tags[i].key !in todo && m[tags[i].key] == tags[i].value
      invariant forall k :: k in m && k !in todo ==> k in Keys(tags)
      invariant Dedup.NoDuplicates(Keys(tags))
      decreases todo
    {
      var key :| key in todo;
      todo := todo - {key};
      ghost var old_tags := tags;
      tags := tags + [Tag(key, m[key])];
      assert tags[..|tags| - 1] == old_tags;
    }
  }

  /** `Create`: PutRule once; the rule echoes the given name, bus and pattern. */
  method Create(api: EbClient, parseArn: string -> Arn, ruleName: string, eventBusName: string,
                eventPattern: string, description: string, tags: map<string, string>)
    returns (r: Result<Rule, string>)
    modifies api
    ensures |api.calls| == |old(api.calls)| + 1 && api.calls[..|old(api.calls)|] == old(api.calls)
    ensures var c := api.calls[|api.calls| - 1];
      && c.PutRule? && c == PutRule(ruleName, description, eventBusName, eventPattern, c.tags)
      && Enumerates(c.tags, tags)
      && r == (match api.putRule(c)
               case Err(e) => Err("put rule " + Text.Quote(ruleName) + " failed: " + e)
               case Ok(arn) => Ok(Rule(ruleName, eventBusName, eventPattern, parseArn(ToString(arn)))))
  {
    var ebTags := TagsToEbTags(tags);
    var output := api.CallPutRule(PutRule(ruleName, description, eventBusName, eventPattern, ebTags));
    if output.Err? {
      return Err("put rule " + Text.Quote(ruleName) + " failed: " + output.error);
    }
    return Ok(Rule(ruleName, eventBusName, eventPattern, parseArn(ToString(output.value))));
  }

  /** `Get`: DescribeRule once; the rule echoes name and bus and takes its pattern from the answer. */
  method Get(api: EbClient, parseArn: string -> Arn, ruleName: string, eventBusName: string)
    returns (r: Result<Rule, string>)
    modifies api
    ensures api.calls == old(api.calls) + [DescribeRule(ruleName, eventBusName)]
    ensures r == match api.describeRule(DescribeRule(ruleName, eventBusName))
      case Err(e) => Err("failed to describe rule " + Text.Quote(ruleName) + " of event bus " + Text.Quote(eventBusName) + ": " + e)
      case Ok(d) => Ok(Rule(ruleName, eventBusName, ToString(d.eventPattern), parseArn(ToString(d.arn))))
  {
    var output := api.CallDescribeRule(DescribeRule(ruleName, eventBusName));
    if output.Err? {
      return Err("failed to describe rule " + Text.Quote(ruleName) + " of event bus " + Text.Quote(eventBusName) + ": " + output.error);
    }
    return Ok(Rule(ruleName, eventBusName, ToString(output.value.eventPattern), parseArn(ToString(output.value.arn))));
  }

  /** How many of input, inputPath and inputTransformer are given. */
  function Given(input: string, inputPath: string, transformer: Option<InputTransformer>): nat
  {
    (if input != "" then 1 else 0) + (if inputPath != "" then 1 else 0) + (if transformer.Some? then 1 else 0)
  }

  /** The target with the given input options written in. */
  function Transformed(t: TargetFields, input: string, inputPath: string, transformer: Option<InputTransformer>): TargetFields
  {
    t.(input := if input != "" then Some(input) else t.input,
       inputPath := if inputPath != "" then Some(inputPath) else t.inputPath,
       inputTransformer := if transformer.Some? then
                             Some(EbInputTransformer(Some(transformer.value.inputTemplate), transformer.value.inputPathsMap))
                           else t.inputTransformer)
  }

  /**
   * `setInputTraansformation`: refuses two or more of the options and then
   * leaves the target alone; otherwise writes in the one given, if any.
   */
  method SetInputTransformation(target: Target, input: string, inputPath: string, transformer: Option<InputTransformer>)
    returns (err: Option<string>)
    modifies target
    ensures err.Some? <==> Given(input, inputPath, transformer) >= 2
    ensures err.Some? ==> err.value == MutuallyExclusive && target.Fields() == old(target.Fields())
    ensures err.None? ==> target.Fields() == Transformed(old(target.Fields()), input, inputPath, transformer)
  {
    if (input != "" && inputPath != "") || (input != "" && transformer.Some?) || (inputPath != "" && transformer.Some?) {
      return Some(MutuallyExclusive);
    }
    if input != "" {
      target.input := Some(input);
    }
    if inputPath != "" {
      target.inputPath := Some(inputPath);
    }
    if transformer.Some? {
      target.inputTransformer := Some(EbInputTransformer(Some(transformer.value.inputTemplate), transformer.value.inputPathsMap));
    }
    return None;
  }

  /** With no option given the target is unchanged; with one, only its field changes. */
  lemma TransformedOnlyGiven(t: TargetFields, input: string, inputPath: string, transformer: Option<InputTransformer>)
    requires Given(input, inputPath, transformer) <= 1
    ensures Given(input, inputPath, transformer) == 0 ==> Transformed(t, input, inputPath, transformer) == t
    ensures input != "" ==> Transformed(t, input, inputPath, transformer) == t.(input := Some(input))
    ensures inputPath != "" ==> Transformed(t, input, inputPath, transformer) == t.(inputPath := Some(inputPath))
    ensures transformer.Some? ==>
      Transformed(t, input, inputPath, transformer) == t.(inputTransformer := Some(EbInputTransformer(Some(transformer.value.inputTemplate), transformer.value.inputPathsMap)))
  {
  }

  /** The target `PutQueueTarget` sends: the queue's ARN, the listener's id and the input options. */
  function QueueTarget(listenerId: string, queue: Queue, input: string, inputPath: string, transformer: Option<InputTransformer>): TargetFields
  {
    Transformed(TargetFields(Some(ArnString(queue.arn)), Some(listenerId), None, None, None), input, inputPath, transformer)
  }

  /**
   * `PutQueueTarget`: the option check comes first and, when it fails,
   * no call is made; otherwise one PutTargets call with the single queue
   * target.
   */
  method PutQueueTarget(api: EbClient, listenerId: string, queue: Queue, rule: Rule,
                        input: string, inputPath: string, transformer: Option<InputTransformer>)
    returns (err: Option<string>)
    modifies api
    ensures Given(input, inputPath, transformer) >= 2 ==> api.calls == old(api.calls) && err == Some(MutuallyExclusive)
    ensures Given(input, inputPath, transformer) < 2 ==>
      var c := PutTargets(rule.name, rule.eventBusName, [QueueTarget(listenerId, queue, input, inputPath, transformer)]);
      && api.calls == old(api.calls) + [c]
      && err == (if api.putTargets(c).Some? then Some("put rule target failed: " + api.putTargets(c).value) else None)
  {
    var target := new Target(ArnString(queue.arn), listenerId);
    var e := SetInputTransformation(target, input, inputPath, transformer);
    if e.Some? {
      return e;
    }
    var res := api.CallPutTargets(PutTargets(rule.name, rule.eventBusName, [target.Fields()]));
    if res.Some? {
      return Some("put rule target failed: " + res.value);
    }
    return None;
  }

  /** The error `Delete` returns for a failed step. */
  function DeleteFailed(ruleName: string, e: string): string
  {
    "failed to delete rule " + Text.Quote(ruleName) + ": " + e
  }

  /** The ids of listed targets, nil ids read as "". */
  function TargetIds(targets: seq<Option<string>>): (ids: seq<string>)
    ensures |ids| == |targets|
    ensures forall i :: 0 <= i < |ids| ==> ids[i] == ToString(targets[i])
  {
    if targets == [] then [] else TargetIds(targets[..|targets| - 1]) + [ToString(targets[|targets| - 1])]
  }

  /** The calls `Delete` makes and the error it returns, given the client's answers. */
  function DeleteSteps(api: EbClient, eventBusName: string, ruleName: string): (seq<EbCall>, Option<string>)
  {
    var list := ListTargetsByRule(ruleName, eventBusName);
    match api.listTargetsByRule(list)
    case Err(e) => ([list], Some(DeleteFailed(ruleName, e)))
    case Ok(targets) =>
      var ids := TargetIds(targets);
      var remove := RemoveTargets(ids, ruleName, eventBusName);
      if ids != [] && api.removeTargets(remove).Some? then
        ([list, remove], Some(DeleteFailed(ruleName, api.removeTargets(remove).value)))
      else
        var removed := if ids != [] then [list, remove] else [list];
        var delete := DeleteRule(ruleName, eventBusName);
        (removed + [delete],
         if api.deleteRule(delete).Some? then Some(DeleteFailed(ruleName, api.deleteRule(delete).value)) else None)
  }

  /** `Delete`. */
  method Delete(api: EbClient, eventBusName: string, ruleName: string) returns (err: Option<string>)
    modifies api
    ensures api.calls == old(api.calls) + DeleteSteps(api, eventBusName, ruleName).0
    ensures err == DeleteSteps(api, eventBusName, ruleName).1
  {
    var targets := api.CallListTargetsByRule(ListTargetsByRule(ruleName, eventBusName));
    if targets.Err? {
      return Some(DeleteFailed(ruleName, targets.error));
    }
    var ids: seq<string> := [];
    for i := 0 to |targets.value|
      invariant ids == TargetIds(targets.value[..i])
    {
      assert targets.value[..i + 1][..i] == targets.value[..i];
      ids := ids + [ToString(targets.value[i])];
    }
    assert targets.value[..|targets.value|] == targets.value;
    if |ids| > 0 {
      var e := api.CallRemoveTargets(RemoveTargets(ids, ruleName, eventBusName));
      if e.Some? {
        return Some(DeleteFailed(ruleName, e.value));
      }
    }
    var e := api.CallDeleteRule(DeleteRule(ruleName, eventBusName));
    if e.Some? {
      return Some(DeleteFailed(ruleName, e.value));
    }
    return None;
  }

  /**
   * The order `Delete` promises: the targets are listed first; RemoveTargets
   * is called, with every listed id in order, exactly when the listing
   * succeeded with at least one target; DeleteRule comes last and only
   * after the targets are gone; and every error carries the rule's name.
   */
  lemma DeleteOrder(api: EbClient, eventBusName: string, ruleName: string)
    ensures var (calls, err) := DeleteSteps(api, eventBusName, ruleName);
      && calls != [] && calls[0] == ListTargetsByRule(ruleName, eventBusName)
      && ((exists c :: c in calls && c.RemoveTargets?) <==>
          (api.listTargetsByRule(calls[0]).Ok? && api.listTargetsByRule(calls[0]).value != []))
      && (forall c :: c in calls && c.RemoveTargets? ==>
            c == RemoveTargets(TargetIds(api.listTargetsByRule(calls[0]).value), ruleName, eventBusName))
      && (DeleteRule(ruleName, eventBusName) in calls ==> calls[|calls| - 1] == DeleteRule(ruleName, eventBusName))
      && (err.None? <==> DeleteRule(ruleName, eventBusName) in calls && api.deleteRule(DeleteRule(ruleName, eventBusName)).None?)
      && (err.Some? ==> Text.HasPrefix(err.value, "failed to delete rule " + Text.Quote(ruleName) + ": "))
  {
    var list := ListTargetsByRule(ruleName, eventBusName);
    var calls := DeleteSteps(api, eventBusName, ruleName).0;
    if api.listTargetsByRule(list).Ok? {
      var targets := api.listTargetsByRule(list).value;
      var ids := TargetIds(targets);
      assert ids == [] <==> targets == [];
      var remove := RemoveTargets(ids, ruleName, eventBusName);
      if ids != [] {
        assert calls[1] == remove;
      }
    }
  }
}
