/**
 * The resource records the test harness reports (`internal/pkg/harness/types.go`)
 * and the AWS resources its listeners are built from: ARNs, SQS queues
 * and event buses.
 */
module Harness {

  /** `harness.Resource`: what a component of a test harness is reported as. */
  datatype Resource = Resource(kind: string, physicalId: string, arn: string)

  /** An Amazon Resource Name, split into its sections. */
  datatype Arn = Arn(partition: string, service: string, region: string, accountId: string, resource: string)

  /** The text form of an ARN: its five sections after "arn:", separated by colons. */
  function ArnString(a: Arn): (s: string)
    ensures |s| == 8 + |a.partition| + |a.service| + |a.region| + |a.accountId| + |a.resource|
    ensures s[..4] == "arn:"
  {
    "arn:" + (a.partition + (":" + (a.service + (":" + (a.region + (":" + (a.accountId + (":" + a.resource))))))))
  }

  predicate NoColon(s: string)
  {
    forall i :: 0 <= i < |s| ==> s[i] != ':'
  }

  /** An ARN whose first four sections hold no colon; the resource section may. */
  predicate WellFormed(a: Arn)
  {
    NoColon(a.partition) && NoColon(a.service) && NoColon(a.region) && NoColon(a.accountId)
  }

  /** A section without colons is recovered from the text that follows it up to the next colon. */
  lemma SectionDetermined(x: string, r: string, y: string, t: string)
    requires NoColon(x) && NoColon(y) && x + (":" + r) == y + (":" + t)
    ensures x == y && r == t
  {
    var u := x + (":" + r);
    assert u[|x|] == ':';
    assert (y + (":" + t))[|y|] == ':';
    assert |x| == |y|;
    assert x == u[..|x|];
    assert y == (y + (":" + t))[..|y|];
    assert r == u[|x| + 1..];
    assert t == (y + (":" + t))[|y| + 1..];
  }

  /** Two well-formed ARNs with the same text are the same ARN. */
  lemma ArnStringInjective(a: Arn, b: Arn)
    requires WellFormed(a) && WellFormed(b) && ArnString(a) == ArnString(b)
    ensures a == b
  {
    var ta := a.accountId + (":" + a.resource);
    var tb := b.accountId + (":" + b.resource);
    var sa := a.region + (":" + ta);
    var sb := b.region + (":" + tb);
    var ra := a.service + (":" + sa);
    var rb := b.service + (":" + sb);
    assert ArnString(a)[4..] == a.partition + (":" + ra);
    assert ArnString(b)[4..] == b.partition + (":" + rb);
    SectionDetermined(a.partition, ra, b.partition, rb);
    SectionDetermined(a.service, sa, b.service, sb);
    SectionDetermined(a.region, ta, b.region, tb);
    SectionDetermined(a.accountId, a.resource, b.accountId, b.resource);
  }

  const QueueType := "AWS::SQS::Queue"
  const EventBusType := "AWS::Events::EventBus"

  datatype Queue = Queue(name: string, queueUrl: string, arn: Arn)

  /** A queue is reported by its URL, as an SQS queue with the text of its ARN. */
  function QueueResource(q: Queue): (r: Resource)
    ensures r.kind == QueueType && r.physicalId == q.queueUrl
    ensures |r.arn| >= 8 && r.arn[..4] == "arn:"
  {
    Resource(QueueType, q.queueUrl, ArnString(q.arn))
  }

  /** The record of a queue with a well-formed ARN determines its URL and its ARN. */
  lemma QueueResourceIdentifies(q: Queue, q': Queue)
    requires WellFormed(q.arn) && WellFormed(q'.arn) && QueueResource(q) == QueueResource(q')
    ensures q.queueUrl == q'.queueUrl && q.arn == q'.arn
  {
    ArnStringInjective(q.arn, q'.arn);
  }

  datatype EventBus = EventBus(name: string, arn: Arn)

  /** An event bus is reported by its name, as an event bus with the text of its ARN. */
  function EventBusResource(b: EventBus): (r: Resource)
    ensures r.kind == EventBusType && r.physicalId == b.name
    ensures |r.arn| >= 8 && r.arn[..4] == "arn:"
  {
    Resource(EventBusType, b.name, ArnString(b.arn))
  }

  /** Two event buses with well-formed ARNs are reported alike only when they are the same bus. */
  lemma EventBusResourceIdentifies(b: EventBus, b': EventBus)
    requires WellFormed(b.arn) && WellFormed(b'.arn) && EventBusResource(b) == EventBusResource(b')
    ensures b == b'
  {
    ArnStringInjective(b.arn, b'.arn);
  }
}
