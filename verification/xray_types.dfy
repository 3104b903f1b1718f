/**
 * The X-Ray trace data that the tree builder reads: traces made of
 * segments, segments holding nested subsegments, and trace links.
 * Only the fields the tree code reads are kept. Start times are an
 * ordered key (only their order matters).
 */
module Xray {
  import opened Wrappers

  /** A link to another trace; `referenceType` is "parent" or "child". */
  datatype Link = Link(traceId: string, id: string, referenceType: string)

  datatype Subsegment = Subsegment(id: string, links: seq<Link>, subsegments: seq<Subsegment>)

  datatype Segment = Segment(
    id: string,
    traceId: string,
    startTime: int,
    parentId: Option<string>,
    links: seq<Link>,
    subsegments: seq<Subsegment>)

  /** Id, duration and limit flag are optional pointers in the source. */
  datatype Trace = Trace(
    id: Option<string>,
    duration: Option<int>,
    limitExceeded: Option<bool>,
    segments: seq<Segment>)

  /** Every subsegment id nested, at any depth, in `subs`. */
  function SubIds(subs: seq<Subsegment>): set<string>
    decreases subs
  {
    if subs == [] then {}
    else
      var last := subs[|subs| - 1];
      SubIds(subs[..|subs| - 1]) + {last.id} + SubIds(last.subsegments)
  }

  /** The ids a segment answers to: its own and those of all its subsegments. */
  function OwnIds(s: Segment): set<string>
  {
    {s.id} + SubIds(s.subsegments)
  }
}
