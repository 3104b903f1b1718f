/**
 * The `zion` Python client's decoding of X-Ray trace trees (`zion.xray`):
 * plain JSON dicts become Segment, Subsegment, Trace and Tree values with
 * defaults for missing keys, and equality compares identifiers only.
 *
 * A decoder that raises in Python (a KeyError for a required key, a
 * ValueError for an unknown reference type, an AttributeError or
 * TypeError for a value of the wrong shape) yields `None` here.
 */
module ZionXray {
  import opened Wrappers
  import opened Json

  /** `ReferenceType`: the two values of the link reference enum. */
  datatype ReferenceType = Parent | Child

  function ReferenceTypeName(t: ReferenceType): string
  {
    match t
    case Parent => "parent"
    case Child => "child"
  }

  /** `ReferenceType(value)`: only the two enum values convert. */
  function DecodeReferenceType(v: Json): (r: Option<ReferenceType>)
    ensures r == Some(Parent) <==> v == JStr("parent")
    ensures r == Some(Child) <==> v == JStr("child")
    ensures r.None? <==> v != JStr("parent") && v != JStr("child")
  {
    if v == JStr("parent") then Some(Parent)
    else if v == JStr("child") then Some(Child)
    else None
  }

  /** Every reference type converts back from its own name. */
  lemma ReferenceTypeRoundTrip(t: ReferenceType)
    ensures DecodeReferenceType(JStr(ReferenceTypeName(t))) == Some(t)
  {
  }

  const ReferenceTypeKey := "aws.xray.reserved.reference_type"

  /** `input_dict[key]`: the value under a key every caller must supply. */
  function Required(v: Json, key: string): (r: Option<Json>)
    ensures r.Some? <==> v.JObj? && key in v.fields
    ensures r.Some? ==> r.value == v.fields[key]
  {
    if v.JObj? && key in v.fields then Some(v.fields[key]) else None
  }

  /** A link; the trace id and the link id are kept as given. */
  datatype Link = Link(traceId: Json, id: Json, referenceType: ReferenceType)

  /** `Link.__init__` with `LinkAttributes.__init__`: all three keys are required. */
  function DecodeLink(v: Json): (r: Option<Link>)
    ensures r.Some? <==> v.JObj? && "trace_id" in v.fields && "id" in v.fields && "attributes" in v.fields &&
                         v.fields["attributes"].JObj? && ReferenceTypeKey in v.fields["attributes"].fields &&
                         DecodeReferenceType(v.fields["attributes"].fields[ReferenceTypeKey]).Some?
    ensures r.Some? ==> r.value.traceId == v.fields["trace_id"] && r.value.id == v.fields["id"]
  {
    match (Required(v, "trace_id"), Required(v, "id"), Required(v, "attributes"))
    case (Some(traceId), Some(id), Some(attributes)) =>
      (match Required(attributes, ReferenceTypeKey)
       case Some(t) =>
         (match DecodeReferenceType(t)
          case Some(rt) => Some(Link(traceId, id, rt))
          case None => None)
       case None => None)
    case _ => None
  }

  function EncodeLink(l: Link): Json
  {
    JObj(map["trace_id" := l.traceId, "id" := l.id,
             "attributes" := JObj(map[ReferenceTypeKey := JStr(ReferenceTypeName(l.referenceType))])])
  }

  /** Decoding an encoded link gives the link back. */
  lemma LinkRoundTrip(l: Link)
    ensures DecodeLink(EncodeLink(l)) == Some(l)
  {
    ReferenceTypeRoundTrip(l.referenceType);
  }

  /** All decodings succeed: the decoded values in order, or None. */
  function AllSome<T>(rs: seq<Option<T>>): (r: Option<seq<T>>)
    ensures r.Some? <==> forall i :: 0 <= i < |rs| ==> rs[i].Some?
    ensures r.Some? ==> |r.value| == |rs| && forall i :: 0 <= i < |rs| ==> r.value[i] == rs[i].value
  {
    if rs == [] then Some([])
    else
      match (rs[0], AllSome(rs[1..]))
      case (Some(x), Some(xs)) => Some([x] + xs)
      case _ => None
  }

  /** A list of successes collects into the list of their values. */
  lemma AllSomeOfSomes<T>(rs: seq<Option<T>>, xs: seq<T>)
    requires |rs| == |xs| && forall i :: 0 <= i < |rs| ==> rs[i] == Some(xs[i])
    ensures AllSome(rs) == Some(xs)
  {
    var r := AllSome(rs);
    assert r.Some?;
    assert r.value == xs;
  }

  /**
   * A list-valued field iterated by a comprehension: a missing key gives
   * the default, a JSON list its items, and any other value raises.
   */
  function ListOr(d: map<string, Json>, key: string, default: seq<Json>): (r: Option<seq<Json>>)
    ensures key !in d ==> r == Some(default)
    ensures key in d ==> (r.Some? <==> d[key].JArr?)
    ensures key in d && d[key].JArr? ==> r == Some(d[key].items)
  {
    if key !in d then Some(default)
    else if d[key].JArr? then Some(d[key].items)
    else None
  }

  /** `Cause`: the working directory, the library paths and the exception records. */
  datatype Cause = Cause(workingDirectory: Json, paths: seq<Json>, exceptions: seq<map<string, Json>>)

  /** `Cause.__init__`: every key is optional; each exception must be a dict. */
  function DecodeCauseRecord(d: map<string, Json>): (r: Option<Cause>)
    ensures r.Some? <==> ListOr(d, "paths", []).Some? && ListOr(d, "exceptions", []).Some? &&
                         forall i :: 0 <= i < |ListOr(d, "exceptions", []).value| ==> ListOr(d, "exceptions", []).value[i].JObj?
    ensures r.Some? ==> r.value.workingDirectory == GetOr(d, "working_directory", JStr("")) &&
                        r.value.paths == ListOr(d, "paths", []).value &&
                        |r.value.exceptions| == |ListOr(d, "exceptions", []).value| &&
                        forall i :: 0 <= i < |r.value.exceptions| ==> r.value.exceptions[i] == ListOr(d, "exceptions", []).value[i].fields
  {
    match (ListOr(d, "paths", []), ListOr(d, "exceptions", []))
    case (Some(paths), Some(exceptions)) =>
      if forall i :: 0 <= i < |exceptions| ==> exceptions[i].JObj? then
        Some(Cause(GetOr(d, "working_directory", JStr("")), paths,
                   seq(|exceptions|, i requires 0 <= i < |exceptions| => exceptions[i].fields)))
      else None
    case _ => None
  }

  /** The `cause` attribute of a segment. */
  datatype CauseValue = NoCause | CauseId(exceptionId: string) | Structured(cause: Cause)

  /** A falsy cause is dropped, a string is an exception id, a dict a structured cause. */
  function DecodeCause(v: Json): (r: Option<CauseValue>)
    ensures !Truthy(v) ==> r == Some(NoCause)
    ensures Truthy(v) && v.JStr? ==> r == Some(CauseId(v.s))
    ensures r.Some? && r.value.Structured? ==> v.JObj? && v.fields != map[]
    ensures r.None? <==> (Truthy(v) && !v.JStr? && !v.JObj?) || (v.JObj? && v.fields != map[] && DecodeCauseRecord(v.fields).None?)
  {
    if !Truthy(v) then Some(NoCause)
    else if v.JStr? then Some(CauseId(v.s))
    else if v.JObj? then
      match DecodeCauseRecord(v.fields)
      case Some(c) => Some(Structured(c))
      case None => None
    else None
  }

  /** Whether a record was built by `Segment` or by `Subsegment`. */
  datatype Kind = SegmentKind | SubsegmentKind

  /** The keys each class reads with a plain `.get`, which gives None when absent. */
  function ScalarKeys(kind: Kind): set<string>
  {
    match kind
    case SegmentKind =>
      {"end_time", "in_progress", "service", "user", "origin", "parent_id", "error", "throttle", "fault",
       "aws", "annotations", "metadata"}
    case SubsegmentKind =>
      {"end_time", "in_progress", "parent_id", "type", "error", "throttle", "fault", "namespace", "traced",
       "precursor_ids", "aws", "annotations", "metadata"}
  }

  /**
   * A decoded segment or subsegment. `scalars` holds the fields read with
   * a plain `.get`, keyed by their JSON name.
   */
  datatype Segment = Segment(kind: Kind, id: Json, name: Json, traceId: Json, startTime: Json,
                             scalars: map<string, Json>, cause: CauseValue,
                             subsegments: Nested, links: Option<seq<Link>>)

  /** The `subsegments` attribute: None when the key is absent, else the decoded list. */
  datatype Nested = Absent | Present(items: seq<Segment>)

  /**
   * `Segment.__init__` and `Subsegment.__init__`: id, name and trace_id
   * default to "", start_time to 0, the other scalars to None; nested
   * subsegments are built by the same class (`self.__class__`), links are
   * decoded in order, and both lists are None when their key is absent.
   */
  function DecodeSegment(kind: Kind, v: Json): (r: Option<Segment>)
    ensures r.Some? ==> v.JObj?
    ensures r.Some? ==> r.value.kind == kind && r.value.scalars.Keys == ScalarKeys(kind)
    ensures r.Some? ==> r.value.id == GetOr(v.fields, "id", JStr("")) && r.value.name == GetOr(v.fields, "name", JStr("")) &&
                        r.value.traceId == GetOr(v.fields, "trace_id", JStr("")) &&
                        r.value.startTime == GetOr(v.fields, "start_time", JNum(0))
    ensures r.Some? ==> forall k :: k in ScalarKeys(kind) ==> r.value.scalars[k] == Get(v.fields, k)
    ensures r.Some? ==> Some(r.value.cause) == DecodeCause(Get(v.fields, "cause"))
    ensures r.Some? ==> Some(r.value.subsegments) == DecodeNested(kind, v)
    ensures r.Some? ==> Some(r.value.links) == DecodeLinks(v.fields)
    decreases v, 1
  {
    if !v.JObj? then None
    else
      var d := v.fields;
      match (DecodeCause(Get(d, "cause")), DecodeNested(kind, v), DecodeLinks(d))
      case (Some(cause), Some(subs), Some(ls)) =>
        Some(Segment(kind, GetOr(d, "id", JStr("")), GetOr(d, "name", JStr("")), GetOr(d, "trace_id", JStr("")),
                     GetOr(d, "start_time", JNum(0)), map k | k in ScalarKeys(kind) :: Get(d, k), cause, subs, ls))
      case _ => None
  }

  /**
   * `[self.__class__(s) for s in input_dict["subsegments"]] if "subsegments"
   * in input_dict else None`: the nested records are of the same class.
   */
  function DecodeNested(kind: Kind, v: Json): (r: Option<Nested>)
    requires v.JObj?
    ensures r == Some(Absent) <==> "subsegments" !in v.fields
    ensures r.Some? && r.value.Present? ==>
      v.fields["subsegments"].JArr? && |r.value.items| == |v.fields["subsegments"].items| &&
      forall i :: 0 <= i < |r.value.items| ==>
        r.value.items[i].kind == kind && Some(r.value.items[i]) == DecodeSegment(kind, v.fields["subsegments"].items[i])
    decreases v, 0
  {
    var d := v.fields;
    if "subsegments" !in d then Some(Absent)
    else if !d["subsegments"].JArr? then None
    else
      var items := d["subsegments"].items;
      match AllSome(seq(|items|, i requires 0 <= i < |items| => DecodeSegment(kind, items[i])))
      case Some(ss) => Some(Present(ss))
      case None => None
  }

  /** `[Link(l) for l in input_dict["links"]] if "links" in input_dict else None`. */
  function DecodeLinks(d: map<string, Json>): (r: Option<Option<seq<Link>>>)
    ensures r == Some(None) <==> "links" !in d
    ensures r.Some? && r.value.Some? ==>
      d["links"].JArr? && |r.value.value| == |d["links"].items| &&
      forall i :: 0 <= i < |r.value.value| ==> Some(r.value.value[i]) == DecodeLink(d["links"].items[i])
  {
    if "links" !in d then Some(None)
    else if !d["links"].JArr? then None
    else
      var items := d["links"].items;
      match AllSome(seq(|items|, i requires 0 <= i < |items| => DecodeLink(items[i])))
      case Some(ls) => Some(Some(ls))
      case None => None
  }

  /** `Segment.__eq__` and `Subsegment.__eq__`: equal ids and trace ids. */
  predicate SameSegment(a: Segment, b: Segment)
  {
    a.id == b.id && a.traceId == b.traceId
  }

  /**
   * Two decoded segments are equal exactly when their dicts carry the
   * same id and trace id (after defaulting), whatever else they hold.
   */
  lemma DecodedSegmentEquality(kind: Kind, v: Json, w: Json)
    requires DecodeSegment(kind, v).Some? && DecodeSegment(kind, w).Some?
    ensures SameSegment(DecodeSegment(kind, v).value, DecodeSegment(kind, w).value) <==>
      GetOr(v.fields, "id", JStr("")) == GetOr(w.fields, "id", JStr("")) &&
      GetOr(v.fields, "trace_id", JStr("")) == GetOr(w.fields, "trace_id", JStr(""))
  {
  }

  /** The values the decoder can produce: the shape `DecodeSegment` guarantees. */
  predicate WellFormedSegment(s: Segment)
    decreases s
  {
    && s.scalars.Keys == ScalarKeys(s.kind)
    && (s.cause.CauseId? ==> s.cause.exceptionId != "")
    && (s.subsegments.Present? ==>
          forall i :: 0 <= i < |s.subsegments.items| ==>
            s.subsegments.items[i].kind == s.kind && WellFormedSegment(s.subsegments.items[i]))
  }

  function EncodeCause(c: CauseValue): Json
  {
    match c
    case NoCause => JNull
    case CauseId(id) => JStr(id)
    case Structured(cause) =>
      JObj(map["working_directory" := cause.workingDirectory, "paths" := JArr(cause.paths),
               "exceptions" := JArr(seq(|cause.exceptions|, i requires 0 <= i < |cause.exceptions| => JObj(cause.exceptions[i])))])
  }

  /** Writing a segment back as a dict, with every key present. */
  function EncodeSegment(s: Segment): Json
    decreases s, 1
  {
    JObj(s.scalars + StructuralFields(s))
  }

  /** The keys of an encoded segment other than its scalars. */
  function StructuralFields(s: Segment): map<string, Json>
    decreases s, 0
  {
    var base := map["id" := s.id, "name" := s.name, "trace_id" := s.traceId, "start_time" := s.startTime,
                    "cause" := EncodeCause(s.cause)];
    var withSubs := match s.subsegments
      case Absent => base
      case Present(subs) => base["subsegments" := JArr(seq(|subs|, i requires 0 <= i < |subs| => EncodeSegment(subs[i])))];
    if s.links.Some? then
      var ls := s.links.value;
      withSubs["links" := JArr(seq(|ls|, i requires 0 <= i < |ls| => EncodeLink(ls[i])))]
    else withSubs
  }

  lemma CauseRoundTrip(c: CauseValue)
    requires c.CauseId? ==> c.exceptionId != ""
    ensures DecodeCause(EncodeCause(c)) == Some(c)
  {
    if c.Structured? {
      var cause := c.cause;
      var v := EncodeCause(c);
      assert "paths" in v.fields;
      assert Truthy(v);
      var items := v.fields["exceptions"].items;
      assert seq(|items|, i requires 0 <= i < |items| => items[i].fields) == cause.exceptions;
    }
  }

  /** The structural keys of a segment dict lie outside both scalar key sets. */
  lemma StructuralKeysAreNotScalars(kind: Kind)
    ensures "id" !in ScalarKeys(kind) && "name" !in ScalarKeys(kind) && "trace_id" !in ScalarKeys(kind)
    ensures "start_time" !in ScalarKeys(kind) && "cause" !in ScalarKeys(kind)
    ensures "subsegments" !in ScalarKeys(kind) && "links" !in ScalarKeys(kind)
  {
  }

  /** What the structural part holds, under the structural keys only. */
  lemma StructuralContents(s: Segment)
    ensures var d := StructuralFields(s);
      && "id" in d && d["id"] == s.id && "name" in d && d["name"] == s.name
      && "trace_id" in d && d["trace_id"] == s.traceId && "start_time" in d && d["start_time"] == s.startTime
      && "cause" in d && d["cause"] == EncodeCause(s.cause)
      && ("subsegments" in d <==> s.subsegments.Present?)
      && ("links" in d <==> s.links.Some?)
      && d.Keys <= {"id", "name", "trace_id", "start_time", "cause", "subsegments", "links"}
    ensures var d := StructuralFields(s);
      s.subsegments.Present? ==>
        d["subsegments"] == JArr(seq(|s.subsegments.items|, i requires 0 <= i < |s.subsegments.items| =>
                                       EncodeSegment(s.subsegments.items[i])))
    ensures var d := StructuralFields(s);
      s.links.Some? ==>
        d["links"] == JArr(seq(|s.links.value|, i requires 0 <= i < |s.links.value| => EncodeLink(s.links.value[i])))
  {
  }

  /** What the encoded dict holds under each key the decoder reads. */
  lemma EncodedFields(s: Segment)
    requires s.scalars.Keys == ScalarKeys(s.kind)
    ensures var d := EncodeSegment(s).fields;
      && "id" in d && d["id"] == s.id && "name" in d && d["name"] == s.name
      && "trace_id" in d && d["trace_id"] == s.traceId && "start_time" in d && d["start_time"] == s.startTime
      && "cause" in d && d["cause"] == EncodeCause(s.cause)
      && ("subsegments" in d <==> s.subsegments.Present?)
      && ("links" in d <==> s.links.Some?)
      && (forall k :: k in ScalarKeys(s.kind) ==> Get(d, k) == s.scalars[k])
    ensures var d := EncodeSegment(s).fields;
      s.subsegments.Present? ==>
        d["subsegments"] == JArr(seq(|s.subsegments.items|, i requires 0 <= i < |s.subsegments.items| =>
                                       EncodeSegment(s.subsegments.items[i])))
    ensures var d := EncodeSegment(s).fields;
      s.links.Some? ==>
        d["links"] == JArr(seq(|s.links.value|, i requires 0 <= i < |s.links.value| => EncodeLink(s.links.value[i])))
  {
    StructuralKeysAreNotScalars(s.kind);
    StructuralContents(s);
    var st := StructuralFields(s);
    assert EncodeSegment(s).fields == s.scalars + st;
    forall k | k in ScalarKeys(s.kind)
      ensures Get(s.scalars + st, k) == s.scalars[k]
    {
      assert k !in st;
    }
  }

  /**
   * Decoding an encoded well-formed segment gives the segment back, so the
   * decoder loses nothing it stores.
   */
  lemma {:induction false} SegmentRoundTrip(s: Segment)
    requires WellFormedSegment(s)
    ensures DecodeSegment(s.kind, EncodeSegment(s)) == Some(s)
    decreases s, 1
  {
    EncodedFields(s);
    CauseRoundTrip(s.cause);
    NestedRoundTrip(s);
    LinksRoundTrip(s);
    DecodeFromParts(EncodeSegment(s), s);
  }

  /** A dict whose every part decodes to the matching part of a segment decodes to that segment. */
  lemma DecodeFromParts(v: Json, s: Segment)
    requires v.JObj? && s.scalars.Keys == ScalarKeys(s.kind)
    requires "id" in v.fields && v.fields["id"] == s.id && "name" in v.fields && v.fields["name"] == s.name
    requires "trace_id" in v.fields && v.fields["trace_id"] == s.traceId
    requires "start_time" in v.fields && v.fields["start_time"] == s.startTime
    requires forall k :: k in ScalarKeys(s.kind) ==> Get(v.fields, k) == s.scalars[k]
    requires DecodeCause(Get(v.fields, "cause")) == Some(s.cause)
    requires DecodeNested(s.kind, v) == Some(s.subsegments) && DecodeLinks(v.fields) == Some(s.links)
    ensures DecodeSegment(s.kind, v) == Some(s)
  {
    var r := DecodeSegment(s.kind, v);
    assert r.Some?;
    assert r.value.scalars == s.scalars;
  }

  lemma {:induction false} NestedRoundTrip(s: Segment)
    requires WellFormedSegment(s)
    ensures DecodeNested(s.kind, EncodeSegment(s)) == Some(s.subsegments)
    decreases s, 0
  {
    var v := EncodeSegment(s);
    EncodedFields(s);
    if s.subsegments.Present? {
      var subs := s.subsegments.items;
      var items := v.fields["subsegments"].items;
      forall i | 0 <= i < |items| ensures DecodeSegment(s.kind, items[i]) == Some(subs[i]) {
        assert items[i] == EncodeSegment(subs[i]);
        SegmentRoundTrip(subs[i]);
      }
      NestedFromItems(s.kind, v, subs);
    }
  }

  /** A list of dicts that each decode to a record decodes to the list of those records. */
  lemma NestedFromItems(kind: Kind, v: Json, subs: seq<Segment>)
    requires v.JObj? && "subsegments" in v.fields && v.fields["subsegments"].JArr?
    requires |v.fields["subsegments"].items| == |subs|
    requires forall i :: 0 <= i < |subs| ==> DecodeSegment(kind, v.fields["subsegments"].items[i]) == Some(subs[i])
    ensures DecodeNested(kind, v) == Some(Present(subs))
  {
    var items := v.fields["subsegments"].items;
    AllSomeOfSomes(seq(|items|, i requires 0 <= i < |items| => DecodeSegment(kind, items[i])), subs);
  }

  lemma LinksRoundTrip(s: Segment)
    requires s.scalars.Keys == ScalarKeys(s.kind)
    ensures DecodeLinks(EncodeSegment(s).fields) == Some(s.links)
  {
    var d := EncodeSegment(s).fields;
    EncodedFields(s);
    if s.links.Some? {
      var ls := s.links.value;
      var items := d["links"].items;
      forall i | 0 <= i < |items| ensures DecodeLink(items[i]) == Some(ls[i]) {
        LinkRoundTrip(ls[i]);
      }
      LinksFromItems(d, ls);
    }
  }

  /** A list of dicts that each decode to a link decodes to the list of those links. */
  lemma LinksFromItems(d: map<string, Json>, ls: seq<Link>)
    requires "links" in d && d["links"].JArr? && |d["links"].items| == |ls|
    requires forall i :: 0 <= i < |ls| ==> DecodeLink(d["links"].items[i]) == Some(ls[i])
    ensures DecodeLinks(d) == Some(Some(ls))
  {
    var items := d["links"].items;
    AllSomeOfSomes(seq(|items|, i requires 0 <= i < |items| => DecodeLink(items[i])), ls);
  }

  /** A decoded trace. */
  datatype Trace = Trace(id: Json, duration: Json, limitExceeded: Json, segments: seq<Segment>)

  /**
   * `Trace.__init__`: id defaults to "", duration to 0, limit_exceeded to
   * False, and each listed segment is decoded in order.
   */
  function DecodeTrace(v: Json): (r: Option<Trace>)
    ensures r.Some? ==> v.JObj?
    ensures r.Some? ==> r.value.id == GetOr(v.fields, "id", JStr("")) &&
                        r.value.duration == GetOr(v.fields, "duration", JNum(0)) &&
                        r.value.limitExceeded == GetOr(v.fields, "limit_exceeded", JBool(false))
    ensures r.Some? && "segments" !in v.fields ==> r.value.segments == []
    ensures r.Some? && "segments" in v.fields ==>
      v.fields["segments"].JArr? && |r.value.segments| == |v.fields["segments"].items| &&
      forall i :: 0 <= i < |r.value.segments| ==>
        Some(r.value.segments[i]) == DecodeSegment(SegmentKind, v.fields["segments"].items[i])
  {
    if !v.JObj? then None
    else
      var d := v.fields;
      match ListOr(d, "segments", [])
      case None => None
      case Some(items) =>
        match AllSome(seq(|items|, i requires 0 <= i < |items| => DecodeSegment(SegmentKind, items[i])))
        case None => None
        case Some(segments) =>
          Some(Trace(GetOr(d, "id", JStr("")), GetOr(d, "duration", JNum(0)),
                     GetOr(d, "limit_exceeded", JBool(false)), segments))
  }

  /** `Trace.__eq__`: equal ids. */
  predicate SameTrace(a: Trace, b: Trace)
  {
    a.id == b.id
  }

  /** Two decoded traces are equal exactly when their dicts carry the same id (after defaulting). */
  lemma DecodedTraceEquality(v: Json, w: Json)
    requires DecodeTrace(v).Some? && DecodeTrace(w).Some?
    ensures SameTrace(DecodeTrace(v).value, DecodeTrace(w).value) <==>
      GetOr(v.fields, "id", JStr("")) == GetOr(w.fields, "id", JStr(""))
  {
  }

  /** A decoded tree: the root, the root-to-leaf paths, the source trace and the linked traces by id. */
  datatype Tree = Tree(root: Segment, paths: seq<seq<Segment>>, sourceTrace: Trace, childTraces: map<string, Trace>)

  /** Every entry of the child-trace dict decodes: the decoded dict, or None. */
  function DecodeTraceMap(m: map<string, Json>): (r: Option<map<string, Trace>>)
    ensures r.Some? <==> forall k :: k in m ==> DecodeTrace(m[k]).Some?
    ensures r.Some? ==> r.value.Keys == m.Keys && forall k :: k in m ==> Some(r.value[k]) == DecodeTrace(m[k])
  {
    if forall k :: k in m ==> DecodeTrace(m[k]).Some? then
      Some(map k | k in m :: DecodeTrace(m[k]).value)
    else None
  }

  /** One path of segments, decoded in order. */
  function DecodePath(v: Json): (r: Option<seq<Segment>>)
    ensures r.Some? ==> v.JArr? && |r.value| == |v.items| &&
                        forall i :: 0 <= i < |v.items| ==> Some(r.value[i]) == DecodeSegment(SegmentKind, v.items[i])
  {
    if !v.JArr? then None
    else AllSome(seq(|v.items|, i requires 0 <= i < |v.items| => DecodeSegment(SegmentKind, v.items[i])))
  }

  /**
   * `Tree.__init__`: root, paths and source_trace are required; the paths
   * keep their outer and inner order; child_traces is {} when absent or
   * falsy and otherwise one trace per entry.
   */
  function DecodeTree(v: Json): (r: Option<Tree>)
    ensures r.Some? ==> v.JObj? && "root" in v.fields && "paths" in v.fields && "source_trace" in v.fields
    ensures r.Some? ==> Some(r.value.root) == DecodeSegment(SegmentKind, v.fields["root"])
    ensures r.Some? ==> Some(r.value.sourceTrace) == DecodeTrace(v.fields["source_trace"])
    ensures r.Some? ==> v.fields["paths"].JArr? && |r.value.paths| == |v.fields["paths"].items| &&
                        forall i :: 0 <= i < |r.value.paths| ==> Some(r.value.paths[i]) == DecodePath(v.fields["paths"].items[i])
    ensures r.Some? && !Truthy(Get(v.fields, "child_traces")) ==> r.value.childTraces == map[]
    ensures r.Some? && Truthy(Get(v.fields, "child_traces")) ==>
      v.fields["child_traces"].JObj? && Some(r.value.childTraces) == DecodeTraceMap(v.fields["child_traces"].fields)
  {
    match (Required(v, "root"), Required(v, "paths"), Required(v, "source_trace"))
    case (Some(root), Some(paths), Some(source)) =>
      var childTraces: Option<map<string, Trace>> :=
        var c := Get(v.fields, "child_traces");
        if !Truthy(c) then Some(map[])
        else if c.JObj? then DecodeTraceMap(c.fields)
        else None;
      if !paths.JArr? then None
      else
        (match (DecodeSegment(SegmentKind, root),
                AllSome(seq(|paths.items|, i requires 0 <= i < |paths.items| => DecodePath(paths.items[i]))),
                DecodeTrace(source), childTraces)
         case (Some(r), Some(ps), Some(t), Some(cs)) => Some(Tree(r, ps, t, cs))
         case _ => None)
    case _ => None
  }
}
