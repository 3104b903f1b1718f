/**
 * Default mock events from an OpenAPI 3 schema
 * (`internal/pkg/mock/event/openapi.go`): a chain of checks on the raw
 * schema and the loaded document, then a walk over the event schema's
 * properties that gives each one a default value, recursing into object
 * properties down to a fixed depth.
 *
 * Loading is an input (kin-openapi's loader), and the loaded document is
 * an arena of schemas so that resolved references may form cycles. The
 * current time is an input. The property walk follows Go's map order,
 * which is unspecified: the specification functions describe the event,
 * which does not depend on that order, and the set of errors some order
 * can report first.
 */
module MockOpenapi {
  import opened Wrappers
  import opened Json
  import Text

  type SchemaId = nat

  /** The fields of `openapi3.Schema` the generator reads; each property is the id of its resolved schema. */
  datatype Schema = Schema(typ: string, format: string, enum: seq<Json>, properties: map<string, SchemaId>,
                           required: Option<seq<string>>)

  type Arena = map<SchemaId, Schema>

  /** Every property of every schema is resolved: kin-openapi's loader guarantees it. */
  predicate Closed(a: Arena)
  {
    forall id, k :: id in a && k in a[id].properties ==> a[id].properties[k] in a
  }

  /** The depth the top-level call starts from. */
  const MaxDepth := 20

  /** With `skipOptional` and a required list, only required properties are generated. */
  function SelectedKeys(sch: Schema, skipOptional: bool): (keys: set<string>)
    ensures keys <= sch.properties.Keys
    ensures skipOptional && sch.required.Some? ==>
      keys == set k | k in sch.properties && k in sch.required.value
    ensures !skipOptional || sch.required.None? ==> keys == sch.properties.Keys
  {
    set k | k in sch.properties && !(sch.required.Some? && skipOptional && k !in sch.required.value)
  }

  function UnsupportedType(typ: string, name: string): string
  {
    "invalid or unsupported property type " + Text.Quote(typ) + " found for property " + Text.Quote(name)
  }

  /**
   * The value generated for a property named `name` whose schema is
   * `pid`: the first enum value if there is one, otherwise a default for
   * its type; an object below the depth bound becomes null.
   */
  function PropertyValue(a: Arena, pid: SchemaId, name: string, skipOptional: bool, depth: nat, now: string)
    : (r: Result<Json, set<string>>)
    requires Closed(a) && pid in a
    decreases depth, 0
  {
    var p := a[pid];
    if |p.enum| > 0 then Ok(p.enum[0])
    else if p.typ == "string" then Ok(if p.format == "date-time" then JStr(now) else JStr(""))
    else if p.typ == "number" || p.typ == "integer" then Ok(JNum(0))
    else if p.typ == "boolean" then Ok(JBool(false))
    else if p.typ == "array" then Ok(JArr([]))
    else if p.typ == "object" then
      if depth == 0 then Ok(JNull)
      else
        match Event(a, pid, skipOptional, depth - 1, now)
        case Ok(m) => Ok(JObj(m))
        case Err(es) => Err(es)
    else Err({UnsupportedType(p.typ, name)})
  }

  /**
   * The event for schema `id`: one entry per selected property, or, when
   * some selected property fails, the errors of all failing properties.
   */
  function Event(a: Arena, id: SchemaId, skipOptional: bool, depth: nat, now: string): (r: Result<map<string, Json>, set<string>>)
    requires Closed(a) && id in a
    decreases depth, 1
  {
    var sch := a[id];
    var keys := SelectedKeys(sch, skipOptional);
    if forall k :: k in keys ==> PropertyValue(a, sch.properties[k], k, skipOptional, depth, now).Ok? then
      Ok(map k | k in keys :: PropertyValue(a, sch.properties[k], k, skipOptional, depth, now).value)
    else
      Err(set k, m | k in keys && PropertyValue(a, sch.properties[k], k, skipOptional, depth, now).Err? &&
                     m in PropertyValue(a, sch.properties[k], k, skipOptional, depth, now).error :: m)
  }

  /**
   * The event holds exactly the selected properties, each with its own
   * value; it fails exactly when some selected property fails, and then
   * every failing property's errors are among the possible reports.
   */
  lemma EventEntries(a: Arena, id: SchemaId, skipOptional: bool, depth: nat, now: string)
    requires Closed(a) && id in a
    ensures var r := Event(a, id, skipOptional, depth, now);
      && (r.Ok? <==> forall k :: k in SelectedKeys(a[id], skipOptional) ==>
                       PropertyValue(a, a[id].properties[k], k, skipOptional, depth, now).Ok?)
      && (r.Ok? ==> r.value.Keys == SelectedKeys(a[id], skipOptional) &&
                    forall k :: k in r.value ==> PropertyValue(a, a[id].properties[k], k, skipOptional, depth, now) == Ok(r.value[k]))
      && (r.Err? ==> forall k :: (k in SelectedKeys(a[id], skipOptional) &&
                                  PropertyValue(a, a[id].properties[k], k, skipOptional, depth, now).Err?) ==>
                                 PropertyValue(a, a[id].properties[k], k, skipOptional, depth, now).error <= r.error)
  {
  }

  /**
   * A generated value has its property's type: a member of its enum, or a
   * value of the declared type, where an object may be null.
   */
  ghost predicate ValueConforms(a: Arena, pid: SchemaId, v: Json, skipOptional: bool, depth: nat)
    requires Closed(a) && pid in a
    decreases depth, 0
  {
    var p := a[pid];
    if |p.enum| > 0 then v in p.enum
    else if p.typ == "string" then v.JStr?
    else if p.typ == "number" || p.typ == "integer" then v.JNum?
    else if p.typ == "boolean" then v.JBool?
    else if p.typ == "array" then v.JArr?
    else if p.typ == "object" then v.JNull? || (depth > 0 && v.JObj? && EventConforms(a, pid, v.fields, skipOptional, depth - 1))
    else false
  }

  /** An event has exactly the selected properties of its schema, each conforming to its own schema. */
  ghost predicate EventConforms(a: Arena, id: SchemaId, m: map<string, Json>, skipOptional: bool, depth: nat)
    requires Closed(a) && id in a
    decreases depth, 1
  {
    && m.Keys == SelectedKeys(a[id], skipOptional)
    && forall k :: k in m ==> ValueConforms(a, a[id].properties[k], m[k], skipOptional, depth)
  }

  /** Every generated event conforms to its schema. */
  lemma {:induction false} GeneratedConforms(a: Arena, id: SchemaId, skipOptional: bool, depth: nat, now: string)
    requires Closed(a) && id in a && Event(a, id, skipOptional, depth, now).Ok?
    ensures EventConforms(a, id, Event(a, id, skipOptional, depth, now).value, skipOptional, depth)
    decreases depth, 1
  {
    var m := Event(a, id, skipOptional, depth, now).value;
    EventEntries(a, id, skipOptional, depth, now);
    forall k | k in m
      ensures ValueConforms(a, a[id].properties[k], m[k], skipOptional, depth)
    {
      PropertyConforms(a, a[id].properties[k], k, skipOptional, depth, now);
    }
  }

  /** The property half of `GeneratedConforms`. */
  lemma {:induction false} PropertyConforms(a: Arena, pid: SchemaId, name: string, skipOptional: bool, depth: nat, now: string)
    requires Closed(a) && pid in a && PropertyValue(a, pid, name, skipOptional, depth, now).Ok?
    ensures ValueConforms(a, pid, PropertyValue(a, pid, name, skipOptional, depth, now).value, skipOptional, depth)
    decreases depth, 0
  {
    if |a[pid].enum| == 0 && a[pid].typ == "object" && depth > 0 {
      GeneratedConforms(a, pid, skipOptional, depth - 1, now);
    }
  }

  /**
   * `ConstructOpenapiEvent`: fills the event one property at a time, in an
   * unspecified order, and stops at the first property that fails.
   */
  method ConstructOpenapiEvent(a: Arena, id: SchemaId, skipOptional: bool, depth: nat, now: string)
    returns (r: Result<map<string, Json>, string>)
    requires Closed(a) && id in a
    ensures Realizes(r, Event(a, id, skipOptional, depth, now))
    decreases depth, 1
  {
    var sch := a[id];
    var keys := SelectedKeys(sch, skipOptional);
    var event: map<string, Json> := map[];
    var todo := sch.properties.Keys;
    EventEntries(a, id, skipOptional, depth, now);
    while todo != {}
      invariant todo <= sch.properties.Keys
      invariant event.Keys == keys - todo
      invariant forall k :: k in event ==> PropertyValue(a, sch.properties[k], k, skipOptional, depth, now) == Ok(event[k])
      decreases todo
    {
      var name :| name in todo;
      todo := todo - {name};
      if sch.required.Some? && skipOptional && name !in sch.required.value {
        continue;
      }
      var v := DefaultPropertyValue(a, sch.properties[name], name, skipOptional, depth, now);
      if v.Err? {
        return Err(v.error);
      }
      event := event[name := v.value];
    }
    assert event == Event(a, id, skipOptional, depth, now).value;
    return Ok(event);
  }

  /** The body of the property loop: the first enum value, or the default of the property's type. */
  method DefaultPropertyValue(a: Arena, pid: SchemaId, name: string, skipOptional: bool, depth: nat, now: string)
    returns (r: Result<Json, string>)
    requires Closed(a) && pid in a
    ensures Realizes(r, PropertyValue(a, pid, name, skipOptional, depth, now))
    decreases depth, 0
  {
    var p := a[pid];
    if |p.enum| > 0 {
      return Ok(p.enum[0]);
    }
    if p.typ == "string" {
      r := Ok(if p.format == "date-time" then JStr(now) else JStr(""));
    } else if p.typ == "number" || p.typ == "integer" {
      r := Ok(JNum(0));
    } else if p.typ == "boolean" {
      r := Ok(JBool(false));
    } else if p.typ == "array" {
      r := Ok(JArr([]));
    } else if p.typ == "object" {
      if depth == 0 {
        r := Ok(JNull);
      } else {
        var inner := ConstructOpenapiEvent(a, pid, skipOptional, depth - 1, now);
        r := if inner.Err? then Err(inner.error) else Ok(JObj(inner.value));
      }
    } else {
      r := Err(UnsupportedType(p.typ, name));
    }
  }

  /** The types the generator gives a default to. */
  predicate Supported(s: Schema)
  {
    |s.enum| > 0 || s.typ in {"string", "number", "integer", "boolean", "array", "object"}
  }

  /** When every schema in the document has an enum or a supported type, generation never fails, at any depth. */
  lemma {:induction false} SupportedNeverFails(a: Arena, id: SchemaId, skipOptional: bool, depth: nat, now: string)
    requires Closed(a) && id in a && forall i :: i in a ==> Supported(a[i])
    ensures Event(a, id, skipOptional, depth, now).Ok?
    decreases depth, 1
  {
    var sch := a[id];
    forall k | k in SelectedKeys(sch, skipOptional)
      ensures PropertyValue(a, sch.properties[k], k, skipOptional, depth, now).Ok?
    {
      SupportedPropertyOk(a, sch.properties[k], k, skipOptional, depth, now);
    }
  }

  /** The property half of `SupportedNeverFails`. */
  lemma {:induction false} SupportedPropertyOk(a: Arena, pid: SchemaId, name: string, skipOptional: bool, depth: nat, now: string)
    requires Closed(a) && pid in a && forall i :: i in a ==> Supported(a[i])
    ensures PropertyValue(a, pid, name, skipOptional, depth, now).Ok?
    decreases depth, 0
  {
    if |a[pid].enum| == 0 && a[pid].typ == "object" && depth > 0 {
      SupportedNeverFails(a, pid, skipOptional, depth - 1, now);
    }
  }

  /**
   * An error raised by a nested object is among the errors of every
   * object that selects it: a failure propagates from any depth.
   */
  lemma NestedErrorPropagates(a: Arena, id: SchemaId, k: string, skipOptional: bool, depth: nat, now: string)
    requires Closed(a) && id in a && k in SelectedKeys(a[id], skipOptional) && depth > 0
    requires var p := a[a[id].properties[k]]; |p.enum| == 0 && p.typ == "object"
    requires Event(a, a[id].properties[k], skipOptional, depth - 1, now).Err?
    ensures Event(a, id, skipOptional, depth, now).Err?
    ensures Event(a, a[id].properties[k], skipOptional, depth - 1, now).error <= Event(a, id, skipOptional, depth, now).error
  {
    var pid := a[id].properties[k];
    assert PropertyValue(a, pid, k, skipOptional, depth, now) == Err(Event(a, pid, skipOptional, depth - 1, now).error);
  }

  /** The raw schema of a mock-event request; Go's nil pointers are `None`. */
  datatype RawSchema = RawSchema(content: Option<string>, schemaType: Option<string>, eventRef: Option<string>)

  /** A loaded document: its schema arena and `components.schemas`, each of which may be missing. */
  datatype Document = Document(arena: Arena, components: Option<Components>)
  datatype Components = Components(schemas: Option<map<string, SchemaId>>)

  /** Every named component schema is in the arena and the arena is resolved. */
  predicate Resolved(d: Document)
  {
    Closed(d.arena) &&
    (d.components.Some? && d.components.value.schemas.Some? ==>
       forall n :: n in d.components.value.schemas.value ==> d.components.value.schemas.value[n] in d.arena)
  }

  const NoEventRef := "no eventRef specified to generate a mock event"
  const LoadFailedPrefix := "failed while loading schema due to error: "
  const InvalidSchema := "invalid schema provided"
  const NoComponents := "failed to generate a mock event, no components found in schema"
  const NoSchemas := "failed to generate a mock event, no schemas found under components in schema"
  const GenerateFailedPrefix := "failed to generate a mock event for the provided schema due to error: "

  function RefNotFound(ref: string): string
  {
    "provided eventRef " + Text.Quote(ref) + " not found in the schema"
  }

  /**
   * What `GenerateOpenapiEvent` can return: the checks in their order
   * (a nil event reference is dereferenced first), then the event
   * generated from depth 20, or any of its errors behind a prefix.
   */
  function Outcome(raw: RawSchema, load: string -> Result<Document, string>, skipOptional: bool, now: string)
    : (r: Result<Json, set<GoError>>)
    requires forall c :: load(c).Ok? ==> Resolved(load(c).value)
    ensures raw.eventRef.None? ==> r == Err({Panic(NilDereference)})
    ensures raw.eventRef == Some("") ==> r == Err({Failure(NoEventRef)})
    ensures raw.eventRef.Some? && raw.eventRef.value != "" && raw.content.None? ==>
      r == Err({Failure(LoadFailedPrefix + InvalidSchema)})
    ensures raw.eventRef.Some? && raw.eventRef.value != "" && raw.content.Some? && load(raw.content.value).Err? ==>
      r == Err({Failure(LoadFailedPrefix + load(raw.content.value).error)})
    ensures raw.eventRef.Some? && raw.eventRef.value != "" && raw.content.Some? && load(raw.content.value).Ok? ==>
      var doc := load(raw.content.value).value;
      && (doc.components.None? ==> r == Err({Failure(NoComponents)}))
      && (doc.components.Some? && doc.components.value.schemas.None? ==> r == Err({Failure(NoSchemas)}))
      && (doc.components.Some? && doc.components.value.schemas.Some? &&
          raw.eventRef.value !in doc.components.value.schemas.value ==>
            r == Err({Failure(RefNotFound(raw.eventRef.value))}))
    ensures r.Ok? ==> r.value.JObj?
  {
    if raw.eventRef.None? then Err({Panic(NilDereference)})
    else if raw.eventRef.value == "" then Err({Failure(NoEventRef)})
    else if raw.content.None? then Err({Failure(LoadFailedPrefix + InvalidSchema)})
    else
      var loaded := load(raw.content.value);
      if loaded.Err? then Err({Failure(LoadFailedPrefix + loaded.error)})
      else
        var doc := loaded.value;
        assert Resolved(doc);
        if doc.components.None? then Err({Failure(NoComponents)})
        else if doc.components.value.schemas.None? then Err({Failure(NoSchemas)})
        else if raw.eventRef.value !in doc.components.value.schemas.value then
          Err({Failure(RefNotFound(raw.eventRef.value))})
        else
          match Event(doc.arena, doc.components.value.schemas.value[raw.eventRef.value], skipOptional, MaxDepth, now)
          case Ok(m) => Ok(JObj(m))
          case Err(es) => Err(set e | e in es :: Failure(GenerateFailedPrefix + e))
  }

  /** `GenerateOpenapiEvent`, returning the event before JSON encoding. */
  method GenerateOpenapiEvent(raw: RawSchema, load: string -> Result<Document, string>, skipOptional: bool, now: string)
    returns (r: Result<Json, GoError>)
    requires forall c :: load(c).Ok? ==> Resolved(load(c).value)
    ensures Realizes(r, Outcome(raw, load, skipOptional, now))
  {
    if raw.eventRef.None? {
      return Err(Panic(NilDereference));
    }
    var ref := raw.eventRef.value;
    if ref == "" {
      return Err(Failure(NoEventRef));
    }
    if raw.content.None? {
      return Err(Failure(LoadFailedPrefix + InvalidSchema));
    }
    var loaded := load(raw.content.value);
    if loaded.Err? {
      return Err(Failure(LoadFailedPrefix + loaded.error));
    }
    var doc := loaded.value;
    if doc.components.None? {
      return Err(Failure(NoComponents));
    }
    if doc.components.value.schemas.None? {
      return Err(Failure(NoSchemas));
    }
    var schemas := doc.components.value.schemas.value;
    if ref !in schemas {
      return Err(Failure(RefNotFound(ref)));
    }
    var event := ConstructOpenapiEvent(doc.arena, schemas[ref], skipOptional, MaxDepth, now);
    if event.Err? {
      return Err(Failure(GenerateFailedPrefix + event.error));
    }
    return Ok(JObj(event.value));
  }
}
