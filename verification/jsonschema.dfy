/**
 * Default mock events from a JSON Schema (draft 4)
 * (`internal/pkg/mock/event/jsonschema.go`). Like the OpenAPI generator it
 * walks the properties of the event schema, but a property may declare
 * several types, a `$ref` replaces whatever its type produced, and a
 * property with neither a type nor a `$ref` is left out.
 *
 * Compiling is an input (the jsonschema library's compiler); the compiled
 * schema is an arena so that `$ref` cycles can be represented. The
 * current time is an input. The walk follows Go's unspecified map order:
 * the specification functions give the event and the set of errors some
 * order can report first.
 *
 * The type name matched for booleans is a parameter of the specification
 * functions: the code matches "bool" (`AsWrittenBool`), while the JSON
 * Schema name is "boolean" (`StandardBool`).
 */
module MockJsonschema {
  import opened Wrappers
  import opened Json
  import Text
  import MockOpenapi

  type SchemaId = nat

  /**
   * The fields of a compiled `jsonschema.Schema` the generators read
   * (`items` only by the older generator of `internal/pkg/event/event.go`).
   */
  datatype Schema = Schema(types: seq<string>, enum: seq<Json>, format: string, properties: map<string, SchemaId>,
                           required: Option<seq<string>>, ref: Option<SchemaId>, items: Items)

  /** `items`: absent, one schema for every element, or one schema per position. */
  datatype Items = NoItems | ItemSchema(id: SchemaId) | ItemList(ids: seq<SchemaId>)

  type Arena = map<SchemaId, Schema>

  /** Every property and every `$ref` of every schema is compiled. */
  predicate Closed(a: Arena)
  {
    && (forall id, k :: id in a && k in a[id].properties ==> a[id].properties[k] in a)
    && (forall id :: id in a && a[id].ref.Some? ==> a[id].ref.value in a)
    && (forall id :: id in a && a[id].items.ItemSchema? ==> a[id].items.id in a)
    && (forall id, i :: id in a && a[id].items.ItemList? && 0 <= i < |a[id].items.ids| ==> a[id].items.ids[i] in a)
  }

  const MaxDepth := 20
  const AsWrittenBool := "bool"
  const StandardBool := "boolean"

  /** With `skipOptional` and a required list, only required properties are visited. */
  function SelectedKeys(sch: Schema, skipOptional: bool): (keys: set<string>)
    ensures keys <= sch.properties.Keys
    ensures skipOptional && sch.required.Some? ==>
      keys == set k | k in sch.properties && k in sch.required.value
    ensures !skipOptional || sch.required.None? ==> keys == sch.properties.Keys
  {
    set k | k in sch.properties && !(sch.required.Some? && skipOptional && k !in sch.required.value)
  }

  const MultipleTypes := "cannot handle multiple type declaration"
  const NestedObjectPrefix := "error generated event object: "

  /** Go's `%q` of a one-element string slice. */
  function UnsupportedType(typ: string, name: string): string
  {
    "invalid or unsupported property type [" + Text.Quote(typ) + "] found for property " + Text.Quote(name)
  }

  /**
   * What the declared types give a property: `None` when it declares no
   * type, and `Some` value for a single supported type.
   */
  function TypedValue(a: Arena, pid: SchemaId, name: string, skipOptional: bool, depth: nat, now: string, boolName: string)
    : Result<Option<Json>, set<string>>
    requires Closed(a) && pid in a
    decreases depth, 0
  {
    var p := a[pid];
    if |p.types| > 1 then Err({MultipleTypes})
    else if |p.types| == 0 then Ok(None)
    else if |p.enum| > 0 then Ok(Some(p.enum[0]))
    else
      var t := p.types[0];
      if t == "string" then Ok(Some(if p.format == "date-time" then JStr(now) else JStr("")))
      else if t == "number" || t == "integer" then Ok(Some(JNum(0)))
      else if t == "null" then Ok(Some(JNull))
      else if t == boolName then Ok(Some(JBool(false)))
      else if t == "object" then
        if depth == 0 then Ok(Some(JNull))
        else
          match Event(a, pid, skipOptional, depth - 1, now, boolName)
          case Ok(m) => Ok(Some(JObj(m)))
          case Err(es) => Err(set e | e in es :: NestedObjectPrefix + e)
      else if t == "array" then Ok(Some(JArr([])))
      else Err({UnsupportedType(t, name)})
  }

  /**
   * The value of a property, `None` when it is left out: what its types
   * give, replaced by the event of its `$ref` (null at depth 0, and null
   * when that event fails); an enum value is never replaced.
   */
  function PropertyValue(a: Arena, pid: SchemaId, name: string, skipOptional: bool, depth: nat, now: string, boolName: string)
    : Result<Option<Json>, set<string>>
    requires Closed(a) && pid in a
    decreases depth, 1
  {
    var p := a[pid];
    match TypedValue(a, pid, name, skipOptional, depth, now, boolName)
    case Err(es) => Err(es)
    case Ok(v) =>
      if |p.types| == 1 && |p.enum| > 0 then Ok(v)
      else if p.ref.None? then Ok(v)
      else if depth == 0 then Ok(Some(JNull))
      else
        match Event(a, p.ref.value, skipOptional, depth - 1, now, boolName)
        case Ok(m) => Ok(Some(JObj(m)))
        case Err(_) => Ok(Some(JNull))
  }

  /**
   * The event for schema `id`: the selected properties that have a value,
   * or, when some selected property fails, the errors of all failing ones.
   */
  function Event(a: Arena, id: SchemaId, skipOptional: bool, depth: nat, now: string, boolName: string)
    : Result<map<string, Json>, set<string>>
    requires Closed(a) && id in a
    decreases depth, 2
  {
    var sch := a[id];
    var keys := SelectedKeys(sch, skipOptional);
    if forall k :: k in keys ==> PropertyValue(a, sch.properties[k], k, skipOptional, depth, now, boolName).Ok? then
      Ok(map k | k in keys && PropertyValue(a, sch.properties[k], k, skipOptional, depth, now, boolName).value.Some? ::
                 PropertyValue(a, sch.properties[k], k, skipOptional, depth, now, boolName).value.value)
    else
      Err(set k, m | k in keys && PropertyValue(a, sch.properties[k], k, skipOptional, depth, now, boolName).Err? &&
                     m in PropertyValue(a, sch.properties[k], k, skipOptional, depth, now, boolName).error :: m)
  }

  /**
   * The event holds exactly the selected properties that have a value,
   * and a property is left out exactly when it declares no type and no
   * `$ref`; the event fails exactly when a selected property fails.
   */
  lemma EventEntries(a: Arena, id: SchemaId, skipOptional: bool, depth: nat, now: string, boolName: string)
    requires Closed(a) && id in a
    ensures var r := Event(a, id, skipOptional, depth, now, boolName);
      && (r.Ok? <==> forall k :: k in SelectedKeys(a[id], skipOptional) ==>
                       PropertyValue(a, a[id].properties[k], k, skipOptional, depth, now, boolName).Ok?)
      && (r.Ok? ==> r.value.Keys == set k | k in SelectedKeys(a[id], skipOptional) &&
                                            (|a[a[id].properties[k]].types| > 0 || a[a[id].properties[k]].ref.Some?))
      && (r.Ok? ==> forall k :: k in r.value ==>
                      PropertyValue(a, a[id].properties[k], k, skipOptional, depth, now, boolName) == Ok(Some(r.value[k])))
      && (r.Err? ==> forall k :: (k in SelectedKeys(a[id], skipOptional) &&
                                  PropertyValue(a, a[id].properties[k], k, skipOptional, depth, now, boolName).Err?) ==>
                                 PropertyValue(a, a[id].properties[k], k, skipOptional, depth, now, boolName).error <= r.error)
  {
    var r := Event(a, id, skipOptional, depth, now, boolName);
    if r.Ok? {
      forall k | k in SelectedKeys(a[id], skipOptional)
        ensures PropertyValue(a, a[id].properties[k], k, skipOptional, depth, now, boolName).value.Some? <==>
                (|a[a[id].properties[k]].types| > 0 || a[a[id].properties[k]].ref.Some?)
      {
        PropertyPresent(a, a[id].properties[k], k, skipOptional, depth, now, boolName);
      }
    }
  }

  /** A property that succeeds has a value exactly when it declares a type or a `$ref`. */
  lemma PropertyPresent(a: Arena, pid: SchemaId, name: string, skipOptional: bool, depth: nat, now: string, boolName: string)
    requires Closed(a) && pid in a && PropertyValue(a, pid, name, skipOptional, depth, now, boolName).Ok?
    ensures PropertyValue(a, pid, name, skipOptional, depth, now, boolName).value.Some? <==>
            (|a[pid].types| > 0 || a[pid].ref.Some?)
  {
    if |a[pid].types| == 0 {
      assert TypedValue(a, pid, name, skipOptional, depth, now, boolName) == Ok(None);
    } else {
      TypedPresent(a, pid, name, skipOptional, depth, now, boolName);
    }
  }

  /** A declared type that succeeds gives a value. */
  lemma TypedPresent(a: Arena, pid: SchemaId, name: string, skipOptional: bool, depth: nat, now: string, boolName: string)
    requires Closed(a) && pid in a && |a[pid].types| > 0
    requires TypedValue(a, pid, name, skipOptional, depth, now, boolName).Ok?
    ensures TypedValue(a, pid, name, skipOptional, depth, now, boolName).value.Some?
  {
  }

  /** `ConstructJsonschemaEvent`, one property at a time in an unspecified order, stopping at the first failure. */
  method ConstructJsonschemaEvent(a: Arena, id: SchemaId, generateRequiredOnly: bool, maxDepth: nat, now: string)
    returns (r: Result<map<string, Json>, string>)
    requires Closed(a) && id in a
    ensures Realizes(r, Event(a, id, generateRequiredOnly, maxDepth, now, AsWrittenBool))
    decreases maxDepth, 2
  {
    var sch := a[id];
    var event: map<string, Json> := map[];
    var todo := sch.properties.Keys;
    while todo != {}
      invariant todo <= sch.properties.Keys
      invariant Walked(a, id, generateRequiredOnly, maxDepth, now, todo, event)
      decreases todo
    {
      var key :| key in todo;
      todo := todo - {key};
      if sch.required.Some? && generateRequiredOnly && key !in sch.required.value {
        continue;
      }
      var value := ConstructProperty(a, sch.properties[key], key, generateRequiredOnly, maxDepth, now);
      if value.Err? {
        PropertyFails(a, id, key, generateRequiredOnly, maxDepth, now, value.error);
        return Err(value.error);
      }
      if value.value.Some? {
        event := event[key := value.value.value];
      }
    }
    WalkedDone(a, id, generateRequiredOnly, maxDepth, now, event);
    return Ok(event);
  }

  /** The body of the property loop: the value of one property, `None` when it is left out. */
  method ConstructProperty(a: Arena, pid: SchemaId, key: string, generateRequiredOnly: bool, maxDepth: nat, now: string)
    returns (r: Result<Option<Json>, string>)
    requires Closed(a) && pid in a
    ensures Realizes(r, PropertyValue(a, pid, key, generateRequiredOnly, maxDepth, now, AsWrittenBool))
    decreases maxDepth, 1
  {
    var element := a[pid];
    var typed := ConstructTyped(a, pid, key, generateRequiredOnly, maxDepth, now);
    if typed.Err? {
      return Err(typed.error);
    }
    var value := typed.value;
    if |element.types| == 1 && |element.enum| > 0 {
      return Ok(value);
    }
    if element.ref.Some? && maxDepth > 0 {
      var referenced := ConstructJsonschemaEvent(a, element.ref.value, generateRequiredOnly, maxDepth - 1, now);
      value := if referenced.Ok? then Some(JObj(referenced.value)) else Some(JNull);
    } else if element.ref.Some? {
      value := Some(JNull);
    }
    return Ok(value);
  }

  /** The type switch of the property loop: the first enum value, or the default of the single declared type. */
  method ConstructTyped(a: Arena, pid: SchemaId, key: string, generateRequiredOnly: bool, maxDepth: nat, now: string)
    returns (r: Result<Option<Json>, string>)
    requires Closed(a) && pid in a
    ensures Realizes(r, TypedValue(a, pid, key, generateRequiredOnly, maxDepth, now, AsWrittenBool))
    decreases maxDepth, 0
  {
    var element := a[pid];
    if |element.types| > 1 {
      return Err(MultipleTypes);
    }
    if |element.types| == 0 {
      return Ok(None);
    }
    if |element.enum| > 0 {
      return Ok(Some(element.enum[0]));
    }
    var t := element.types[0];
    if t == "string" {
      r := Ok(Some(if element.format == "date-time" then JStr(now) else JStr("")));
    } else if t == "number" || t == "integer" {
      r := Ok(Some(JNum(0)));
    } else if t == "null" {
      r := Ok(Some(JNull));
    } else if t == AsWrittenBool {
      r := Ok(Some(JBool(false)));
    } else if t == "object" {
      if maxDepth == 0 {
        r := Ok(Some(JNull));
      } else {
        var inner := ConstructJsonschemaEvent(a, pid, generateRequiredOnly, maxDepth - 1, now);
        r := if inner.Err? then Err(NestedObjectPrefix + inner.error) else Ok(Some(JObj(inner.value)));
      }
    } else if t == "array" {
      r := Ok(Some(JArr([])));
    } else {
      r := Err(UnsupportedType(t, key));
    }
  }

  /** The loop state of `ConstructJsonschemaEvent`: every visited selected property succeeded and the event holds its value. */
  ghost predicate Walked(a: Arena, id: SchemaId, skipOptional: bool, depth: nat, now: string, todo: set<string>,
                         event: map<string, Json>)
    requires Closed(a) && id in a
  {
    && (forall k :: k in SelectedKeys(a[id], skipOptional) && k !in todo ==>
          PropertyValue(a, a[id].properties[k], k, skipOptional, depth, now, AsWrittenBool).Ok?)
    && (forall k :: k in event <==>
          (k in SelectedKeys(a[id], skipOptional) && k !in todo &&
           PropertyValue(a, a[id].properties[k], k, skipOptional, depth, now, AsWrittenBool).Ok? &&
           PropertyValue(a, a[id].properties[k], k, skipOptional, depth, now, AsWrittenBool).value.Some?))
    && (forall k :: k in event ==>
          PropertyValue(a, a[id].properties[k], k, skipOptional, depth, now, AsWrittenBool) == Ok(Some(event[k])))
  }

  /** After the whole walk, the event is the specified one. */
  lemma WalkedDone(a: Arena, id: SchemaId, skipOptional: bool, depth: nat, now: string, event: map<string, Json>)
    requires Closed(a) && id in a && Walked(a, id, skipOptional, depth, now, {}, event)
    ensures Event(a, id, skipOptional, depth, now, AsWrittenBool) == Ok(event)
  {
    var r := Event(a, id, skipOptional, depth, now, AsWrittenBool);
    assert r.Ok?;
    assert event.Keys == r.value.Keys;
    assert forall k :: k in event ==> event[k] == r.value[k];
    assert event == r.value;
  }

  /** A selected property's error is one of the event's possible errors. */
  lemma PropertyFails(a: Arena, id: SchemaId, k: string, skipOptional: bool, depth: nat, now: string, e: string)
    requires Closed(a) && id in a && k in SelectedKeys(a[id], skipOptional)
    requires var v := PropertyValue(a, a[id].properties[k], k, skipOptional, depth, now, AsWrittenBool);
      v.Err? && e in v.error
    ensures Event(a, id, skipOptional, depth, now, AsWrittenBool).Err?
    ensures e in Event(a, id, skipOptional, depth, now, AsWrittenBool).error
  {
  }

  /** The draft-4 type names. */
  const StandardTypes := {"string", "number", "integer", "null", "boolean", "object", "array"}

  /** A schema the generator can handle: at most one type, and a single type that is standard or has an enum. */
  predicate Standard(s: Schema)
  {
    |s.types| <= 1 && (|s.types| == 1 && |s.enum| == 0 ==> s.types[0] in StandardTypes)
  }

  /** With the standard name for booleans, generation never fails for single-typed standard schemas, at any depth. */
  lemma {:induction false} StandardTypesNeverFail(a: Arena, id: SchemaId, skipOptional: bool, depth: nat, now: string)
    requires Closed(a) && id in a && forall i :: i in a ==> Standard(a[i])
    ensures Event(a, id, skipOptional, depth, now, StandardBool).Ok?
    decreases depth, 2
  {
    forall k | k in SelectedKeys(a[id], skipOptional)
      ensures PropertyValue(a, a[id].properties[k], k, skipOptional, depth, now, StandardBool).Ok?
    {
      StandardPropertyOk(a, a[id].properties[k], k, skipOptional, depth, now);
    }
  }

  /** The property half of `StandardTypesNeverFail`. */
  lemma {:induction false} StandardPropertyOk(a: Arena, pid: SchemaId, name: string, skipOptional: bool, depth: nat, now: string)
    requires Closed(a) && pid in a && forall i :: i in a ==> Standard(a[i])
    ensures PropertyValue(a, pid, name, skipOptional, depth, now, StandardBool).Ok?
    decreases depth, 0
  {
    var p := a[pid];
    if |p.types| == 1 && |p.enum| == 0 && p.types[0] == "object" && depth > 0 {
      StandardTypesNeverFail(a, pid, skipOptional, depth - 1, now);
    }
  }

  /** The smallest schema with a boolean property: `{"properties": {"flag": {"type": "boolean"}}}`. */
  function BooleanSchema(): (a: Arena)
    ensures Closed(a) && 0 in a
  {
    map[0 := Schema([], [], "", map["flag" := 1], None, None, NoItems),
        1 := Schema([StandardBool], [], "", map[], None, None, NoItems)]
  }

  /** As written, a property of JSON Schema type "boolean" is refused as unsupported. */
  lemma BooleanPropertyFails(now: string)
    ensures Event(BooleanSchema(), 0, false, MaxDepth, now, AsWrittenBool) ==
            Err({UnsupportedType("boolean", "flag")})
  {
    var a := BooleanSchema();
    var msg := UnsupportedType("boolean", "flag");
    assert SelectedKeys(a[0], false) == {"flag"};
    assert StandardBool != AsWrittenBool;
    assert TypedValue(a, 1, "flag", false, MaxDepth, now, AsWrittenBool) == Err({msg});
    assert PropertyValue(a, 1, "flag", false, MaxDepth, now, AsWrittenBool) == Err({msg});
    var r := Event(a, 0, false, MaxDepth, now, AsWrittenBool);
    assert r.Err?;
    assert msg in r.error;
    assert r.error <= {msg};
    assert r.error == {msg};
  }

  /** With the standard name, the same schema gives the boolean default. */
  lemma BooleanPropertyIntended(now: string)
    ensures Event(BooleanSchema(), 0, false, MaxDepth, now, StandardBool) == Ok(map["flag" := JBool(false)])
  {
    var a := BooleanSchema();
    assert SelectedKeys(a[0], false) == {"flag"};
    assert PropertyValue(a, 1, "flag", false, MaxDepth, now, StandardBool) == Ok(Some(JBool(false)));
    var r := Event(a, 0, false, MaxDepth, now, StandardBool);
    assert r.Ok?;
    assert r.value.Keys == {"flag"} && r.value["flag"] == JBool(false);
    assert r.value == map["flag" := JBool(false)];
  }

  /** A compiled schema: the arena and the root schema's id. */
  datatype Compiled = Compiled(arena: Arena, root: SchemaId)

  predicate Resolved(c: Compiled)
  {
    Closed(c.arena) && c.root in c.arena
  }

  const LoadFailedPrefix := "failed while loading schema due to error: "
  const InvalidSchema := "invalid schema provided"
  const EventRefUnsupported := "event ref not supported for json schemas"
  const CompileFailedPrefix := "error compiling schema: "
  const GenerateFailedPrefix := "error generating event: "

  /**
   * What `GenerateJsonschemaEvent` can return: content and event reference
   * are dereferenced and checked before compiling, then the event is
   * generated from depth 20, each error behind its prefix.
   */
  function Outcome(raw: MockOpenapi.RawSchema, compile: string -> Result<Compiled, string>, skipOptional: bool, now: string)
    : (r: Result<Json, set<GoError>>)
    requires forall c :: compile(c).Ok? ==> Resolved(compile(c).value)
    ensures raw.content.None? ==> r == Err({Panic(NilDereference)})
    ensures raw.content == Some("") ==> r == Err({Failure(LoadFailedPrefix + InvalidSchema)})
    ensures raw.content.Some? && raw.content.value != "" && raw.eventRef.None? ==> r == Err({Panic(NilDereference)})
    ensures raw.content.Some? && raw.content.value != "" && raw.eventRef.Some? && raw.eventRef.value != "" ==>
      r == Err({Failure(LoadFailedPrefix + EventRefUnsupported)})
    ensures r.Ok? ==> r.value.JObj? && raw.eventRef == Some("") && compile(raw.content.value).Ok?
  {
    if raw.content.None? then Err({Panic(NilDereference)})
    else if |raw.content.value| < 1 then Err({Failure(LoadFailedPrefix + InvalidSchema)})
    else if raw.eventRef.None? then Err({Panic(NilDereference)})
    else if |raw.eventRef.value| > 0 then Err({Failure(LoadFailedPrefix + EventRefUnsupported)})
    else
      var compiled := compile(raw.content.value);
      if compiled.Err? then Err({Failure(CompileFailedPrefix + compiled.error)})
      else
        assert Resolved(compiled.value);
        match Event(compiled.value.arena, compiled.value.root, skipOptional, MaxDepth, now, AsWrittenBool)
        case Ok(m) => Ok(JObj(m))
        case Err(es) => Err(set e | e in es :: Failure(GenerateFailedPrefix + e))
  }

  /** `GenerateJsonschemaEvent`, returning the event before JSON encoding. */
  method GenerateJsonschemaEvent(raw: MockOpenapi.RawSchema, compile: string -> Result<Compiled, string>,
                                 skipOptional: bool, now: string)
    returns (r: Result<Json, GoError>)
    requires forall c :: compile(c).Ok? ==> Resolved(compile(c).value)
    ensures Realizes(r, Outcome(raw, compile, skipOptional, now))
  {
    if raw.content.None? {
      return Err(Panic(NilDereference));
    }
    if |raw.content.value| < 1 {
      return Err(Failure(LoadFailedPrefix + InvalidSchema));
    }
    if raw.eventRef.None? {
      return Err(Panic(NilDereference));
    }
    if |raw.eventRef.value| > 0 {
      return Err(Failure(LoadFailedPrefix + EventRefUnsupported));
    }
    var compiled := compile(raw.content.value);
    if compiled.Err? {
      return Err(Failure(CompileFailedPrefix + compiled.error));
    }
    var schema := compiled.value;
    var eventMap := ConstructJsonschemaEvent(schema.arena, schema.root, skipOptional, MaxDepth, now);
    if eventMap.Err? {
      return Err(Failure(GenerateFailedPrefix + eventMap.error));
    }
    return Ok(JObj(eventMap.value));
  }
}
