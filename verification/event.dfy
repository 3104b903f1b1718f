/**
 * The older schema-to-event generator (`internal/pkg/event/event.go`):
 * placeholder values by type over a compiled JSON Schema, with no depth
 * bound and no errors.
 *
 * Without a depth bound, a `$ref` cycle makes the Go function recurse for
 * ever. Here every recursive step spends one unit of `fuel`, and `None`
 * means the fuel ran out, which stands for that non-termination.
 */
module LegacyEvent {
  import opened Wrappers
  import opened Json
  import MockJsonschema

  type SchemaId = MockJsonschema.SchemaId
  type Arena = MockJsonschema.Arena

  /** The placeholder for one element of an array whose `items` is the schema `item`; `None` when fuel runs out. */
  function Element(a: Arena, pid: SchemaId, item: SchemaId, fuel: nat): Option<Json>
    requires MockJsonschema.Closed(a) && pid in a && item in a
    decreases fuel, 1
  {
    var s := a[item];
    if |s.types| != 1 then Some(JNull)
    else if s.types[0] == "string" then Some(JStr("string"))
    else if s.types[0] == "number" then Some(JNum(1))
    else if s.types[0] == "object" then
      // the element is generated from the array property's own schema, not from `items`
      match Event(a, pid, fuel)
      case None => None
      case Some(m) => Some(JObj(m))
    else Some(JNull)
  }

  /**
   * The value of the property with schema `pid`: `Some(None)` when it is
   * left out, `None` when fuel runs out. A `$ref` replaces the value from
   * the type.
   */
  function Value(a: Arena, pid: SchemaId, fuel: nat): Option<Option<Json>>
    requires MockJsonschema.Closed(a) && pid in a
    decreases fuel, 2
  {
    var p := a[pid];
    var typed: Option<Option<Json>> :=
      if |p.types| != 1 then Some(None)
      else if p.types[0] == "string" then Some(Some(JStr("string")))
      else if p.types[0] == "number" then Some(Some(JNum(1)))
      else if p.types[0] == "object" then
        (match Event(a, pid, fuel)
         case None => None
         case Some(m) => Some(Some(JObj(m))))
      else if p.types[0] == "array" && p.items.ItemSchema? then
        (match Element(a, pid, p.items.id, fuel)
         case None => None
         case Some(e) => Some(Some(JArr([e]))))
      else Some(None);
    if typed.None? then None
    else if p.ref.None? then typed
    else
      match Event(a, p.ref.value, fuel)
      case None => None
      case Some(m) => Some(Some(JObj(m)))
  }

  /** `GenerateEvent(schema)` with `fuel` recursion steps: the properties that have a value. */
  function Event(a: Arena, id: SchemaId, fuel: nat): Option<map<string, Json>>
    requires MockJsonschema.Closed(a) && id in a
    decreases fuel, 0
  {
    var props := a[id].properties;
    if fuel == 0 then None
    else if forall k :: k in props ==> Value(a, props[k], fuel - 1).Some? then
      Some(map k | k in props && Value(a, props[k], fuel - 1).value.Some? :: Value(a, props[k], fuel - 1).value.value)
    else None
  }

  /**
   * `GenerateEvent`, one property at a time in map order; the error it
   * returns is always nil and is left out.
   */
  method GenerateEvent(a: Arena, id: SchemaId, fuel: nat) returns (r: Option<map<string, Json>>)
    requires MockJsonschema.Closed(a) && id in a
    ensures r == Event(a, id, fuel)
    decreases fuel, 0
  {
    if fuel == 0 {
      return None;
    }
    var props := a[id].properties;
    var event: map<string, Json> := map[];
    var todo := props.Keys;
    while todo != {}
      invariant todo <= props.Keys
      invariant forall k :: k in props && k !in todo ==> Value(a, props[k], fuel - 1).Some?
      invariant forall k :: k in event <==> k in props && k !in todo && Value(a, props[k], fuel - 1).Some? &&
                                            Value(a, props[k], fuel - 1).value.Some?
      invariant forall k :: k in event ==> Value(a, props[k], fuel - 1) == Some(Some(event[k]))
      decreases todo
    {
      var key :| key in todo;
      todo := todo - {key};
      var value := PropertyValue(a, props[key], fuel - 1);
      if value.None? {
        EventStops(a, id, fuel, key);
        return None;
      }
      if value.value.Some? {
        event := event[key := value.value.value];
      }
    }
    EventFromValues(a, id, fuel, event);
    return Some(event);
  }

  /** A property that runs out of fuel stops the whole event. */
  lemma EventStops(a: Arena, id: SchemaId, fuel: nat, k: string)
    requires MockJsonschema.Closed(a) && id in a && fuel > 0 && k in a[id].properties
    requires Value(a, a[id].properties[k], fuel - 1).None?
    ensures Event(a, id, fuel).None?
  {
  }

  /** A finished event holds exactly the present property values. */
  lemma EventValues(a: Arena, id: SchemaId, fuel: nat)
    requires MockJsonschema.Closed(a) && id in a && Event(a, id, fuel).Some?
    ensures fuel > 0
    ensures var props, event := a[id].properties, Event(a, id, fuel).value;
      && (forall k :: k in props ==> Value(a, props[k], fuel - 1).Some?)
      && (forall k :: k in event <==> k in props && Value(a, props[k], fuel - 1).value.Some?)
      && (forall k :: k in event ==> Value(a, props[k], fuel - 1) == Some(Some(event[k])))
  {
  }

  /** A map holding exactly the present property values is the event. */
  lemma EventFromValues(a: Arena, id: SchemaId, fuel: nat, event: map<string, Json>)
    requires MockJsonschema.Closed(a) && id in a && fuel > 0
    requires var props := a[id].properties;
      && (forall k :: k in props ==> Value(a, props[k], fuel - 1).Some?)
      && (forall k :: k in event <==> k in props && Value(a, props[k], fuel - 1).value.Some?)
      && (forall k :: k in event ==> Value(a, props[k], fuel - 1) == Some(Some(event[k])))
    ensures Event(a, id, fuel) == Some(event)
  {
    var props := a[id].properties;
    assert Event(a, id, fuel).Some?;
    var m := Event(a, id, fuel).value;
    assert m.Keys == event.Keys;
    assert forall k :: k in m ==> m[k] == event[k];
    assert m == event;
  }

  /** The body of the property loop. */
  method PropertyValue(a: Arena, pid: SchemaId, fuel: nat) returns (r: Option<Option<Json>>)
    requires MockJsonschema.Closed(a) && pid in a
    ensures r == Value(a, pid, fuel)
    decreases fuel, 2
  {
    var element := a[pid];
    r := Some(None);
    if |element.types| == 1 {
      var t := element.types[0];
      if t == "string" {
        r := Some(Some(JStr("string")));
      } else if t == "number" {
        r := Some(Some(JNum(1)));
      } else if t == "object" {
        var m := GenerateEvent(a, pid, fuel);
        if m.None? {
          return None;
        }
        r := Some(Some(JObj(m.value)));
      } else if t == "array" && element.items.ItemSchema? {
        var arrSchema := a[element.items.id];
        var e: Json := JNull;
        if |arrSchema.types| == 1 {
          if arrSchema.types[0] == "string" {
            e := JStr("string");
          } else if arrSchema.types[0] == "number" {
            e := JNum(1);
          } else if arrSchema.types[0] == "object" {
            var m := GenerateEvent(a, pid, fuel);
            if m.None? {
              return None;
            }
            e := JObj(m.value);
          }
        }
        r := Some(Some(JArr([e])));
      }
    }
    if element.ref.Some? {
      var m := GenerateEvent(a, element.ref.value, fuel);
      if m.None? {
        return None;
      }
      r := Some(Some(JObj(m.value)));
    }
  }

  /**
   * The keys of a generated event: a property is present exactly when it
   * has a `$ref`, or a single type "string", "number" or "object", or the
   * type "array" with a single `items` schema.
   */
  lemma EventKeys(a: Arena, id: SchemaId, fuel: nat)
    requires MockJsonschema.Closed(a) && id in a && Event(a, id, fuel).Some?
    ensures forall k :: k in Event(a, id, fuel).value <==>
      (k in a[id].properties &&
       var p := a[a[id].properties[k]];
       p.ref.Some? || (|p.types| == 1 && (p.types[0] in {"string", "number", "object"} ||
                                          (p.types[0] == "array" && p.items.ItemSchema?))))
  {
  }

  /** More fuel never changes a finished generation. */
  lemma {:induction false} FuelMonotone(a: Arena, id: SchemaId, fuel: nat, more: nat)
    requires MockJsonschema.Closed(a) && id in a && fuel <= more && Event(a, id, fuel).Some?
    ensures Event(a, id, more) == Event(a, id, fuel)
    decreases fuel, 0
  {
    var props := a[id].properties;
    forall k | k in props
      ensures Value(a, props[k], more - 1) == Value(a, props[k], fuel - 1)
    {
      ValueFuelMonotone(a, props[k], fuel - 1, more - 1);
    }
    EventValues(a, id, fuel);
    EventFromValues(a, id, more, Event(a, id, fuel).value);
  }

  /** The property half of `FuelMonotone`. */
  lemma {:induction false} ValueFuelMonotone(a: Arena, pid: SchemaId, fuel: nat, more: nat)
    requires MockJsonschema.Closed(a) && pid in a && fuel <= more && Value(a, pid, fuel).Some?
    ensures Value(a, pid, more) == Value(a, pid, fuel)
    decreases fuel, 2
  {
    var p := a[pid];
    if |p.types| == 1 && p.types[0] == "object" {
      FuelMonotone(a, pid, fuel, more);
    }
    if |p.types| == 1 && p.types[0] == "array" && p.items.ItemSchema? {
      var s := a[p.items.id];
      if |s.types| == 1 && s.types[0] == "object" {
        FuelMonotone(a, pid, fuel, more);
      }
    }
    if p.ref.Some? {
      FuelMonotone(a, p.ref.value, fuel, more);
    }
  }

  /** A schema with a property whose `$ref` is the schema itself never finishes, whatever the fuel. */
  lemma {:induction false} SelfReferenceDiverges(a: Arena, id: SchemaId, k: string, fuel: nat)
    requires MockJsonschema.Closed(a) && id in a && k in a[id].properties
    requires a[a[id].properties[k]].ref == Some(id)
    ensures Event(a, id, fuel).None?
    decreases fuel
  {
    if fuel > 0 {
      SelfReferenceDiverges(a, id, k, fuel - 1);
      assert Value(a, a[id].properties[k], fuel - 1).None?;
    }
  }
}
