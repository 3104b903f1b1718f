/**
 * The mock-event entry point (`internal/pkg/mock/event/generate.go`):
 * dispatch on the raw schema's type to the OpenAPI or the JSON Schema
 * generator, and put a common prefix on their errors. The generated event
 * is returned before JSON encoding; the schema loader and compiler are
 * inputs of the two generators.
 */
module MockGenerate {
  import opened Wrappers
  import opened Json
  import MockOpenapi
  import MockJsonschema

  const OpenApi3 := "OpenApi3"
  const JsonSchemaDraft4 := "JSONSchemaDraft4"
  const GeneratePrefix := "error generating mock event: "
  const UnsupportedSchemaType := "error generating mock event: unsupported schema type found"

  /** The loader and compiler the two generators use. */
  datatype Backends = Backends(load: string -> Result<MockOpenapi.Document, string>,
                               compile: string -> Result<MockJsonschema.Compiled, string>)

  ghost predicate Sound(b: Backends)
  {
    && (forall c :: b.load(c).Ok? ==> MockOpenapi.Resolved(b.load(c).value))
    && (forall c :: b.compile(c).Ok? ==> MockJsonschema.Resolved(b.compile(c).value))
  }

  /** Each error of a generator, behind the common prefix; a panic passes through. */
  function Prefixed(r: Result<Json, set<GoError>>): (p: Result<Json, set<GoError>>)
    ensures r.Ok? <==> p.Ok?
    ensures r.Ok? ==> p.value == r.value
    ensures r.Err? ==> p.error == set e | e in r.error :: Wrap(GeneratePrefix, e)
  {
    match r
    case Ok(v) => Ok(v)
    case Err(es) => Err(set e | e in es :: Wrap(GeneratePrefix, e))
  }

  /**
   * What `GenerateMockEvent` can return: a nil schema type is dereferenced,
   * "OpenApi3" and "JSONSchemaDraft4" select their generator with the same
   * `skipOptional`, and any other type is refused without running one.
   */
  function Outcome(raw: MockOpenapi.RawSchema, b: Backends, skipOptional: bool, now: string): (r: Result<Json, set<GoError>>)
    requires Sound(b)
    ensures raw.schemaType.None? ==> r == Err({Panic(NilDereference)})
    ensures raw.schemaType == Some(OpenApi3) ==> r == Prefixed(MockOpenapi.Outcome(raw, b.load, skipOptional, now))
    ensures raw.schemaType == Some(JsonSchemaDraft4) ==> r == Prefixed(MockJsonschema.Outcome(raw, b.compile, skipOptional, now))
    ensures raw.schemaType.Some? && raw.schemaType.value !in {OpenApi3, JsonSchemaDraft4} ==>
      r == Err({Failure(UnsupportedSchemaType)})
  {
    if raw.schemaType.None? then Err({Panic(NilDereference)})
    else if raw.schemaType.value == OpenApi3 then Prefixed(MockOpenapi.Outcome(raw, b.load, skipOptional, now))
    else if raw.schemaType.value == JsonSchemaDraft4 then Prefixed(MockJsonschema.Outcome(raw, b.compile, skipOptional, now))
    else Err({Failure(UnsupportedSchemaType)})
  }

  /** `GenerateMockEvent`. */
  method GenerateMockEvent(raw: MockOpenapi.RawSchema, b: Backends, skipOptional: bool, now: string)
    returns (r: Result<Json, GoError>)
    requires Sound(b)
    ensures Realizes(r, Outcome(raw, b, skipOptional, now))
  {
    if raw.schemaType.None? {
      return Err(Panic(NilDereference));
    }
    var generated: Result<Json, GoError>;
    if raw.schemaType.value == OpenApi3 {
      generated := MockOpenapi.GenerateOpenapiEvent(raw, b.load, skipOptional, now);
    } else if raw.schemaType.value == JsonSchemaDraft4 {
      generated := MockJsonschema.GenerateJsonschemaEvent(raw, b.compile, skipOptional, now);
    } else {
      return Err(Failure(UnsupportedSchemaType));
    }
    if generated.Err? {
      return Err(Wrap(GeneratePrefix, generated.error));
    }
    return Ok(generated.value);
  }

  /**
   * Every error either generator can return reaches the caller behind the
   * prefix, and a panic reaches it unchanged.
   */
  lemma GeneratorErrorsPrefixed(raw: MockOpenapi.RawSchema, b: Backends, skipOptional: bool, now: string, e: GoError)
    requires Sound(b) && raw.schemaType.Some?
    requires var inner := if raw.schemaType.value == OpenApi3 then MockOpenapi.Outcome(raw, b.load, skipOptional, now)
                          else MockJsonschema.Outcome(raw, b.compile, skipOptional, now);
      raw.schemaType.value in {OpenApi3, JsonSchemaDraft4} && inner.Err? && e in inner.error
    ensures Outcome(raw, b, skipOptional, now).Err?
    ensures e.Failure? ==> Failure(GeneratePrefix + e.message) in Outcome(raw, b, skipOptional, now).error
    ensures e.Panic? ==> e in Outcome(raw, b, skipOptional, now).error
  {
    assert Wrap(GeneratePrefix, e) in Outcome(raw, b, skipOptional, now).error;
  }
}
