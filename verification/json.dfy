/**
 * JSON-like values: what Go's `encoding/json` decodes into `any`
 * (`map[string]any`, `[]any`, strings, numbers, booleans, nil) and what
 * Python's `json` module decodes into dicts, lists and scalars.
 */
module Json {

  /** Numbers are integers: no modelled code inspects a fractional part. */
  datatype Json =
    | JNull
    | JBool(b: bool)
    | JNum(n: int)
    | JStr(s: string)
    | JArr(items: seq<Json>)
    | JObj(fields: map<string, Json>)

  /** Python truthiness of a decoded JSON value: None, False, 0, "", [] and {} are falsy. */
  predicate Truthy(v: Json)
  {
    match v
    case JNull => false
    case JBool(b) => b
    case JNum(n) => n != 0
    case JStr(s) => s != ""
    case JArr(items) => items != []
    case JObj(fields) => fields != map[]
  }

  /** Python's `d.get(k)`: the value under `k`, or None (JSON null) when absent. */
  function Get(d: map<string, Json>, k: string): (v: Json)
    ensures k !in d ==> v == JNull
  {
    if k in d then d[k] else JNull
  }

  /** Python's `d.get(k, default)`. */
  function GetOr(d: map<string, Json>, k: string, default: Json): (v: Json)
    ensures k !in d ==> v == default
  {
    if k in d then d[k] else default
  }
}
