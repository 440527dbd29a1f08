/** Decoded JSON values as the client sees them after `response.json()`, with the
    two Python operations the client applies to them: `dict.get(key, default)`
    and truth testing (`if value:` / `not value`). */
module Json {

  /** A decoded JSON document. Numbers are integers only. */
  datatype JsonValue =
    | JNull
    | JBool(b: bool)
    | JNum(n: int)
    | JStr(s: string)
    | JArray(items: seq<JsonValue>)
    | JObject(fields: map<string, JsonValue>)

  /** A JSON object, i.e. a Python `dict` with string keys. */
  type Dict = map<string, JsonValue>

  /** Python's `d.get(key, default)`. */
  function GetOr(d: Dict, key: string, default: JsonValue): JsonValue
  {
    if key in d then d[key] else default
  }

  /** Python truthiness of a decoded JSON value: `None`, `False`, `0`, `""`,
      `[]` and `{}` are false, everything else is true. */
  predicate Truthy(v: JsonValue)
  {
    match v
    case JNull => false
    case JBool(b) => b
    case JNum(n) => n != 0
    case JStr(s) => s != ""
    case JArray(items) => items != []
    case JObject(fields) => fields != map[]
  }
}
