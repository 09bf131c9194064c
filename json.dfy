/** JSON values as the browser client sees them after `response.json()`, with JavaScript truthiness. */
module Json {

  datatype JsonValue =
    | Undefined
    | Null
    | Bool(b: bool)
    | Number(n: real)
    | Str(s: string)
    | Arr(items: seq<JsonValue>)
    | Obj(fields: map<string, JsonValue>)

  /** JavaScript truthiness (NaN is not modelled). */
  predicate Truthy(v: JsonValue) {
    match v
    case Undefined => false
    case Null => false
    case Bool(b) => b
    case Number(n) => n != 0.0
    case Str(s) => s != ""
    case _ => true
  }

  /** Property access `v.key` on a value that is not null or undefined. */
  function Get(v: JsonValue, key: string): JsonValue {
    if v.Obj? && key in v.fields then v.fields[key] else Undefined
  }

  /** `v.key` throws a TypeError exactly on null and undefined. */
  predicate AccessThrows(v: JsonValue) {
    v.Null? || v.Undefined?
  }
}
