/** Failure-compatible wrappers and the loosely typed JSON values the pipeline
    passes around (patient context, configuration entries, agent results). */
module Wrappers {

  datatype Option<+T> = None | Some(value: T) {
    function GetOr(default: T): T {
      match this
      case Some(v) => v
      case None => default
    }
  }

  /** A Python exception is modelled as an `Err` carrying the exception's kind. */
  datatype Result<+T> = Ok(value: T) | Err(error: string)

  /** A JSON-like value as Python's `json`/`yaml` loaders produce it. */
  datatype Json =
    | JNull
    | JBool(b: bool)
    | JNum(n: real)
    | JStr(s: string)
    | JList(items: seq<Json>)
    | JObj(fields: map<string, Json>)

  /** Python truthiness of a loaded value. */
  predicate Truthy(j: Json) {
    match j
    case JNull => false
    case JBool(b) => b
    case JNum(n) => n != 0.0
    case JStr(s) => s != ""
    case JList(items) => items != []
    case JObj(fields) => fields != map[]
  }

  /** `d.get(key)` on a dict value: the value, or `JNull` when absent (Python's `None`). */
  function Get(fields: map<string, Json>, key: string): Json {
    if key in fields then fields[key] else JNull
  }
}
