/**
 * JSON values as they travel between the components (event payloads,
 * configuration dictionaries, the worker's request and reply lines).
 * Only the decoded value is modelled; JSON text is not parsed here.
 */
module Json {
  datatype Json =
    | JNull
    | JBool(b: bool)
    | JInt(i: int)
    | JFloat(r: real)
    | JStr(s: string)
    | JArr(items: seq<Json>)
    | JObj(fields: JsonObject)

  /** A Python `dict` with string keys. */
  type JsonObject = map<string, Json>

  /** Python truthiness of a decoded JSON value (`if not value: ...`). */
  predicate Truthy(j: Json) {
    match j
    case JNull => false
    case JBool(b) => b
    case JInt(i) => i != 0
    case JFloat(r) => r != 0.0
    case JStr(s) => s != ""
    case JArr(items) => items != []
    case JObj(fields) => fields != map[]
  }

  /** `{"error": message}`, the error shape every component uses. */
  function ErrorObject(message: string): (o: JsonObject)
    ensures o.Keys == {"error"} && o["error"] == JStr(message)
  {
    map["error" := JStr(message)]
  }
}
