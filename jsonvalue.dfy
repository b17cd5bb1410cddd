/**
 * A decoded JSON document as Go's `encoding/json` produces it for an `any`
 * target: objects become maps, numbers become float64 (here `real`).
 */
module JsonValue {

  datatype Json =
    | JNull
    | JBool(b: bool)
    | JNumber(n: real)
    | JString(s: string)
    | JArray(items: seq<Json>)
    | JObject(fields: map<string, Json>)

  /** Go's `m[key].(string)`: the string under `key`, or absent when missing or of another type. */
  predicate HasString(m: map<string, Json>, key: string) {
    key in m && m[key].JString?
  }
}
