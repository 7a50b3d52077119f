/**
 * A stand-in for `serde_json::Value`, the structured payload of messages and
 * state entries. Numbers are integers here (floating-point JSON numbers are
 * outside the model).
 */
module Json {
  import opened Wrappers

  datatype Json =
    | JNull
    | JBool(b: bool)
    | JNumber(n: int)
    | JString(s: string)
    | JArray(items: seq<Json>)
    | JObject(fields: map<string, Json>)

  /** `Value::get(field)`: the member of an object, and nothing for any other kind of value. */
  function GetField(v: Json, field: string): (r: Option<Json>)
    ensures r.Some? <==> v.JObject? && field in v.fields
    ensures r.Some? ==> r.value == v.fields[field]
  {
    match v
    case JObject(fields) => if field in fields then Some(fields[field]) else None
    case _ => None
  }

  /** `Value::as_str`: the text of a string value, and nothing for any other kind of value. */
  function AsStr(v: Json): (r: Option<string>)
    ensures r.Some? <==> v.JString?
    ensures r.Some? ==> r.value == v.s
  {
    match v
    case JString(s) => Some(s)
    case _ => None
  }
}
