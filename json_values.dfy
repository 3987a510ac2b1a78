/**
 * Decoded JSON values as Python's `json.loads` hands them over, with
 * Python's notion of truthiness and `dict.get(key, "")`.
 */
module JsonValues {

  /** A decoded JSON value; numbers are kept as exact decimals. */
  datatype Json =
    | JNull
    | JBool(b: bool)
    | JNumber(n: real)
    | JString(s: string)
    | JArray(items: seq<Json>)
    | JObject(fields: map<string, Json>)

  /** The decoded values Python treats as false: `None`, `False`, zero, and the empty string, list and dict. */
  const Falsy: set<Json> := {JNull, JBool(false), JNumber(0.0), JString(""), JArray([]), JObject(map[])}

  /** Python truthiness of a decoded value. */
  predicate Truthy(v: Json): (truthy: bool)
    ensures truthy <==> v !in Falsy
  {
    match v
    case JNull => false
    case JBool(b) => b
    case JNumber(n) => n != 0.0
    case JString(s) => |s| > 0
    case JArray(items) => |items| > 0
    case JObject(fields) => |fields| > 0
  }

  /** `d.get(key, "")`: the stored value, or the empty string when the key is absent. */
  function GetOrEmpty(d: map<string, Json>, key: string): (v: Json)
    ensures key in d ==> v == d[key]
    ensures key !in d ==> v == JString("") && !Truthy(v)
  {
    if key in d then d[key] else JString("")
  }
}
