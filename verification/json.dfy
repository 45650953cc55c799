/**
 * JSON values as the Python services see them after `response.json()` or
 * `json.loads`, together with the three Python behaviours the services rely
 * on: truthiness (`if not resp`), `dict.get(key, default)` (which raises
 * AttributeError on anything that is not a dict) and `len`.
 *
 * Numbers are carried as opaque reals: the services pass them through and
 * never compute with them, so int/float distinctions are not modelled.
 */
module Json {
  import opened Common

  datatype Json =
    | JNull
    | JBool(b: bool)
    | JNum(n: real)
    | JStr(s: string)
    | JArray(items: seq<Json>)
    | JObject(fields: map<string, Json>)

  /** Python truthiness of the decoded value. */
  predicate Truthy(j: Json)
  {
    match j
    case JNull => false
    case JBool(b) => b
    case JNum(n) => n != 0.0
    case JStr(s) => |s| > 0
    case JArray(a) => |a| > 0
    case JObject(m) => |m| > 0
  }

  /** `not resp` for a ServiceClient reply: `None` and every falsy value. */
  predicate Missing(reply: Option<Json>)
  {
    reply.None? || !Truthy(reply.value)
  }

  /**
   * `j.get(key, default)`: the stored value (even a JSON null) when `j` is a
   * dict holding `key`, `default` when it is a dict without it, and `None`
   * (AttributeError) when `j` is not a dict at all.
   */
  function GetOr(j: Json, key: string, default: Json): (r: Option<Json>)
    ensures r.Some? <==> j.JObject?
    ensures j.JObject? && key in j.fields ==> r == Some(j.fields[key])
    ensures j.JObject? && key !in j.fields ==> r == Some(default)
  {
    match j
    case JObject(m) => Some(if key in m then m[key] else default)
    case _ => None
  }

  /** Values `len()` accepts: str, list and dict. */
  predicate HasLen(j: Json)
  {
    j.JStr? || j.JArray? || j.JObject?
  }

  /** Values `format(v, ".1f")` accepts: int, float and bool. */
  predicate IsNumber(j: Json)
  {
    j.JNum? || j.JBool?
  }

  function Len(j: Json): nat
    requires HasLen(j)
  {
    match j
    case JStr(s) => |s|
    case JArray(a) => |a|
    case JObject(m) => |m|
  }

  /** A JSON string from a Python str. */
  function Str(s: string): Json { JStr(s) }

  /** Reads a field that must hold a string. */
  function GetStr(m: map<string, Json>, key: string): (r: Option<string>)
    ensures r.Some? <==> key in m && m[key].JStr?
    ensures r.Some? ==> m[key] == JStr(r.value)
  {
    if key in m && m[key].JStr? then Some(m[key].s) else None
  }
}
