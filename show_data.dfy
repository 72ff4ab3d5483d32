/**
 * JSON values as the back end sees them after `json.loads`: the show data of a data file and the
 * `data` dictionary of an action request are both JSON objects.
 */
module ShowData {
  import opened Wrappers

  datatype Json =
    | JNull
    | JBool(b: bool)
    | JInt(i: int)
    | JStr(s: string)
    | JList(elems: seq<Json>)
    | JObject(fields: map<string, Json>)

  /** A JSON object: the show data, or the `data` of a request. */
  type Data = map<string, Json>

  /** Python's truth value of a decoded JSON value. */
  predicate Truthy(j: Json)
  {
    match j
    case JNull => false
    case JBool(b) => b
    case JInt(i) => i != 0
    case JStr(s) => s != ""
    case JList(xs) => |xs| > 0
    case JObject(m) => |m| > 0
  }

  /** `data[key]`: a `KeyError` when the key is missing. */
  function Field(data: Data, key: string): (r: Result<Json>)
    ensures r.Ok? <==> key in data
    ensures r.Ok? ==> r.value == data[key]
    ensures r.Err? ==> r.error == KeyError(key)
  {
    if key in data then Ok(data[key]) else Err(KeyError(key))
  }

  /** `data[key]` used as text; values that are not strings are a `TypeError` in the model. */
  function StringField(data: Data, key: string): (r: Result<string>)
    ensures r.Ok? <==> key in data && data[key].JStr?
    ensures r.Ok? ==> data[key] == JStr(r.value)
    ensures key !in data ==> r == Err(KeyError(key))
  {
    if key !in data then Err(KeyError(key))
    else if data[key].JStr? then Ok(data[key].s)
    else Err(TypeError)
  }
}
