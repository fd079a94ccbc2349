/**
 * The values `JSON.parse` can produce. Parsing itself is not modelled: callers
 * receive a parse function `string -> Option<Json>` whose `None` stands for a
 * thrown `SyntaxError`.
 */
module Json {
  import opened Wrappers

  datatype Json =
    | JNull
    | JBool(b: bool)
    | JNumber(n: int)
    | JString(str: string)
    | JArray(items: seq<Json>)
    | JObject(fields: map<string, Json>)

  /** `obj.key` when `obj` is an object whose `key` holds a string (`typeof … === 'string'`). */
  function StringField(j: Json, key: string): (r: Option<string>)
    ensures r.Some? <==> j.JObject? && key in j.fields && j.fields[key].JString?
    ensures r.Some? ==> j.fields[key] == JString(r.value)
  {
    if j.JObject? && key in j.fields && j.fields[key].JString? then Some(j.fields[key].str) else None
  }

  /** `obj.key` when `obj` is an object whose `key` holds an array (`Array.isArray`). */
  function ArrayField(j: Json, key: string): (r: Option<seq<Json>>)
    ensures r.Some? <==> j.JObject? && key in j.fields && j.fields[key].JArray?
    ensures r.Some? ==> j.fields[key] == JArray(r.value)
  {
    if j.JObject? && key in j.fields && j.fields[key].JArray? then Some(j.fields[key].items) else None
  }
}
