/**
 * The JSON tree that `response.json()` decodes into Python values:
 * dicts, lists, strings, numbers, booleans and `None`.
 */
module JsonValues {

  datatype Json =
    | JNull
    | JBool(b: bool)
    | JNumber(n: int)
    | JString(s: string)
    | JArray(elems: seq<Json>)
    | JObject(fields: map<string, Json>)

  /** The empty dict `{}`. */
  const EmptyObject: Json := JObject(map[])

  /**
   * Python's `d.get(key, default)`: the stored value whenever the key is
   * present (an explicit `null` included), the default only when it is absent.
   */
  function Get(d: map<string, Json>, key: string, default: Json): Json
  {
    if key in d then d[key] else default
  }
}
