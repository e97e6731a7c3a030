/** The already-parsed JSON tree that the service reads the weather payload from. */
module Json {
  import opened Domain

  /** A JSON value as the parser delivers it: whole numbers become Java longs (so `n` lies in
      the 64-bit signed range, which the type does not enforce); numbers with a fraction or an
      exponent become doubles; an object maps each key to one value. */
  datatype Json =
    | JNull
    | JBool(b: bool)
    | JLong(n: int)
    | JDouble(bits: Float64)
    | JString(s: string)
    | JArray(items: seq<Json>)
    | JObject(fields: map<string, Json>)

  /** `JSONObject.get`: the value under `key`, or null when the key is absent. */
  function Get(fields: map<string, Json>, key: string): Json {
    if key in fields then fields[key] else JNull
  }

  /** One step of a path into a tree: an object key or an array position. */
  datatype Step = Key(name: string) | Index(i: nat)

  /** The value reached by following `path` from `j`; null where a step does not apply. */
  function At(j: Json, path: seq<Step>): Json
    decreases |path|
  {
    if path == [] then j
    else
      match path[0]
      case Key(k) => if j.JObject? then At(Get(j.fields, k), path[1..]) else JNull
      case Index(i) => if j.JArray? && i < |j.items| then At(j.items[i], path[1..]) else JNull
  }
}
