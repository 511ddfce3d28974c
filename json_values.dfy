/** JSON values as the corpus files and the Python dictionaries hold them.
    `JNull` is JSON `null`, which Python reads as `None`; a missing key and a
    `null` value are therefore the same thing to `dict.get`. */
module JsonValues {

  datatype Json =
    | JNull
    | JBool(b: bool)
    | JInt(i: int)
    | JReal(r: real)
    | JString(s: string)
    | JList(items: seq<Json>)

  /** A JSON object whose key order does not matter to the code reading it. */
  type Object = map<string, Json>

  /** A corpus file as `json.load` reads it: season key -> (episode key ->
      episode record), each object in the order of the file. The keys of a
      loaded object are distinct; these sequences also admit repeated keys,
      so what is proved about them holds in particular for loaded files. */
  type RawSeason = seq<(string, Object)>
  type RawCorpus = seq<(string, RawSeason)>

  /** Python's `d.get(key)`: the value, or `None` when the key is absent. */
  function Get(d: Object, key: string): Json
  {
    if key in d then d[key] else JNull
  }

  /** Python's `d.get(key, default)`. An explicit `null` is returned as is. */
  function GetOr(d: Object, key: string, default: Json): Json
  {
    if key in d then d[key] else default
  }
}
