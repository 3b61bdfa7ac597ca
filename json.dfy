/** Parsed JSON values as the application sees them after `JSON.parse`.
    `JSON.parse` itself is a foreign parser: the model receives it as a
    function `string -> Option<Json>` that is `None` exactly when parsing
    throws. An object's entries are listed in the order `Object.entries`
    enumerates the parsed object's own properties. */
module Json {
  import opened Wrappers

  datatype Json =
    | JNull
    | JBool(b: bool)
    | JNum(n: real)
    | JStr(s: string)
    | JArr(items: seq<Json>)
    | JObj(entries: seq<(string, Json)>)

  /** The function standing in for `JSON.parse`. */
  type Parser = string -> Option<Json>

  /** JavaScript truthiness of a parsed value: `null`, `false`, `0` and the
      empty string are falsy; arrays and objects are always truthy. */
  predicate Truthy(j: Json) {
    match j
    case JNull => false
    case JBool(b) => b
    case JNum(n) => n != 0.0
    case JStr(s) => s != ""
    case JArr(_) => true
    case JObj(_) => true
  }

  /** The index of the first entry named `key`, if any. */
  function FindKey(entries: seq<(string, Json)>, key: string): (r: Option<nat>)
    ensures r.Some? ==> r.value < |entries| && entries[r.value].0 == key
    ensures r.Some? ==> forall j :: 0 <= j < r.value ==> entries[j].0 != key
    ensures r.None? <==> forall j :: 0 <= j < |entries| ==> entries[j].0 != key
  {
    if |entries| == 0 then None
    else if entries[0].0 == key then Some(0)
    else match FindKey(entries[1..], key)
      case None => None
      case Some(i) => Some(i + 1)
  }

  /** Property access `value.key` on a parsed value: only objects have own
      properties; for every other value the property is `undefined` (`None`). */
  function Property(j: Json, key: string): (r: Option<Json>)
    ensures r.Some? ==> j.JObj?
    ensures r.Some? ==> exists i :: 0 <= i < |j.entries| && j.entries[i] == (key, r.value)
  {
    if j.JObj? then
      match FindKey(j.entries, key)
      case None => None
      case Some(i) => Some(j.entries[i].1)
    else None
  }
}
