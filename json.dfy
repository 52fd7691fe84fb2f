/** The values `json.loads` can produce, as far as this model needs them,
    and the two Python idioms the core applies to them: truthiness
    (`if not x`) and `dict.get(key, default)`. */
module JsonValues {
  import opened Wrappers

  /** A decoded JSON document.  Numbers are integers (no float is ever
      inspected by the core). */
  datatype Json =
    | JNull
    | JBool(b: bool)
    | JNum(n: int)
    | JStr(s: string)
    | JArr(items: seq<Json>)
    | JObj(fields: map<string, Json>)

  /** Python's `bool(x)`: `None`, `False`, `0` and empty containers are
      false, everything else is true. */
  predicate Truthy(j: Json)
  {
    match j
    case JNull => false
    case JBool(b) => b
    case JNum(n) => n != 0
    case JStr(s) => s != []
    case JArr(items) => items != []
    case JObj(fields) => fields != map[]
  }

  /** `d.get(key, default)`. */
  function Get(d: map<string, Json>, key: string, default: Json): (r: Json)
    ensures key in d ==> r == d[key]
    ensures key !in d ==> r == default
  {
    if key in d then d[key] else default
  }

  /** The parser the core calls (`json.loads`) is not modelled: every
      operation that decodes text takes it as a parameter. */
  type Loads = string -> Option<Json>
}
