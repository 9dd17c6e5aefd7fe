/** JSON-like values: the dictionaries the tools exchange and the bodies the task service returns. */
module Json {

  datatype Value =
    | Null
    | Bool(b: bool)
    | Int(i: int)
    | Str(s: string)
    | Array(items: seq<Value>)
    | Object(fields: map<string, Value>)

  /** A Python `dict` with string keys. */
  type Dict = map<string, Value>

  /** `d.get(key)`: the stored value, or `None` when the key is absent. */
  function Get(d: Dict, key: string): (v: Value)
    ensures key !in d ==> v == Null
    ensures key in d ==> v == d[key]
  {
    if key in d then d[key] else Null
  }

  /** Python truthiness of a present string: `None` and "" are both false. */
  predicate Truthy(s: string) {
    s != ""
  }
}
