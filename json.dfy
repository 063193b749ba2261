/** JSON values as `json.loads` returns them, with Python's truthiness.
    `JNull` is Python's `None`, which is also what `dict.get` yields for a
    missing key. Numbers are integers: no fractional value is read anywhere. */
module Json {

  datatype Json =
    | JNull
    | JBool(b: bool)
    | JNum(n: int)
    | JStr(s: string)
    | JArr(items: seq<Json>)
    | JObj(fields: map<string, Json>)

  /** `bool(v)` */
  predicate Truthy(v: Json)
  {
    match v
    case JNull => false
    case JBool(b) => b
    case JNum(n) => n != 0
    case JStr(s) => s != ""
    case JArr(items) => items != []
    case JObj(fields) => fields != map[]
  }

  /** `obj.get(key)` */
  function Get(obj: map<string, Json>, key: string): Json
  {
    if key in obj then obj[key] else JNull
  }

  /** `a or b` */
  function Or(a: Json, b: Json): Json
  {
    if Truthy(a) then a else b
  }
}
