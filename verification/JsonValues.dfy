/** JSON values as `json.loads` returns them, and the dictionary reads the harness uses on them. */
module JsonValues {

  datatype Json =
    | Null
    | Bool(b: bool)
    | Int(n: int)
    | Real(r: real)
    | Str(s: string)
    | Arr(items: seq<Json>)
    | Obj(fields: map<string, Json>)

  type Object = map<string, Json>

  /** `value.get(key)` */
  function Get(o: Object, key: string): Json {
    if key in o then o[key] else Null
  }

  /** `value.get(key, default)` */
  function GetOr(o: Object, key: string, default: Json): Json {
    if key in o then o[key] else default
  }

  /** The value under a key of the object under another key; null where either is missing. */
  function GetIn(o: Object, outer: string, key: string): Json {
    var inner := Get(o, outer);
    if inner.Obj? then Get(inner.fields, key) else Null
  }

  /** Python truth of a JSON value, as `a or b` sees it. */
  predicate Truthy(j: Json) {
    match j
    case Null => false
    case Bool(b) => b
    case Int(n) => n != 0
    case Real(r) => r != 0.0
    case Str(s) => s != ""
    case Arr(items) => items != []
    case Obj(fields) => fields != map[]
  }

  /** `a or b` */
  function Or(a: Json, b: Json): Json {
    if Truthy(a) then a else b
  }

  /** `value == k` for an integer k: Python also equates `True` with 1 and `1.0` with 1. */
  predicate EqualsInt(j: Json, k: int) {
    match j
    case Int(n) => n == k
    case Real(r) => r == k as real
    case Bool(b) => k == if b then 1 else 0
    case _ => false
  }
}
