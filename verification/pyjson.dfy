/**
  Decoded JSON values as the webhook handlers see them (Python objects after
  `request.get_json()`), with Python's truthiness and the built-in `int()`
  applied to such a value.
 */
module PyJson {
  import opened Wrappers
  import PyText

  datatype Json =
    | JNull
    | JBool(b: bool)
    | JInt(i: int)
    | JReal(r: real)
    | JStr(s: string)
    | JArray(items: seq<Json>)
    | JObject(fields: map<string, Json>)

  /** Python's `bool(v)`: `None`, `False`, zero, and empty strings and containers are falsy. */
  predicate Truthy(v: Json) {
    match v
    case JNull => false
    case JBool(b) => b
    case JInt(i) => i != 0
    case JReal(r) => r != 0.0
    case JStr(s) => |s| > 0
    case JArray(items) => |items| > 0
    case JObject(fields) => |fields| > 0
  }

  /** `d.get(key)`: the value under `key`, or `None` when it is absent. */
  function Get(d: map<string, Json>, key: string): Json {
    if key in d then d[key] else JNull
  }

  /** `d.get(key, default)`. */
  function GetOr(d: map<string, Json>, key: string, default: Json): Json {
    if key in d then d[key] else default
  }

  /** Python's `int(x)` truncates a float toward zero. */
  function Truncate(r: real): (i: int)
    ensures r >= 0.0 ==> i as real <= r < i as real + 1.0
    ensures r < 0.0 ==> i as real - 1.0 < r <= i as real
  {
    if r >= 0.0 then r.Floor else -((-r).Floor)
  }

  /**
    Python's `int(v)`. `None` stands for the `TypeError` (null, arrays,
    objects) and the `ValueError` (a string that is not an integer literal)
    that the current webhook catches; booleans are integers in Python.
   */
  function ToInt(v: Json): (r: Option<int>)
    ensures v.JNull? || v.JArray? || v.JObject? ==> r.None?
    ensures v.JInt? ==> r == Some(v.i)
    ensures v.JBool? ==> r == Some(if v.b then 1 else 0)
    ensures v.JStr? ==> r == PyText.ParseInt(v.s)
  {
    match v
    case JNull => None
    case JBool(b) => Some(if b then 1 else 0)
    case JInt(i) => Some(i)
    case JReal(x) => Some(Truncate(x))
    case JStr(s) => PyText.ParseInt(s)
    case JArray(_) => None
    case JObject(_) => None
  }
}
