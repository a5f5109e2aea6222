/** The Python values that travel through validated-data dictionaries and table rows. */
module Values {

  /** A timestamp, as read from the clock. */
  type Time = int

  /** A Python value: `None`, a bool, an int, a str, or a datetime. */
  datatype Value = Null | Bool(b: bool) | Int(i: int) | Str(s: string) | DateTime(t: Time)

  /** A dictionary keyed by field name, as built by the serializers and the services. */
  type Dict = map<string, Value>

  /** Python truthiness: `None`, `False`, `0` and `''` are falsy; everything else is truthy. */
  predicate Truthy(v: Value)
    ensures Truthy(v) <==> v !in {Null, Bool(false), Int(0), Str("")}
  {
    match v
    case Null => false
    case Bool(b) => b
    case Int(i) => i != 0
    case Str(s) => s != ""
    case DateTime(_) => true
  }

  /** `d.get(key)`: the value stored under `key`, or `None` when the key is absent. */
  function Get(d: Dict, key: string): (v: Value)
    ensures key !in d ==> v == Null
    ensures key in d ==> v == d[key]
  {
    if key in d then d[key] else Null
  }
}
