/**
 * Decoded JSON values, as the server receives them from the JSON decoder, and the two
 * operations the server applies to them: key lookup with a default (`dict.get`) and
 * truthiness (`not x`).
 */
module Json {

  /** A decoded JSON document. Numbers are kept as reals: the server never computes with them. */
  datatype Value =
    | Null
    | Bool(b: bool)
    | Number(x: real)
    | Text(s: string)
    | Array(items: seq<Value>)
    | Object(fields: map<string, Value>)

  /**
   * Truthiness of a decoded value: None, False, zero, the empty string and empty
   * containers are falsy, everything else is truthy.
   */
  predicate Truthy(v: Value): (t: bool)
    ensures !t <==> v == Null || v == Bool(false) || v == Number(0.0) || v == Text([])
                    || v == Array([]) || v == Object(map[])
  {
    match v
    case Null => false
    case Bool(b) => b
    case Number(x) => x != 0.0
    case Text(s) => s != []
    case Array(items) => items != []
    case Object(fields) => fields != map[]
  }

  /** `m.get(key, default)`: the entry for `key`, or `default` when the key is absent. */
  function GetOr(m: map<string, Value>, key: string, default: Value): (v: Value)
    ensures key in m ==> v == m[key]
    ensures key !in m ==> v == default
  {
    if key in m then m[key] else default
  }

  /** `m.get(key)`: the entry for `key`, or None (Null) when the key is absent. */
  function Get(m: map<string, Value>, key: string): (v: Value)
    ensures key in m ==> v == m[key]
    ensures key !in m ==> v == Null
  {
    GetOr(m, key, Null)
  }

}
