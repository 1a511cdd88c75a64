/** JSON values as the client sees them after parsing: numbers are doubles,
    objects have one value per key, and a missing key reads as undefined. */
module Json {
  import opened Text

  datatype Value =
    | Null
    | Bool(b: bool)
    | Number(n: real)
    | String(s: string)
    | Array(items: seq<Value>)
    | Object(fields: map<string, Value>)

  type Fields = map<string, Value>

  /** `None` is the undefined value of a missing key. */
  function Get(fields: Fields, key: string): Option<Value> {
    if key in fields then Some(fields[key]) else None
  }

  /** The text of a string value, and the empty text of anything else. */
  function AsText(v: Option<Value>): string {
    if v.Some? && v.value.String? then v.value.s else ""
  }

  predicate IsIntegral(x: real) {
    x.Floor as real == x
  }

  const INT_MIN: int := -0x8000_0000
  const INT_MAX: int := 0x7fff_ffff

  /** A number that is exactly a 32-bit integer, and the default otherwise. */
  function AsInt(v: Value, default: int): int {
    if v.Number? && IsIntegral(v.n) && INT_MIN <= v.n.Floor <= INT_MAX then v.n.Floor else default
  }

  function AsDouble(v: Option<Value>): real {
    if v.Some? && v.value.Number? then v.value.n else 0.0
  }
}
