/** JSON values as `serde_json` represents them, with the two accessors
    the backend uses. */
module Json {
  import opened Wrappers

  const U64Limit: nat := 0x1_0000_0000_0000_0000

  /** A value that fits an unsigned 64-bit integer. */
  type U64 = n: nat | n < U64Limit

  /** `serde_json::Number`: a non-negative integer, a negative integer or
      a float. */
  datatype Number = PosInt(n: U64) | NegInt(i: int) | Float(f: real)

  datatype Value =
    | Null
    | Bool(b: bool)
    | Num(num: Number)
    | Str(s: string)
    | Array(items: seq<Value>)
    | Object(fields: map<string, Value>)

  /** `Value::as_str`. */
  function AsStr(v: Value): (r: Option<string>)
    ensures r.Some? <==> v.Str?
    ensures r.Some? ==> v == Str(r.value)
  {
    if v.Str? then Some(v.s) else None
  }

  /** `Value::as_u64`: only a non-negative integer number converts. */
  function AsU64(v: Value): (r: Option<U64>)
    ensures r.Some? <==> v.Num? && v.num.PosInt?
    ensures r.Some? ==> v == Num(PosInt(r.value))
  {
    if v.Num? && v.num.PosInt? then Some(v.num.n) else None
  }
}
