/** The dynamically typed reading value: a JSON value as the serde_json crate
    represents it, with the four typed accessors the encoder uses
    (`as_bool`, `as_i64`, `as_f64`, `as_str`). */
module JsonValue {
  import opened Wrappers
  import opened IntTypes

  /** serde_json keeps a negative integer as `NegInt`, a non-negative one as `PosInt`. */
  type NegI64 = x: int | I64_MIN <= x < 0 witness -1

  /** A 64-bit float, kept opaque: either the IEEE-754 bit pattern of a float
      read as such, or the conversion of an integer to the nearest f64, whose
      rounding is not modelled. */
  datatype F64 = Bits(bits: bv64) | IntAsF64(n: int)

  /** +0.0, whose IEEE-754 bit pattern is all zeros. */
  const ZERO: F64 := Bits(0)

  datatype Number = PosInt(u: u64) | NegInt(i: NegI64) | Float(f: bv64)

  datatype Value =
    | Null
    | Bool(b: bool)
    | Number(n: Number)
    | String(s: string)
    | Array(items: seq<Value>)
    | Object(members: seq<(string, Value)>)

  /** `Value::as_bool`: only a JSON boolean reads as a bool. */
  function AsBool(v: Value): (r: Option<bool>)
    ensures r.Some? <==> v.Bool?
    ensures r.Some? ==> r.value == v.b
  {
    if v.Bool? then Some(v.b) else None
  }

  /** `Value::as_i64`: an integer number that fits in i64; a float (even an
      integral one) or an unsigned integer above `i64::MAX` does not. */
  function AsI64(v: Value): (r: Option<i64>)
    ensures r.Some? <==> (v.Number? && (v.n.NegInt? || (v.n.PosInt? && v.n.u <= I64_MAX)))
    ensures r.Some? ==> (v.n.NegInt? && r.value == v.n.i) || (v.n.PosInt? && r.value == v.n.u)
  {
    match v
    case Number(PosInt(u)) => if u <= I64_MAX then Some(u) else None
    case Number(NegInt(i)) => Some(i)
    case _ => None
  }

  /** `Value::as_f64`: every number reads as an f64 (integers converted), nothing else does. */
  function AsF64(v: Value): (r: Option<F64>)
    ensures r.Some? <==> v.Number?
    ensures r.Some? && v.n.Float? ==> r.value == Bits(v.n.f)
    ensures r.Some? && v.n.PosInt? ==> r.value == IntAsF64(v.n.u)
    ensures r.Some? && v.n.NegInt? ==> r.value == IntAsF64(v.n.i)
  {
    match v
    case Number(PosInt(u)) => Some(IntAsF64(u))
    case Number(NegInt(i)) => Some(IntAsF64(i))
    case Number(Float(f)) => Some(Bits(f))
    case _ => None
  }

  /** `Value::as_str`: only a JSON string reads as a string. */
  function AsStr(v: Value): (r: Option<string>)
    ensures r.Some? <==> v.String?
    ensures r.Some? ==> r.value == v.s
  {
    if v.String? then Some(v.s) else None
  }
}
