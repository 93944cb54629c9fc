/** The part of serde_json's dynamically typed `Value` that the feeder reads: the value
    shapes, and the accessors `as_u64`, `as_f64` and `as_str`. */
module Json {
  import opened Wrappers

  type U64 = n: nat | n < 0x1_0000_0000_0000_0000

  type NegI64 = i: int | -0x8000_0000_0000_0000 <= i < 0 witness -1

  /** serde_json keeps a JSON number as a non-negative integer, a negative integer or a
      binary64 float; the float's bits are carried but never computed with. */
  datatype Number = PosInt(u: U64) | NegInt(i: NegI64) | Float(bits: bv64)

  datatype Value =
    | Null
    | Bool(b: bool)
    | Num(n: Number)
    | Str(s: string)
    | Array(items: seq<Value>)
    | Object(fields: map<string, Value>)

  /** One message of an AIS-catcher packet: its flattened key/value map. */
  type Message = map<string, Value>

  /** `as_u64`: defined exactly for the numbers serde_json stored as unsigned integers. */
  function AsU64(v: Value): (r: Option<U64>)
    ensures r.Some? <==> v.Num? && v.n.PosInt?
    ensures r.Some? ==> v == Num(PosInt(r.value))
  {
    match v
    case Num(PosInt(u)) => Some(u)
    case _ => None
  }

  /** `as_f64`: defined for every number, whatever its internal form.  The model keeps the
      number itself; converting it to binary64 is not modelled. */
  function AsF64(v: Value): (r: Option<Number>)
    ensures r.Some? <==> v.Num?
    ensures r.Some? ==> v == Num(r.value)
  {
    match v
    case Num(n) => Some(n)
    case _ => None
  }

  /** `as_str`: defined exactly for strings. */
  function AsStr(v: Value): (r: Option<string>)
    ensures r.Some? <==> v.Str?
    ensures r.Some? ==> v == Str(r.value)
  {
    match v
    case Str(s) => Some(s)
    case _ => None
  }
}
