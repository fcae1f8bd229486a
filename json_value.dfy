/**
 * The structured value every decoded record is expressed in (`Value` in
 * src/logdrop/json.rs), and its one query, `Value::find`.
 */
module JsonValue {
  import opened Wrappers

  /**
   * A JSON number as the parser reads it: the sign, the integer part (an
   * unsigned 64-bit accumulator), the digits after the decimal point and the
   * exponent digits' value (an unsigned 64-bit accumulator; the parser reads
   * the exponent's sign and drops it). The floating-point value the source
   * computes from these is not modelled.
   */
  datatype Number = Number(negative: bool, integer: nat, fraction: seq<char>, exponent: nat)

  /** `Value`: the members of an object are a finite map, like the source's `BTreeMap`. */
  datatype Value =
    | Null
    | Bool(b: bool)
    | F64(n: Number)
    | String(s: string)
    | List(items: seq<Value>)
    | Object(members: map<string, Value>)

  /** `Value::find`: the member named `key` of an object; nothing for any other value. */
  function Find(v: Value, key: string): (r: Option<Value>)
    ensures r.Some? <==> v.Object? && key in v.members
    ensures r.Some? ==> r.value == v.members[key]
  {
    match v
    case Object(m) => if key in m then Some(m[key]) else None
    case _ => None
  }
}
