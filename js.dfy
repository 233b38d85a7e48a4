/**
 * The JavaScript values that travel through the detection handlers: parsed
 * JSON request bodies, the classifier's JSON response and the open-shaped
 * `prediction` object stored in a record. `undefined` (a missing key) is
 * `None` of an `Option<Value>`, never a `Value`.
 */
module Js {
  import opened Wrappers

  datatype Value =
    | Null
    | Bool(b: bool)
    | Num(n: real)
    | Str(s: string)
    | Arr(items: seq<Value>)
    | Obj(fields: map<string, Value>)

  /** JavaScript truthiness: `false`, `0`, `""` and `null` are falsy (NaN is not modelled). */
  predicate Truthy(v: Value)
  {
    match v
    case Null => false
    case Bool(b) => b
    case Num(n) => n != 0.0
    case Str(s) => s != ""
    case Arr(_) => true
    case Obj(_) => true
  }

  /** Truthiness of a possibly undefined value: `undefined` is falsy. */
  predicate Present(v: Option<Value>)
  {
    v.Some? && Truthy(v.value)
  }

  /**
   * `v.key` on a value that is neither null nor undefined. Only objects have
   * the keys read by the handlers; strings, numbers, booleans and arrays give
   * `undefined` for them.
   */
  function Prop(v: Value, key: string): (r: Option<Value>)
    ensures r.Some? <==> v.Obj? && key in v.fields
    ensures r.Some? ==> r.value == v.fields[key]
  {
    if v.Obj? && key in v.fields then Some(v.fields[key]) else None
  }

  /** `v.key` where `v` may be null or undefined: reading a key of either throws a TypeError. */
  function Member(v: Option<Value>, key: string): (r: Result<Option<Value>, string>)
    ensures r.Failure? <==> v.None? || v.value.Null?
    ensures r.Success? ==> r.value == Prop(v.value, key)
  {
    if v.None? then Failure("Cannot read properties of undefined (reading '" + key + "')")
    else if v.value.Null? then Failure("Cannot read properties of null (reading '" + key + "')")
    else Success(Prop(v.value, key))
  }
}
