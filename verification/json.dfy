/**
 * The JSON values a route handler receives in its request body, and the
 * JavaScript truthiness the handlers test them with (`!x`, `x || d`).
 * Numbers are integers: fractional numbers and NaN are not modelled here.
 */
module Json {

  datatype Value =
    | Undefined                       // a property that is absent from the body
    | Null
    | Bool(b: bool)
    | Num(n: int)
    | Str(s: string)
    | Arr(items: seq<Value>)
    | Obj(fields: map<string, Value>)

  /** JavaScript's ToBoolean: false, 0, "", null and undefined are falsy. */
  predicate Truthy(v: Value) {
    match v
    case Undefined => false
    case Null => false
    case Bool(b) => b
    case Num(n) => n != 0
    case Str(s) => |s| > 0
    case Arr(_) => true
    case Obj(_) => true
  }

  /** The test `!x || typeof x !== "string"` fails exactly for these values. */
  predicate IsNonEmptyString(v: Value)
    ensures IsNonEmptyString(v) <==> Truthy(v) && v.Str?
  {
    v.Str? && |v.s| > 0
  }

  /** Reading `x.key` from a value that is neither null nor undefined. */
  function Property(v: Value, key: string): (r: Value)
    requires !v.Undefined? && !v.Null?
    ensures v.Obj? && key in v.fields ==> r == v.fields[key]
    ensures !(v.Obj? && key in v.fields) ==> r == Undefined
  {
    if v.Obj? && key in v.fields then v.fields[key] else Undefined
  }
}
