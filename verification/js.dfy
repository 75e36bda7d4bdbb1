/**
 The JavaScript values that flow through the pothole pipeline, with the two
 pieces of JavaScript semantics the code depends on: truthiness (used by
 `filter`, `&&` and `||`) and the value-returning `||` operator.
 */
module Js {

  /** A JSON/JavaScript value as read from an upstream attribute or a record
      field. Numbers are reals; `NaN` is separate because it is falsy.
      `Object` stands for any object or array (always truthy). */
  datatype JsValue =
    | Undefined
    | Null
    | Bool(b: bool)
    | Num(n: real)
    | NaN
    | Str(s: string)
    | Object

  /** JavaScript's ToBoolean: false for undefined, null, false, 0, -0, NaN
      and the empty string, true for everything else. */
  predicate Truthy(v: JsValue) {
    match v
    case Undefined => false
    case Null => false
    case Bool(b) => b
    case Num(n) => n != 0.0
    case NaN => false
    case Str(s) => s != ""
    case Object => true
  }

  /** The expression `a || b`: the left operand when it is truthy, otherwise
      the right operand (not a boolean). */
  function Or(a: JsValue, b: JsValue): (r: JsValue)
    ensures r == a || r == b
    ensures Truthy(a) ==> r == a
    ensures !Truthy(a) ==> r == b
    ensures Truthy(r) <==> Truthy(a) || Truthy(b)
  {
    if Truthy(a) then a else b
  }

  /** A plain JavaScript object, as a finite map from property name to value;
      a property that is not present reads as `undefined`. */
  type JsObject = map<string, JsValue>

  function Get(o: JsObject, name: string): (v: JsValue)
    ensures name !in o ==> v == Undefined
  {
    if name in o then o[name] else Undefined
  }
}
