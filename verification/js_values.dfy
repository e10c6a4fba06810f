/** The slice of JavaScript's value domain that the definition layer and the
    argument handling inspect. */
module JsValues {

  /** A JavaScript value. Numbers are integers (NaN, the infinities and
      fractions are not modelled); objects and functions are told apart only
      by an identity, since the model never looks inside them. */
  datatype JsValue =
    | Undefined
    | Null
    | Bool(b: bool)
    | Num(n: int)
    | Str(s: string)
    | Arr(elems: seq<JsValue>)
    | Obj(id: nat)
    | Func(id: nat)

  /** JavaScript truthiness, the test behind `if (v)`, `!v` and `v ? true : false`.
      Every array and object is truthy, the empty one included. */
  predicate Truthy(v: JsValue) {
    match v
    case Undefined => false
    case Null => false
    case Bool(b) => b
    case Num(n) => n != 0
    case Str(s) => s != ""
    case Arr(_) => true
    case Obj(_) => true
    case Func(_) => true
  }

  /** The value of `a || b`. */
  function Or(a: JsValue, b: JsValue): JsValue {
    if Truthy(a) then a else b
  }

  /** `typeof v === 'function'`. */
  predicate IsFunction(v: JsValue) {
    v.Func?
  }
}
