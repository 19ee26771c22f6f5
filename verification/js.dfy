/** The JavaScript values that reach the handlers through a JSON request body,
    and the few JavaScript operators the handlers apply to them: truthiness,
    `a || b`, and reading a key that may be missing.
 */
module Js {

  import opened Wrappers

  /** A JSON value as JavaScript sees it. Objects and arrays are not
      inspected by any handler beyond their truthiness, so they are one case. */
  datatype JsValue = Undefined | Null | Bool(b: bool) | Num(n: real) | Str(s: string) | Obj

  /** A request body: the keys the client sent, with their values. */
  type Body = map<string, JsValue>

  /** JavaScript truthiness (`NaN` cannot occur in a JSON body). */
  predicate Truthy(v: JsValue) {
    match v
    case Undefined => false
    case Null => false
    case Bool(b) => b
    case Num(n) => n != 0.0
    case Str(s) => s != ""
    case Obj => true
  }

  /** `a || b`: the first operand when it is truthy, otherwise the second. */
  function Or(a: JsValue, b: JsValue): (r: JsValue)
    ensures Truthy(a) ==> r == a
    ensures !Truthy(a) ==> r == b
    ensures Truthy(r) <==> Truthy(a) || Truthy(b)
  {
    if Truthy(a) then a else b
  }

  /** `body[key]`: `undefined` when the key was not sent. */
  function Get(body: Body, key: string): (v: JsValue)
    ensures key !in body ==> v == Undefined
    ensures key in body ==> v == body[key]
  {
    if key in body then body[key] else Undefined
  }

  /** `a !== undefined ? a : b`. */
  function IfDefined(a: JsValue, b: JsValue): (r: JsValue)
    ensures a != Undefined ==> r == a
    ensures a == Undefined ==> r == b
  {
    if a != Undefined then a else b
  }

  /** `v === ''`. */
  predicate IsEmptyString(v: JsValue) {
    v == Str("")
  }

  /** An optional string is truthy when it is present and not `''`. */
  predicate Filled(s: Option<string>) {
    s.Some? && s.value != ""
  }
}
