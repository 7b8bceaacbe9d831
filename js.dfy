/** The slice of JavaScript values that the Express handlers of
    backend/server.js see in a request body and put in a reply.
    Numbers are modelled as integers: fractions and NaN never arise in
    the fields the handlers read. */
module Js {

  datatype JsValue =
    | Undefined
    | Null
    | Bool(b: bool)
    | Num(n: int)
    | Str(s: string)
    | Obj(fields: map<string, JsValue>)

  /** The `typeof` operator (an object and `null` both give "object"). */
  function TypeOf(v: JsValue): (t: string)
    ensures t == "boolean" <==> v.Bool?
    ensures t == "undefined" <==> v.Undefined?
  {
    match v
    case Undefined => "undefined"
    case Null => "object"
    case Bool(_) => "boolean"
    case Num(_) => "number"
    case Str(_) => "string"
    case Obj(_) => "object"
  }

  /** The value a JavaScript condition (`if (v)`, `v ? a : b`) takes. */
  predicate Truthy(v: JsValue)
  {
    match v
    case Undefined => false
    case Null => false
    case Bool(b) => b
    case Num(n) => n != 0
    case Str(s) => s != ""
    case Obj(_) => true
  }

  /** `null` and `undefined`: the two values whose properties cannot be read. */
  predicate Nullish(v: JsValue)
  {
    v.Undefined? || v.Null?
  }

  /** Reading `m.key` from an object given by its own properties, for a key
      that `Object.prototype` does not define (every key the handlers read
      is such a key). */
  function Member(m: map<string, JsValue>, key: string): (r: JsValue)
    ensures key !in m ==> r == Undefined
    ensures key in m ==> r == m[key]
  {
    if key in m then m[key] else Undefined
  }

  /** Reading `v.key`: a property of an object, `undefined` on any other
      non-nullish value, for a key that no built-in prototype defines (the
      handlers read only `isactive` and `isdeleted` this way). On `null`
      and `undefined` JavaScript throws a TypeError, so callers must rule
      those out first. */
  function Get(v: JsValue, key: string): (r: JsValue)
    requires !Nullish(v)
    ensures !v.Obj? ==> r == Undefined
  {
    match v
    case Obj(m) => Member(m, key)
    case _ => Undefined
  }
}
