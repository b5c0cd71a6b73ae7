/**
 * The JSON values the servers read from `users.json` and from request bodies,
 * and the few pieces of JavaScript semantics the handlers depend on:
 * truthiness, `===` and evaluation that may throw a TypeError.
 */
module JsonData {

  /** A parsed JSON value. Numbers are exact integers; object key order is not kept. */
  datatype Json =
    | JNull
    | JBool(b: bool)
    | JNum(n: int)
    | JStr(s: string)
    | JArr(items: seq<Json>)
    | JObj(fields: map<string, Json>)

  /** A JSON object: a user document, a request body. An absent key reads as `undefined`. */
  type Doc = map<string, Json>

  /** JavaScript's ToBoolean on a parsed JSON value (NaN cannot come out of JSON.parse). */
  predicate Truthy(v: Json) {
    match v
    case JNull => false
    case JBool(b) => b
    case JNum(n) => n != 0
    case JStr(s) => s != ""
    case JArr(_) => true
    case JObj(_) => true
  }

  /** `!!d.k`: the key is present and its value is truthy (`undefined` is falsy). */
  predicate Has(d: Doc, k: string) {
    k in d && Truthy(d[k])
  }

  /**
   * `a === b` between two values that came out of separate JSON.parse calls:
   * primitives compare by value, arrays and objects are distinct references.
   */
  predicate StrictEq(a: Json, b: Json) {
    match a
    case JArr(_) => false
    case JObj(_) => false
    case _ => a == b
  }

  /** `d.k || fallback` */
  function OrDefault(d: Doc, k: string, fallback: Json): (r: Json)
    ensures Has(d, k) ==> r == d[k]
    ensures !Has(d, k) ==> r == fallback
  {
    if Has(d, k) then d[k] else fallback
  }

  /** The outcome of JavaScript code that either finishes with a value or throws a TypeError. */
  datatype Eval<T> = Done(value: T) | Throws

  /**
   * What `d.k = d.k || {}` followed by a property write does with the slot `k`:
   * a falsy slot becomes a fresh object, an object is written in place, a
   * property written on an array is lost when the array is serialised, and a
   * property written on any other truthy value throws (ES modules are strict).
   */
  datatype Slot = Fresh | Object(fields: map<string, Json>) | Array(items: seq<Json>) | Primitive

  function SlotOf(d: Doc, k: string): (r: Slot)
    ensures r.Fresh? <==> !Has(d, k)
    ensures r.Object? ==> d[k] == JObj(r.fields)
    ensures r.Array? ==> d[k] == JArr(r.items)
  {
    if !Has(d, k) then Fresh
    else match d[k]
      case JObj(m) => Object(m)
      case JArr(xs) => Array(xs)
      case _ => Primitive
  }

  /** The object a fresh or object slot is written into. */
  function SlotFields(s: Slot): map<string, Json> {
    if s.Object? then s.fields else map[]
  }

  /** The array a fresh or array slot pushes onto. */
  function SlotItems(s: Slot): seq<Json> {
    if s.Array? then s.items else []
  }
}
