/** JavaScript values as the client sees them: optional values, JSON
    payloads, truthiness (the `||` defaults all over the client) and the
    truncating remainder operator. */
module Js {

  /** `null` / `undefined` versus a present value. */
  datatype Option<+T> = None | Some(value: T)

  /** A JSON value as the remote service sends it. */
  datatype Json =
    | JNull
    | JBool(b: bool)
    | JNum(n: int)
    | JStr(s: string)
    | JArray(items: seq<Json>)
    | JObject(fields: map<string, Json>)

  /** ECMAScript ToBoolean on a JSON value (NaN is not modelled). */
  predicate Truthy(v: Json) {
    match v
    case JNull => false
    case JBool(b) => b
    case JNum(n) => n != 0
    case JStr(s) => s != ""
    case JArray(_) => true
    case JObject(_) => true
  }

  /** A possibly `undefined` JSON value is truthy. */
  predicate Present(v: Option<Json>) {
    v.Some? && Truthy(v.value)
  }

  /** A possibly absent string is truthy (non-null and non-empty). */
  predicate Filled(s: Option<string>) {
    s.Some? && s.value != ""
  }

  /** `v || fallback` where `v` may be `undefined`: the value itself when it is
      truthy, the fallback otherwise. */
  function OrElse(v: Option<Json>, fallback: Json): (r: Json)
    ensures Present(v) ==> r == v.value
    ensures !Present(v) ==> r == fallback
    ensures Truthy(fallback) ==> Truthy(r)
  {
    if Present(v) then v.value else fallback
  }

  /** `s || fallback` for a string that may be null. */
  function OrDefault(s: Option<string>, fallback: string): (r: string)
    ensures Filled(s) ==> r == s.value
    ensures !Filled(s) ==> r == fallback
  {
    if Filled(s) then s.value else fallback
  }

  /** `localStorage.getItem(key)`, and the lookup of an object's own
      property: None when absent. A plain object also answers with the
      members it inherits from `Object.prototype`; the callers here look up
      fixed keys that name no such member, except the status chip's colour,
      which models those members itself. */
  function Lookup<V>(m: map<string, V>, key: string): (r: Option<V>)
    ensures r.Some? <==> key in m
    ensures r.Some? ==> r.value == m[key]
  {
    if key in m then Some(m[key]) else None
  }

  /** JavaScript's `a % b` for a positive divisor: the result takes the sign
      of `a` (truncation toward zero), unlike Dafny's Euclidean `%`. */
  function JsRem(a: int, b: int): (r: int)
    requires b > 0
    ensures a >= 0 ==> r == a % b
    ensures a < 0 ==> -b < r <= 0
  {
    if a >= 0 then a % b else -((-a) % b)
  }
}
