/**
 * Already-decoded JSON values as the webhook handler sees them, with the two
 * pieces of JavaScript semantics the handler relies on: truthiness (used by
 * `||` and `!`) and property access, which yields `undefined` for a missing
 * key or for a value that is not an object.
 */
module Json {

  /** `None` stands for JavaScript's `undefined`. */
  datatype Option<+T> = None | Some(value: T)

  /**
   * A decoded JSON value. Numbers are finite reals. JSON text cannot denote
   * NaN, but decoding turns an overflowing literal such as `1e999` into an
   * infinity, which this datatype cannot hold.
   */
  datatype Json =
    | JNull
    | JBool(b: bool)
    | JNumber(n: real)
    | JString(s: string)
    | JArray(items: seq<Json>)
    | JObject(fields: map<string, Json>)

  /** The empty object literal `{}`. */
  const EmptyObject: Json := JObject(map[])

  /**
   * JavaScript truthiness of a JSON value: `null`, `false`, `0` and `""` are
   * falsy; every other value, including an empty array or object, is truthy.
   */
  predicate Truthy(v: Json) {
    match v
    case JNull => false
    case JBool(b) => b
    case JNumber(n) => n != 0.0
    case JString(s) => s != ""
    case JArray(_) => true
    case JObject(_) => true
  }

  /**
   * Truthiness of a possibly `undefined` value: `undefined` is falsy.
   */
  predicate TruthyOrUndefined(v: Option<Json>) {
    v.Some? && Truthy(v.value)
  }

  /**
   * `v[key]` for the keys the handler reads. Strings, numbers, booleans and
   * arrays have no own or inherited property named `type`, `toolCall`, `id`,
   * `name` or `arguments`, so for them the access yields `undefined`.
   */
  function Get(v: Json, key: string): Option<Json> {
    match v
    case JObject(fields) => if key in fields then Some(fields[key]) else None
    case _ => None
  }

  /**
   * JavaScript `a || b` where `a` may be `undefined`: `a` when it is truthy,
   * `b` otherwise.
   */
  function Or(a: Option<Json>, b: Json): Json {
    if TruthyOrUndefined(a) then a.value else b
  }
}
