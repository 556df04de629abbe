/** Values as the request handlers see them: parsed JSON request bodies,
    JavaScript truthiness and the `x || fallback` defaulting idiom. */
module JsValues {

  datatype Option<+T> = None | Some(value: T)

  datatype Result<+T, +E> = Success(value: T) | Failure(error: E)

  /** A JSON value of a request body, and equally a value bound to a
      statement parameter.  Arrays and objects are one opaque case: they
      are always truthy, and the handlers bind them as they come. */
  datatype Value = Null | Bool(b: bool) | Num(n: int) | Str(s: string) | Composite

  /** A parsed JSON object body: its own keys and their values.  A key that
      is not in the map reads as `undefined`. */
  type Body = map<string, Value>

  /** JavaScript truthiness of a value that is present. */
  predicate Truthy(v: Value)
  {
    match v
    case Null => false
    case Bool(b) => b
    case Num(n) => n != 0
    case Str(s) => s != ""
    case Composite => true
  }

  /** `body[key]`, with `None` standing for `undefined`. */
  function Lookup(body: Body, key: string): (r: Option<Value>)
    ensures r.Some? <==> key in body
    ensures r.Some? ==> r.value == body[key]
  {
    if key in body then Some(body[key]) else None
  }

  /** JavaScript `x || fallback`: `x` itself when it is defined and truthy,
      `fallback` otherwise (`undefined` is falsy). */
  function Or(x: Option<Value>, fallback: Value): (r: Value)
    ensures r == fallback || (x == Some(r) && Truthy(r))
    ensures x.Some? && Truthy(x.value) ==> r == x.value
  {
    if x.Some? && Truthy(x.value) then x.value else fallback
  }

  /** What the database driver binds for a JavaScript value: `undefined`
      becomes SQL NULL, everything else is passed on. */
  function Bind(x: Option<Value>): Value
  {
    match x
    case None => Null
    case Some(v) => v
  }
}
