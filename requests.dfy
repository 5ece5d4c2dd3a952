/** The request bodies the route handlers read. */
module Requests {
  import Js

  /**
   * The outcome of `await request.json()`: the parsed value, or the error it
   * threw (a body that is not JSON).
   */
  datatype Body = Json(v: Js.Value) | Unreadable(error: Js.Value)

  /**
   * Destructuring `const { ... } = body` throws on null or undefined; the
   * wording of the runtime's TypeError is not modelled.
   */
  const DestructureError: Js.Value := Js.ErrorObj("Cannot destructure properties of null")

  /** The body can be destructured. */
  predicate Readable(b: Body) {
    b.Json? && !b.v.Null? && !b.v.Undefined?
  }

  /** What reading and destructuring an unreadable body throws. */
  function ReadError(b: Body): Js.Value
    requires !Readable(b)
  {
    if b.Unreadable? then b.error else DestructureError
  }

  /** A destructured property of the body (undefined when absent). */
  function Field(b: Body, name: string): Js.Value
    requires Readable(b)
  {
    Js.Get(b.v, name)
  }
}
