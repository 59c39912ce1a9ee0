/** A value a JavaScript `throw` can carry, as `catch` blocks inspect it. */
module Thrown {
  /** An `Error` instance with its `message`, or any other thrown value. */
  datatype Thrown = ErrorObject(message: string) | OtherValue

  /** `error instanceof Error ? error.message : fallback`. */
  function MessageOr(t: Thrown, fallback: string): (m: string)
    ensures t.ErrorObject? ==> m == t.message
    ensures t.OtherValue? ==> m == fallback
  {
    match t
    case ErrorObject(message) => message
    case OtherValue => fallback
  }
}
