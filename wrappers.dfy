/** Optional values and results with an error, for JavaScript's `null`/`undefined` and thrown errors. */
module Wrappers {

  /** A value that may be absent (`null` or `undefined` in the source). */
  datatype Option<+T> = None | Some(value: T)

  /** The outcome of an operation that may throw: a value, or the thrown error's message. */
  datatype Result<+T, +E> = Success(value: T) | Failure(error: E)

  /** `a ?? b` and `a || b` on an optional string: the string, or the empty string when absent. */
  function OrEmpty(o: Option<string>): string
  {
    match o
    case Some(s) => s
    case None => ""
  }
}
