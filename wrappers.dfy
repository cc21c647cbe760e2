/** Optional values and results with an error, shared by the other modules. */
module Wrappers {

  /** A value that may be absent (a JavaScript `undefined`). */
  datatype Option<+T> = None | Some(value: T)

  /** The outcome of a computation that may throw: its value or the error it throws. */
  datatype Result<+T, +E> = Success(value: T) | Failure(error: E)
}
