/** Option and Result, the two failure-carrying shapes the model needs. */
module Wrappers {

  /** A value that may be absent (JavaScript's `undefined`). */
  datatype Option<+T> = None | Some(value: T)

  /** The value of a computation, or the reason it failed. */
  datatype Result<+R, +E> = Success(value: R) | Failure(error: E)
}
