/** Option and Result, the two wrappers every other module uses for "undefined" and for thrown errors. */
module Wrappers {

  /** A value that may be absent: JavaScript's `undefined` on the other side. */
  datatype Option<+T> = None | Some(value: T)

  /** The outcome of an operation that either returns or throws. */
  datatype Result<+T, +E> = Success(value: T) | Failure(error: E)
}
