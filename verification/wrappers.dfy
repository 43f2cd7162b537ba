/** Failure-carrying results shared by the component models. */
module Wrappers {

  /** A value that may be absent: JavaScript's `null` / `undefined`. */
  datatype Option<+T> = None | Some(value: T)

  /** The outcome of an operation that either yields a value or throws. */
  datatype Result<+R, +E> = Success(value: R) | Failure(error: E)
}
