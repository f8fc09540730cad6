/** Optional values and results with an error, as used throughout the form model. */
module Wrappers {

  /** A value that may be absent (the source's `X | null`). */
  datatype Option<+T> = None | Some(value: T)

  /** The outcome of an operation that can throw. */
  datatype Result<+R, +E> = Success(value: R) | Failure(error: E)
}
