/** Optional values and results that carry a failure, used across the model. */
module Wrappers {

  /** A value that may be absent: JavaScript's `undefined` or `null` where a value is expected. */
  datatype Option<+T> = None | Some(value: T)

  /** The outcome of an operation that may throw. */
  datatype Result<+T, +E> = Success(value: T) | Failure(error: E)
}
