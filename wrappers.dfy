/** Optional values and error-carrying results used throughout the model. */
module Wrappers {

  /** A value that may be absent (`undefined` / `null` in the dashboard's data). */
  datatype Option<+T> = None | Some(value: T)

  /** The outcome of an operation that can fail with an error value (a thrown `Error`). */
  datatype Result<+R, +E> = Success(value: R) | Failure(error: E)
}
