/** Option and Result: the two error-carrying shapes the scaler helpers return. */
module Wrappers {

  /** A value that may be absent (a Kubernetes quantity pointer that is nil, a failed parse). */
  datatype Option<+T> = None | Some(value: T)

  /** Either a value or an error, in place of Go's `(value, error)` pair. */
  datatype Result<+R, +E> = Success(value: R) | Failure(error: E)
}
