/** Failure-carrying wrappers used throughout the model: PHP's `null`-or-value
    reads become `Option`, and a call that may throw becomes `Result`. */
module Outcomes {

  datatype Option<+T> = None | Some(value: T)

  /** A successful value or the exception the PHP code would throw. */
  datatype Result<+T, +E> = Success(value: T) | Failure(error: E)
}
