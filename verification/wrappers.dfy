/** The `Option` and `Result` datatypes the launcher model uses. */
module Wrappers {

  /** An optional value: the launcher's `None`-or-value arguments. */
  datatype Option<+T> = None | Some(value: T)

  /** A computation that either succeeds with a value or fails with an error value. */
  datatype Result<+R, +E> = Success(value: R) | Failure(error: E)
}
