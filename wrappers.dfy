/** The `Option` and `Result` types shared by every module. */
module Wrappers {

  /** A value that may be missing: JavaScript's `undefined` or SQL's NULL. */
  datatype Option<+T> = None | Some(value: T)

  /** The outcome of a validator: the parsed value or the issues found. */
  datatype Result<+R, +E> = Success(value: R) | Failure(error: E)
}
