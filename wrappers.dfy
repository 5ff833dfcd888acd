/** The optional-value and success-or-error datatypes shared by the model. */
module Wrappers {

  /** A value that may be missing: JavaScript's `undefined` / `null` alternatives. */
  datatype Option<+T> = None | Some(value: T)

  /** The result of a parse that either succeeds or reports errors. */
  datatype Result<+T, +E> = Success(value: T) | Failure(error: E)
}
