/** Failure-carrying wrappers shared by every module of the model. */
module Wrappers {

  datatype Option<+T> = None | Some(value: T)

  /** `Result<T, E>` of the Rust code. */
  datatype Result<+T, +E> = Success(value: T) | Failure(error: E)

  /** `Result<(), E>`: a check that either passes or fails with an error. */
  datatype Outcome<+E> = Pass | Fail(error: E)
}
