/** Failure-carrying result types shared by the modules of this model. */
module Wrappers {

  /** A value that may be missing, used for nullable pointers and optional descriptions. */
  datatype Option<+T> = None | Some(value: T)

  /** The outcome of an operation that either produces a value or fails with an error. */
  datatype Result<+T, +E> = Ok(value: T) | Err(error: E)

  /** The outcome of an operation that produces no value. */
  datatype Outcome<+E> = Pass | Fail(error: E)
}
