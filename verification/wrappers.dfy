/** Failure-compatible wrappers shared by the carousel model. */
module Wrappers {

  /** A value that may be absent; stands for Kotlin's nullable references. */
  datatype Option<+T> = None | Some(value: T)

  /** The outcome of an operation that the source may abort with an exception. */
  datatype Result<+T, +E> = Ok(value: T) | Err(error: E)
}
