/** Failure-compatible wrappers shared by the modules of this project. */
module Wrappers {

  /** A value that may be absent: a Java null / an empty Optional / a Python None. */
  datatype Option<+T> = None | Some(value: T)

  /** The outcome of an operation that either succeeds or raises an error. */
  datatype Result<+R, +E> = Ok(value: R) | Err(error: E)
}
