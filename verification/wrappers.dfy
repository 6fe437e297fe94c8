/** Failure-carrying datatypes used by every backend model: an `Option` for a
    value that may be missing (or an external call that raised), and a
    `Result` for an operation that either succeeds or fails with an error. */
module Wrappers {

  datatype Option<+T> = None | Some(value: T)

  datatype Result<+T, +E> = Ok(value: T) | Err(error: E)
}
