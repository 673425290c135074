/** Failure-compatible wrappers used for the source's `null` returns and thrown errors. */
module Wrappers {

  datatype Option<+T> = None | Some(value: T)

  /** A computation that either produces a value or raises the error the source throws. */
  datatype Result<+T, +E> = Ok(value: T) | Err(error: E)
}
