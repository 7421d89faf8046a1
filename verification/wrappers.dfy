/** Failure-compatible wrappers used throughout the model. */
module Wrappers {

  /** `Some(v)` for a present value, `None` for JavaScript's `undefined`. */
  datatype Option<+T> = None | Some(value: T)

  /** The outcome of a step that either produces a value or fails. */
  datatype Result<+T, +E> = Ok(value: T) | Err(error: E)
}
