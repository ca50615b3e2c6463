/** Failure-compatible wrappers shared by the other modules. */
module Wrappers {

  /** An optional value; `None` stands for JavaScript's `undefined` or `NaN`. */
  datatype Option<+T> = None | Some(value: T)

  /** The outcome of an operation that the source lets throw. */
  datatype Result<+R, +E> = Ok(value: R) | Err(error: E)
}
