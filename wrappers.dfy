/** Option and Result: JavaScript's `null`/`undefined` and its thrown errors. */
module Wrappers {

  datatype Option<+T> = None | Some(value: T)

  /** The outcome of an operation that may throw: `Err` carries the error it throws. */
  datatype Result<+T, +E> = Ok(value: T) | Err(error: E)

}
