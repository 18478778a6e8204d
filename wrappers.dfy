/** Option and Result: Python's `None` entries and raised errors, made explicit. */
module Wrappers {

  /** A list entry that is either Python's `None` or a value. */
  datatype Option<+T> = None | Some(value: T)

  /** The outcome of an operation that may raise instead of returning. */
  datatype Result<+T, +E> = Ok(value: T) | Err(error: E)
}
