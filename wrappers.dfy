/** Option, Outcome and Result values: Python's `None` and the exceptions the modelled code raises become data. */
module Wrappers {

  /** A value that may be absent (`None` in the source). */
  datatype Option<+T> = None | Some(value: T)

  /** The result of an operation that either completes or raises an error `E`. */
  datatype Outcome<+E> = Pass | Fail(error: E)

  /** The result of an operation that either returns a `T` or raises an error `E`. */
  datatype Result<+T, +E> = Ok(value: T) | Err(error: E)
}
