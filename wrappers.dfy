/** Option and Result, the two failure-carrying shapes the model uses. */
module Wrappers {

  /** A value that may be absent (a nil error, a decode that failed, ...). */
  datatype Option<+T> = None | Some(value: T)

  /** Either a value or an error message; the outcome of one download. */
  datatype Result<+T, +E> = Ok(value: T) | Err(error: E)
}
