module Wrappers {

  /** A value or nothing. */
  datatype Option<+T> = None | Some(value: T)

  /** A value or the error that stands in its place. */
  datatype Result<+T, +E> = Ok(value: T) | Err(error: E)
}
