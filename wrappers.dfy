/** Optional values and results with an error, for the source's `None` returns and raised errors. */
module Wrappers {

  /** A value that may be absent (the source's `Optional[...]`). */
  datatype Option<+T> = None | Some(value: T)

  /** A value or an error (the source raises the error instead). */
  datatype Result<+T, +E> = Ok(value: T) | Err(error: E)
}
