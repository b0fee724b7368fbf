/** Option and Result values for the lookups and error returns of the time tracker. */
module Wrappers {

  datatype Option<+T> = None | Some(value: T)

  /** An error is carried as its message, as Go's `error` values are printed. */
  type Error = string

  datatype Result<+T> = Ok(value: T) | Err(error: Error)
}
