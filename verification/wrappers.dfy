/** Option, Result and Outcome: the error returns of the gateway's Go code. */
module Wrappers {

  datatype Option<+T> = None | Some(value: T)

  /** A value or the error that replaced it (Go's `(T, error)` pair). */
  datatype Result<+T, +E> = Ok(value: T) | Err(error: E)

  /** A check that passes or fails with an error (Go's lone `error` return). */
  datatype Outcome<+E> = Pass | Fail(error: E)
}
