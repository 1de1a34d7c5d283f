/** Failure-carrying wrappers shared by every module of the model. */
module Results {

  /** A value that may be absent (a nil reference or a missing field in the Go code). */
  datatype Option<+T> = None | Some(value: T)

  /** The `(value, error)` pair a Go function returns, with exactly one side present. */
  datatype Result<+T, +E> = Ok(value: T) | Err(error: E)
}
