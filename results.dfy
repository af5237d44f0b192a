/** Failure-carrying values standing in for Go's `(v, ok)` pairs, error
    returns and panics. */
module Results {

  /** A value that may be absent (Go's `v, ok := m[k]`). */
  datatype Option<+T> = None | Some(value: T) {
    function GetOr(default: T): T {
      match this
      case Some(v) => v
      case None => default
    }
  }

  /** A value or the reason it could not be produced. */
  datatype Result<+T, +E> = Ok(value: T) | Err(error: E)

  /** Success without a value, or the reason for failure. */
  datatype Outcome<+E> = Pass | Fail(error: E)
}
