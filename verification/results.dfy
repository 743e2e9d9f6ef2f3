/** Optional values and results with an error cause. */
module Results {

  /** A value that may be absent, like a nil-able Go reference. */
  datatype Option<+T> = None | Some(value: T)

  /** The outcome of a call that returns `(value, error)` in Go. */
  datatype Result<+T, +E> = Success(value: T) | Failure(error: E)
}
