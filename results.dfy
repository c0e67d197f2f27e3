/** Optional values and results with an error, for the Go idioms `x, ok :=` and `v, err :=`. */
module Results {

  datatype Option<+T> = None | Some(value: T)

  /** A Go `(value, error)` pair: either the value, or the error with no usable value. */
  datatype Result<+T, +E> = Ok(value: T) | Err(error: E)
}
