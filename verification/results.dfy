/** Optional values and fallible results shared by the parser and the projection. */
module Results {

  /** A value that may be absent; the source returns None for it. */
  datatype Option<+T> = None | Some(value: T)

  /** The outcome of an operation that raises in the source: a value, or the error it raised. */
  datatype Result<+T, +E> = Ok(value: T) | Err(error: E)
}
