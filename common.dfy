/** Optional values and results shared by every module of the model. */
module Common {

  /** A value that may be absent: a nullable column, a missing dictionary key or header. */
  datatype Option<+T> = None | Some(value: T)

  /** The outcome of an operation that can fail with an error value. */
  datatype Result<+R, +E> = Ok(value: R) | Err(error: E)
}
