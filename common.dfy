/** Optional values and error-carrying results shared by every module. */
module Common {

  /** A value that may be absent: SQL NULL, a missing row, a missing attribute. */
  datatype Option<+T> = None | Some(value: T)

  /** The outcome of a step that may raise. */
  datatype Result<+T, +E> = Success(value: T) | Failure(error: E)
}
