/** Optional values and results, shared by every module of the model. */
module Options {

  /** Python's `None` or a value. */
  datatype Option<+T> = None | Some(value: T)

  /** A normal return or a raised exception. */
  datatype Result<+T, +E> = Ok(value: T) | Raised(error: E)
}
