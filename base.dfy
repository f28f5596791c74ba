/** Failure-aware values shared by every module of the model. */
module Base {

  /** A value that may be absent: Python's None. */
  datatype Option<+T> = None | Some(value: T)

  /** The outcome of a call that either returns a value or raises an exception. */
  datatype Result<+T> = Ok(value: T) | Raised(error: string)
}
