/** Failure-compatible wrappers shared by every module of the model. */
module Base {

  /** Python's `None` next to a present value. */
  datatype Option<+T> = None | Some(value: T)

  /** A value, or the error that a Python exception would have carried out of the call. */
  datatype Result<+T, +E> = Success(value: T) | Failure(error: E)
}
