/** Failure-carrying wrappers shared by the whole model. */
module Common {

  /** A value that may be absent (Python's `None`, or `dict.get` missing). */
  datatype Option<+T> = None | Some(value: T)

  /** The outcome of a Python call that either returns a value or raises. */
  datatype Result<+T, +E> = Success(value: T) | Failure(error: E)
}
