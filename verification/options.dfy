/** Failure-compatible wrappers shared by the other modules. */
module Options {

  /** A value that may be absent (a missing parent, a missing form ancestor). */
  datatype Option<+T> = None | Some(value: T)

  /** Either a value or the error that stopped the computation. */
  datatype Result<+T, +E> = Success(value: T) | Failure(error: E)
}
