/** Optional values and operation results shared by the notes model. */
module Wrappers {

  /** A value that may be absent (a missing object key, `undefined` or `null`). */
  datatype Option<+T> = None | Some(value: T)

  /** The outcome of an operation that either returns a value or fails. */
  datatype Result<+R, +E> = Success(value: R) | Failure(error: E)
}
