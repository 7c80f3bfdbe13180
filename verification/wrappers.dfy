/** Failure-aware return values shared by the whole model. */
module Wrappers {

  /** A value that may be absent: JavaScript's `null`/`undefined` next to a present value. */
  datatype Option<+T> = None | Some(value: T)

  /** The `{ success, error }` replies of the IPC handlers: a value on success, a message on failure. */
  datatype Result<+R, +E> = Success(value: R) | Failure(error: E)
}
