/** Optional values and success-or-error results shared by the other modules. */
module Wrappers {

  /** Python's `None` or a present value. */
  datatype Option<+T> = None | Some(value: T)

  /** The value of a computation, or the error Python would raise instead. */
  datatype Result<+T, +E> = Success(value: T) | Failure(error: E)
}
