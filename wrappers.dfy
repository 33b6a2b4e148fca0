/** Optional values and results with an error, as used throughout the model. */
module Wrappers {

  /** Python's `None` or a present value. */
  datatype Option<+T> = None | Some(value: T)

  /** A value, or the exception a Python call would raise instead. */
  datatype Result<+R, +E> = Success(value: R) | Failure(error: E)
}
