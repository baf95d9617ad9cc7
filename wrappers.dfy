/** Optional values and results shared by the other modules. */
module Wrappers {

  datatype Option<+T> = None | Some(value: T)

  /** A value or the error that stopped the computation producing it. */
  datatype Result<+T, +E> = Success(value: T) | Failure(error: E)
}
