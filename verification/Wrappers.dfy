/** Values that may be missing, and results of operations that may fail. */
module Wrappers {
  datatype Option<T> = None | Some(value: T)
  datatype Result<T, E> = Success(value: T) | Failure(error: E)
}
