/** Optional values and results, used for missing cells and for the
    errors a strict parse raises. */
module Wrappers {

  /** A value that may be missing; `None` plays the role of a null cell. */
  datatype Option<+T> = None | Some(value: T)

  /** The outcome of a step that can raise: the value, or the error. */
  datatype Result<+T, +E> = Success(value: T) | Failure(error: E)
}
