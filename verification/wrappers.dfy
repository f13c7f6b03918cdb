/** Optional values, used for the nullable and undefined results of the source, and results of operations that throw. */
module Wrappers {
  datatype Option<T> = None | Some(value: T)

  /** A value, or the message of the error the source throws. */
  datatype Result<T> = Success(value: T) | Failure(error: string)
}
