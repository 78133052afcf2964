/** Optional values and results with an error message, used where the source returns None or raises. */
module Wrappers {

  datatype Option<+T> = None | Some(value: T)

  /** `Failure` carries the message of the exception the source raises. */
  datatype Result<+R> = Success(value: R) | Failure(error: string)
}
