/** Optional values and error-carrying results shared by every module of the model. */
module Wrappers {

  /** A value that may be absent (JavaScript `undefined`/`null`). */
  datatype Option<+T> = None | Some(value: T)

  /** The outcome of an operation that may throw: its value or the error text. */
  datatype Result<+R> = Success(value: R) | Failure(error: string)
}
