/** Optional values and success/failure results, standing in for PHP's nullable
    returns and thrown exceptions. */
module Wrappers {

  /** A value that may be absent (PHP `null`). */
  datatype Option<+T> = None | Some(value: T)

  /** Either a value or an error; the error side models a thrown exception. */
  datatype Result<+T, +E> = Success(value: T) | Failure(error: E)
}
