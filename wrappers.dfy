/** Optional values and error-or-value results, used where the Go code has a
    nil-able value or returns `(value, error)`. */
module Wrappers {

  datatype Option<+T> = None | Some(value: T)

  datatype Result<+T, +E> = Success(value: T) | Failure(error: E)
}
