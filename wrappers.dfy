/** Optional values and results with an error: wherever architecture.py
    returns None or raises LookupError. */
module Wrappers {

  datatype Option<+T> = None | Some(value: T)

  datatype Result<+R, +E> = Success(value: R) | Failure(error: E)
}
