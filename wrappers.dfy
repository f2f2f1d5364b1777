/** Optional values and outcomes that carry an error, used wherever the source
    has a null / undefined / None or raises an exception. */
module Wrappers {

  datatype Option<+T> = None | Some(value: T)

  datatype Result<+R, +E> = Success(value: R) | Failure(error: E)
}
