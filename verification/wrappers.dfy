/** Optional values and results with an error, standing in for Python's
    `None` and for the exceptions (a `KeyError` from a table lookup) that
    abort a computation. */
module Wrappers {

  datatype Option<+T> = None | Some(value: T)

  datatype Result<+R, +E> = Success(value: R) | Failure(error: E)
}
