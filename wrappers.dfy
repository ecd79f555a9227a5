/** Optional values and success-or-failure results, standing for Python's `None`
    and for the exceptions the adapter raises or swallows. */
module Wrappers {

  datatype Option<+T> = None | Some(value: T)

  datatype Result<+T, +E> = Success(value: T) | Failure(error: E)
}
