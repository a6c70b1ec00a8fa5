/** Optional values and results with an error branch, used wherever the scripts
    either produce a value or stop with a Python exception. */
module Wrappers {

  datatype Option<+T> = None | Some(value: T)

  datatype Result<+T, +E> = Success(value: T) | Failure(error: E)
}
