/** Optional values and results with an error, used for the source's
    `None`/`undefined`/`null` and for operations that can raise. */
module Wrappers {

  datatype Option<+T> = None | Some(value: T)

  datatype Result<+R, +E> = Success(value: R) | Failure(error: E)
}
