/** Optional values and results with an error branch, used for `null` cells,
    failed lookups and rejected move requests. */
module Wrappers {

  datatype Option<+T> = None | Some(value: T)

  datatype Result<+R, +E> = Success(value: R) | Failure(error: E)
}
