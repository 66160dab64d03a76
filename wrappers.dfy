/** Option and Result, the failure-carrying values the pipelines return instead of raising. */
module Wrappers {

  datatype Option<+T> = None | Some(value: T)

  datatype Result<+R, +E> = Success(value: R) | Failure(error: E)
}
