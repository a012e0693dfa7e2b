/** Option and Result, used for the optional columns of the schema and for
    the outcomes a route reports back instead of raising. */
module Wrappers {

  datatype Option<+T> = None | Some(value: T)

  datatype Result<+R, +E> = Success(value: R) | Failure(error: E)
}
