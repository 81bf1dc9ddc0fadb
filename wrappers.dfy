/** Option and Result values used wherever the source works with a possibly-null
    reference or reports failure by an error code or an exception. */
module Wrappers {

  datatype Option<+T> = None | Some(value: T)

  datatype Result<+T, +E> = Success(value: T) | Failure(error: E)
}
