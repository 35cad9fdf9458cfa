/** Option and Result, used for the nullable fields of the records and for
    the operations of the source that can throw. */
module Wrappers {

  datatype Option<+T> = None | Some(value: T)

  datatype Result<+T, +E> = Success(value: T) | Failure(error: E)
}
