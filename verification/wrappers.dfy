/** Failure-carrying datatypes shared by the rest of the model. A Python
    exception that the model has to follow becomes a `Failure` whose payload
    is the exception's `str(e)` text. */
module Wrappers {

  datatype Option<+T> = None | Some(value: T)

  datatype Result<+T, +E> = Success(value: T) | Failure(error: E)
}
