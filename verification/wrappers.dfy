/** Option and Result, the failure-carrying values the rest of the model
    uses in place of the program's exceptions. */
module Wrappers {

  datatype Option<+T> = None | Some(value: T)

  datatype Result<+R, +E> = Success(value: R) | Failure(error: E)
}
