/** Failure-carrying values shared by the model: the C++ code signals its
    errors with exceptions, which the model returns as `Failure` values. */
module Wrappers {

  datatype Option<+T> = None | Some(value: T)

  datatype Result<+R, +E> = Success(value: R) | Failure(error: E)

  datatype Outcome<+E> = Pass | Fail(error: E)

}
