/** Option and Result, the failure-carrying values the model returns in place of C's NULL and err()/errx() exits. */
module Wrappers {

  datatype Option<+T> = None | Some(value: T)

  datatype Result<+T, +E> = Success(value: T) | Failure(error: E)
}
