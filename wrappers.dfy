/** Success/failure values standing in for JavaScript exceptions and Solidity reverts. */
module Wrappers {

  datatype Option<+T> = None | Some(value: T)

  datatype Result<+T, +E> = Success(value: T) | Failure(error: E)
}
