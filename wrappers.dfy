/** Success/failure results standing in for the exceptions the dispatcher raises. */
module Wrappers {

  datatype Result<T, E> = Success(value: T) | Failure(error: E)

  datatype Option<T> = None | Some(value: T)
}
