/** Tagged results used in place of the exceptions the server raises and catches. */
module Wrappers {

  /** A value that may be absent, such as an unset environment variable. */
  datatype Option<T> = None | Some(value: T)

  /** Either a value or an error. */
  datatype Result<T, E> = Success(value: T) | Failure(error: E)
}
