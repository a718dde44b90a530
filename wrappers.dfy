/** Optional values and results, standing in for Java's null references and exceptions. */
module Wrappers {

  /** A value that may be absent; None plays the part of a null reference. */
  datatype Option<T> = None | Some(value: T)

  /** Either a value or the reason a computation was abandoned. */
  datatype Result<T, E> = Success(value: T) | Failure(error: E)
}
