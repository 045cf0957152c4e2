/** Optional values (Java's nullable references) and results (Java's exceptions). */
module Wrappers {

  /** `None` stands for a Java `null`. */
  datatype Option<+T> = None | Some(value: T)

  /** `Failure` stands for an exception thrown out of a call. */
  datatype Result<+T, +E> = Success(value: T) | Failure(error: E)
}
