/** Optional values and error-carrying results, used in place of C# null and exceptions. */
module Wrappers {

  /** `None` stands for a C# null reference. */
  datatype Option<+T> = None | Some(value: T)

  /** `Failure` stands for an exception thrown to the caller. */
  datatype Result<+T, +E> = Success(value: T) | Failure(error: E)
}
