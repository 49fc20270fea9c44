/** Optional values and fallible results, standing in for C#'s null and for exceptions. */
module Wrappers {
  /** `None` plays the role of a null reference. */
  datatype Option<+T> = None | Some(value: T)

  /** A constructor that throws is modelled as a factory returning `Failure`. */
  datatype Result<+T, +E> = Success(value: T) | Failure(error: E)
}
