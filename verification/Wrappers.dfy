module Wrappers {
  datatype Option<+T> = None | Some(value: T)

  /** `Failure` stands for an assertion of the source that does not hold. */
  datatype Result<+T> = Success(value: T) | Failure
}
