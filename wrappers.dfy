/** Result types used by the calculator model. */
module Wrappers {

  /** A value that may be absent; `None` stands for a C# `null` reference. */
  datatype Option<+T> = None | Some(value: T)

  /** Either a value or the error that a C# method would have thrown instead. */
  datatype Result<+R, +E> = Success(value: R) | Failure(error: E)
}
