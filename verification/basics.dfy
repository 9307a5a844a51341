/**
  Wrappers shared by the three components: a nullable value and the outcome of
  a call that either returns or throws.
 */
module Basics {

  /** A C# reference or `Nullable<T>`: `None` stands for `null`. */
  datatype Option<+T> = None | Some(value: T)

  /** The outcome of a call that either returns a value or throws `error`. */
  datatype Result<+T, +E> = Success(value: T) | Failure(error: E)
}
