/** Failure-compatible wrappers shared by the model: Java's nullable references
    become `Option`, thrown exceptions become the `Failure` arm of `Result`,
    and `void` validators that may throw become `Outcome`. */
module Wrappers {

  /** A nullable reference: `None` stands for Java's `null`. */
  datatype Option<+T> = None | Some(value: T)

  /** The value of an operation that either returns normally or throws. */
  datatype Result<+T, +E> = Success(value: T) | Failure(error: E)

  /** The value of a `void` check that either returns normally or throws. */
  datatype Outcome<+E> = Pass | Fail(error: E)
}
