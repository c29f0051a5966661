/** Small failure-carrying datatypes shared by the model: a Java `null` becomes
    `None`, a thrown exception becomes `Failure`/`Fail`. */
module Wrappers {

  datatype Option<+T> = None | Some(value: T)

  datatype Result<+R, +E> = Success(value: R) | Failure(error: E)

  /** The outcome of a Java `void` method that may throw. */
  datatype Outcome<+E> = Pass | Fail(error: E)
}
