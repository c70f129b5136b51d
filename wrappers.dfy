/** Optional values and success/failure results, standing for Java's nullable
    references and for the exceptions the wrapper lets escape. */
module Wrappers {

  /** A value that may be absent: `None` models a Java `null`. */
  datatype Option<+T> = None | Some(value: T)

  /** A computation that either produced a value or raised an error. */
  datatype Result<+R, +E> = Success(value: R) | Failure(error: E)

  /** A computation that produces no value (a Java `void` method) but may raise an error. */
  datatype Outcome<+E> = Pass | Fail(error: E)
}
