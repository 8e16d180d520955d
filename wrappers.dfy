/** Optional values and success/failure results, used where the PHP code
    returns `false`/`null` or throws an exception. */
module Wrappers {

  datatype Option<+T> = None | Some(value: T)

  datatype Result<+R, +E> = Success(value: R) | Failure(error: E)

  /** A computation that has no value of its own: it passes or fails with an error. */
  datatype Outcome<+E> = Pass | Fail(error: E)
}
