/** Optional values and pass/fail outcomes, used for Python's `None` and for
    the exceptions the modelled code raises. */
module Wrappers {

  datatype Option<+T> = None | Some(value: T)

  /** The value of a call that either returns normally or raises `error`. */
  datatype Outcome<+E> = Pass | Fail(error: E)

  /** The value of a call that either returns `value` or raises `error`. */
  datatype Result<+R, +E> = Success(value: R) | Failure(error: E)
}
