/** Failure-carrying datatypes shared by every module of the model: Go's
    `(value, error)` pairs become a Result, a bare `error` return becomes an
    Outcome, and a value that may be absent becomes an Option. */
module Wrappers {

  datatype Option<+T> = None | Some(value: T)

  datatype Result<+T, +E> = Success(value: T) | Failure(error: E)

  /** `Pass` stands for a nil error, `Fail(e)` for a non-nil one. */
  datatype Outcome<+E> = Pass | Fail(error: E)
}
