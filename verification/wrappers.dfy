/** Option, Result and Outcome: the absent value, the error return and the
    first-failing-guard outcome used throughout the model. */
module Wrappers {

  datatype Option<+T> = None | Some(value: T)

  datatype Result<+R, +E> = Success(value: R) | Failure(error: E)

  /** The outcome of a chain of guards: every guard passed, or the first one
      that failed. */
  datatype Outcome<+E> = Pass | Fail(error: E)
}
