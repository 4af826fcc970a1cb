/** Failure-carrying results shared by the other modules. Error values are
    the text of the Go error (what err.Error() would return). */
module Wrappers {

  datatype Option<+T> = None | Some(value: T)

  datatype Result<+T> = Success(value: T) | Failure(error: string)

  /** The outcome of a step that yields no value: it passes or fails with a message. */
  datatype Outcome = Pass | Fail(error: string)
}
