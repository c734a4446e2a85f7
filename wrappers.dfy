/** Option and failure values shared by every module of the model. */
module Wrappers {

  datatype Option<+T> = None | Some(value: T)

  /** The value of an async call: resolved with a value, or rejected with a message. */
  datatype Result<+T> = Success(value: T) | Failure(error: string)

  /** The value of an async call that resolves to nothing. */
  datatype Outcome = Pass | Fail(error: string)
}
