/** Failure-carrying results shared by every module of the model.
    The source returns `anyhow::Result` values whose error is a message;
    here the message is kept as a string. */
module Wrappers {

  datatype Option<+T> = None | Some(value: T)

  /** `Result<T>`: a value, or the error message `?` would propagate. */
  datatype Result<+T> = Ok(value: T) | Err(error: string)

  /** `Result<()>`: success, or the error message. */
  datatype Outcome = Pass | Fail(error: string)
}
