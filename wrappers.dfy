/** Option and Result values standing in for Python's None returns and raised exceptions. */
module Wrappers {

  datatype Option<+T> = None | Some(value: T)

  /** A computation that either yields a value or fails, the failure naming what was raised. */
  datatype Result<+T> = Ok(value: T) | Err(error: string)

  /** A step that only succeeds or fails. */
  datatype Outcome = Pass | Fail(error: string)
}
