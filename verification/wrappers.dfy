/** Failure-carrying wrappers used throughout the model. */
module Wrappers {

  /** A value that may be absent: a lookup miss, an unparsable request body. */
  datatype Option<+T> = None | Some(value: T)

  /** Go's `(value, error)` pair: either a value or an error message. */
  datatype Result<+T> = Ok(value: T) | Err(msg: string)
}
