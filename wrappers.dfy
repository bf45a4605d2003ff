/** Failure-carrying results. A Go `error` that is `nil` becomes `None`. */
module Wrappers {

  datatype Option<+T> = None | Some(value: T)

  /** The result of an operation that may fail with a Go error message. */
  datatype Result<+T> = Ok(value: T) | Err(error: string)
}
