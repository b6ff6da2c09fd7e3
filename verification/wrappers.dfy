/** Failure-compatible result types shared by every module of the model. */
module Wrappers {

  /** A value that may be absent: a failed register read, a rejected window. */
  datatype Option<+T> = None | Some(value: T)

  /** The outcome of an operation that may throw: `Failure` carries the message. */
  datatype Result<+R> = Success(value: R) | Failure(error: string)
}
