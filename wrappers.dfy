/** Small failure-carrying values used across the model. */
module Wrappers {

  /** A value that may be absent; Go's nil error is `None`. */
  datatype Option<+T> = None | Some(value: T)

  /** A non-nil Go `error`, kept only for its message. */
  datatype Error = Error(message: string)
}
