/** Option and Result values used where the Go code returns nil, an error, or a pair with an error. */
module Wrappers {

  datatype Option<+T> = None | Some(value: T)

  /** The outcome of an operation that can fail with a message, as Go's `(T, error)` pairs. */
  datatype Result<+T> = Ok(value: T) | Err(msg: string)
}
