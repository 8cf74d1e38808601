/** Failure-carrying values used throughout the model: an optional value and
    the outcome of an operation that can raise one of the Python exceptions the
    network code raises. */
module Wrappers {

  datatype Option<+T> = None | Some(value: T)

  /** The exceptions raised by the network code. */
  datatype Error =
    | ValueError(message: string)
    | TypeError(message: string)
    | IndexError
    /** Raised inside a layer handed the (tensor, matrix) pair an
        `InstanceWhitening` returns where it expects a tensor. */
    | LayerError

  datatype Result<+T> = Ok(value: T) | Err(error: Error)
}
