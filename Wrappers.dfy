/** The Option and Result values used across the model. A thrown JavaScript
    exception is an `Err`; a normal return is an `Ok`. */
module Wrappers {

  datatype Option<+T> = None | Some(value: T)

  datatype Result<+T, +E> = Ok(value: T) | Err(error: E)
}
