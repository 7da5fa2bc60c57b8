/** Wrappers: an optional value and the outcome of a call into the
    network, which the model receives as an input. */
module Wrappers {

  datatype Option<+T> = None | Some(value: T)

  /** The settled result of an awaited promise: resolved with a value, or
      rejected with an error message. */
  datatype Result<+T> = Ok(value: T) | Err(message: string)
}
