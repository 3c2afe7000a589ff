/** Failure-carrying values shared by the modules of this model. */
module Wrappers {

  /** An optional value: the JavaScript `undefined`/`null` cases become `None`. */
  datatype Option<+T> = None | Some(value: T)

  /** A computation that either produced a value or raised an error with a message. */
  datatype Result<+T, +E> = Ok(value: T) | Err(error: E)
}
