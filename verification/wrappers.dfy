/** Option and Result datatypes used by the credential issuer model. */
module Wrappers {

  /** An optional value: an absent JavaScript property or query parameter is `None`. */
  datatype Option<+T> = None | Some(value: T)

  /** The outcome of a step that can fail with an error value. */
  datatype Result<+T, +E> = Success(value: T) | Failure(error: E)
}
