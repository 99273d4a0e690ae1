/** Option and Result, the two failure-carrying shapes the rest of the model uses. */
module Wrappers {

  /** A value that may be absent: an `undefined` field or a lookup that found nothing. */
  datatype Option<+T> = None | Some(value: T)

  /** The outcome of a step that may fail with an error instead of a value. */
  datatype Result<+T, +E> = Ok(value: T) | Err(error: E)
}
