/** Option and Result: a JavaScript `null` and a thrown error, as values. */
module Wrappers {

  datatype Option<+T> = None | Some(value: T)

  /** `Err` carries the message of the error the source would throw. */
  datatype Result<+T, +E> = Ok(value: T) | Err(error: E)
}
