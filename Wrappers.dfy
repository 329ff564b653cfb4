/** Option and Result, the two wrappers the model uses for `T | null` and for thrown errors. */
module Wrappers {

  /** `None` stands for JavaScript's `null`. */
  datatype Option<+T> = None | Some(value: T)

  /** `Err` stands for an `Error` thrown with the given message. */
  datatype Result<+T, +E> = Ok(value: T) | Err(error: E)
}
