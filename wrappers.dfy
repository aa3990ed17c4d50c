/** Failure-carrying values shared by the model's modules. */
module Wrappers {

  /** A value that may be absent, as Python's `None` or a failed `re.search`. */
  datatype Option<+T> = None | Some(value: T)

  /** The outcome of an operation that may raise: the value, or the exception's text. */
  datatype Result<+T> = Ok(value: T) | Err(error: string)
}
