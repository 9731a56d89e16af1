/** Failure-compatible wrappers used by the tool models. */
module Wrappers {

  /** An optional value: Python's `Optional[T]`, with `None` as the absent case. */
  datatype Option<+T> = None | Some(value: T)

  /** A tool result that is either a value or an error record carrying a message. */
  datatype Result<+T> = Ok(value: T) | Err(message: string)
}
