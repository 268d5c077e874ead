/** Optional arguments and operations that either produce a value or report an error. */
module Outcomes {

  /** An argument the caller may leave out (JavaScript `undefined`). */
  datatype Option<+T> = None | Some(value: T)

  /** An operation that yields a value, or reports an error message and yields nothing
      (the source logs the message with `console.error` and returns `undefined`). */
  datatype Result<+T> = Ok(value: T) | Err(message: string)
}
