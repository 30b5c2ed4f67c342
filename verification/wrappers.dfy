/** Optional values and error-carrying results, used by every other module. */
module Wrappers {

  /** A value that may be absent (JavaScript `undefined`). */
  datatype Option<+T> = None | Some(value: T)

  /** The outcome of an operation that can be rejected with a message. */
  datatype Result<+T> = Ok(value: T) | Err(message: string)
}
