/** Optional values (C#'s null) and the outcome of an operation that may throw. */
module Wrappers {

  /** A value that may be absent; `None` plays the part of a null reference. */
  datatype Option<+T> = None | Some(value: T)

  /** The outcome of an operation that either completes or throws an argument error. */
  datatype Outcome = Pass | Fail(message: string)
}
