/** Optional values and fatal-error results shared by the model's modules. */
module Wrappers {

  /** A value that may be absent: a null pointer or a field left unset. */
  datatype Option<+T> = None | Some(value: T)

  /** The outcome of an operation that either yields a value or stops with
      the message the program's ERROR macro would print before aborting. */
  datatype Result<+T> = Success(value: T) | Failure(error: string)
}
