/** Optional values and the outcome of a call that may fail with a message. */
module Wrappers {

  datatype Option<+T> = None | Some(value: T)

  /** The result of an external collaborator that either produces a value
      or throws an error carrying a message. */
  datatype Outcome<+T> = Ok(value: T) | Failed(message: string)
}
