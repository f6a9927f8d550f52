/** Optional values and results with an error message, shared by every module of the model. */
module Wrappers {

  datatype Option<T> = None | Some(value: T)

  /** The outcome of an operation that throws on bad input: a value, or the message it throws with. */
  datatype Result<T> = Success(value: T) | Failure(error: string)
}
