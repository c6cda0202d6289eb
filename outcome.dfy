/**
 * Results of operations that the source reports by throwing, and optional
 * values of searches that may find nothing.
 */
module Outcome {

  datatype Option<T> = None | Some(value: T)

  /** The value of an operation, or the message of the exception the source
      throws instead. */
  datatype Result<T> = Success(value: T) | Failure(error: string)
}
