/** Failure-carrying wrappers shared by every module of the model. */
module Wrappers {

  /** A value that may be absent; stands for TypeScript's `T | null` and optional fields. */
  datatype Option<+T> = None | Some(value: T)

  /** Either a computed value or the error a TypeScript function would have thrown. */
  datatype Result<+T, +E> = Success(value: T) | Failure(error: E)
}
