/** Failure-compatible wrappers shared by every stage of the pipeline. */
module Results {

  /** A value that may be missing (a null cell, a parse that failed). */
  datatype Option<+T> = None | Some(value: T)

  /** The outcome of a stage that either produces a value or raises an error. */
  datatype Result<+T, +E> = Success(value: T) | Failure(error: E)
}
