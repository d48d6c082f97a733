/** Failure-compatible result types shared by the model. */
module Wrappers {

  /** An optional value: the model's stand-in for a missing map entry or "not found". */
  datatype Option<+T> = None | Some(value: T)

  /** The outcome of an operation that the Go program would end with a run-time panic. */
  datatype Result<+R, +E> = Success(value: R) | Failure(error: E)
}
