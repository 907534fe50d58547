/** Failure-aware wrappers shared by the modules of this model. */
module Wrappers {

  /** An optional value: `None` stands for JavaScript's `null`/`undefined`
      or for a missing input. */
  datatype Option<+T> = None | Some(value: T)

  /** The outcome of a step that may raise: `Failure` carries the reason. */
  datatype Result<+R, +E> = Success(value: R) | Failure(error: E)
}
