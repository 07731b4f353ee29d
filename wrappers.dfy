/** Failure-carrying result types shared by the other modules. */
module Wrappers {

  /** A value that may be missing; None stands for an operation that raises. */
  datatype Option<+T> = None | Some(value: T)

  /** The result of a check that either passes or fails with an error. */
  datatype Outcome<+E> = Pass | Fail(error: E)
}
