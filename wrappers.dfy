/** Failure-carrying datatypes shared by the two programs: the panics of the
    init-message check, of the pebble game's `init` and of its `state` become a
    `Fail`/`Failure` value here. */
module Wrappers {

  datatype Option<+T> = None | Some(value: T)

  /** A computation that either produced a value or stopped with an error. */
  datatype Result<+R, +E> = Success(value: R) | Failure(error: E)

  /** A check that either passed or stopped with an error; it carries no value. */
  datatype Outcome<+E> = Pass | Fail(error: E)
}
