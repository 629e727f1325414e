/** Failure-compatible result types used in place of the source's exceptions and
    failing parses. */
module Wrappers {

  /** A value or nothing: a parse that may fail. */
  datatype Option<+T> = None | Some(value: T)

  /** Success, or failure carrying an error value: a call that may throw. */
  datatype Outcome<+E> = Pass | Fail(error: E)
}
