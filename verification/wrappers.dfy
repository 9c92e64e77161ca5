/** The two wrappers the model is written with: `Option` for a JavaScript
    value that may be `undefined`, and `Result` for a step of `run` that may
    throw. `Result` supports `:-`, so a thrown error skips the remaining
    steps, as it does in the source's single `try` block. */
module Wrappers {

  datatype Option<+T> = None | Some(value: T) {

    /** The value held, or `default` when there is none. */
    function GetOr(default: T): T {
      match this
      case Some(v) => v
      case None => default
    }
  }

  datatype Result<+R, +E> = Success(value: R) | Failure(error: E) {

    // The members `:-` needs.

    predicate IsFailure() {
      Failure?
    }

    function PropagateFailure<U>(): Result<U, E>
      requires Failure?
    {
      Failure(error)
    }

    function Extract(): R
      requires Success?
    {
      value
    }
  }
}
