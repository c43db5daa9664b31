/** Small option and outcome datatypes shared by the modules of the model. */
module Wrappers {

  /** A value that may be missing: TypeScript's `T | null` / `T | undefined`. */
  datatype Option<+T> = None | Some(value: T) {
    function GetOr(default: T): T {
      match this
      case Some(v) => v
      case None => default
    }
  }

  /** Success, or a failure carrying an error: an operation that may throw. */
  datatype Outcome<+E> = Pass | Fail(error: E)
}
