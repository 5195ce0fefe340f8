/** Failure-compatible wrappers shared by every module of the model. */
module Wrappers {

  /** A value that may be missing: a remote call that failed, a key that is absent. */
  datatype Option<+T> = None | Some(value: T) {
    function GetOr(default: T): T {
      match this
      case Some(v) => v
      case None => default
    }
  }

  /** An outcome that is either a value or an error description. */
  datatype Result<+R, +E> = Success(value: R) | Failure(error: E)
}
