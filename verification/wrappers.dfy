/** Failure-compatible wrappers shared by every module of the model. */
module Wrappers {

  /** A nullable value: `None` stands for JavaScript's `null` and `undefined` alike. */
  datatype Option<+T> = None | Some(value: T) {
    function GetOr(default: T): T {
      match this
      case Some(v) => v
      case None => default
    }
  }

  /** The outcome of an operation that can be refused. */
  datatype Result<+R, +E> = Success(value: R) | Failure(error: E) {
    predicate IsFailure() {
      Failure?
    }
  }
}
