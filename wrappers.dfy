/** Option and Result, the shapes the model uses for Java's null / Optional
    and for thrown exceptions. */
module Wrappers {

  datatype Option<+T> = None | Some(value: T) {
    function GetOr(default: T): T {
      match this
      case Some(v) => v
      case None => default
    }
  }

  datatype Result<+R, +E> = Success(value: R) | Failure(error: E)

  /** The value carried by a `void` Java method that returned normally. */
  datatype Unit = Unit
}
