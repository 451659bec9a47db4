/** Option and Result: the two failure-carrying shapes the Rust code uses
    (`Option<T>` and `Result<T, E>`). */
module Wrappers {

  datatype Option<+T> = None | Some(value: T) {
    /** `Option::unwrap_or` */
    function UnwrapOr(default: T): T {
      match this
      case Some(v) => v
      case None => default
    }
  }

  datatype Result<+T, +E> = Success(value: T) | Failure(error: E) {
    /** `Result::unwrap_or` */
    function UnwrapOr(default: T): T {
      match this
      case Success(v) => v
      case Failure(_) => default
    }
  }
}
