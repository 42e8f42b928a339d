/** Optional values and error-carrying results, standing in for Java's
    nullable references, Optional/OptionalDouble and thrown exceptions. */
module Wrappers {

  /** An optional value: `None` is Java's empty Optional (or a null entry). */
  datatype Option<+T> = None | Some(value: T) {

    /** The value if present, else `default` (Java's `orElse`). */
    function OrElse(default: T): T {
      match this
      case Some(v) => v
      case None => default
    }
  }

  /** The outcome of an operation that may throw: `Failure` carries the exception kind. */
  datatype Result<+T, +E> = Success(value: T) | Failure(error: E)
}
