/** Failure-compatible result types: every exception of the program is a value here. */
module Wrappers {

  datatype Option<+T> = None | Some(value: T) {
    function GetOr(default: T): T {
      match this
      case Some(v) => v
      case None => default
    }
  }

  datatype Result<+T, +E> = Success(value: T) | Failure(error: E) {
    predicate IsFailure() {
      Failure?
    }

    function PropagateFailure<U>(): Result<U, E>
      requires Failure?
    {
      Failure(error)
    }

    function Extract(): T
      requires Success?
    {
      value
    }

    function OrElse(default: T): T {
      match this
      case Success(v) => v
      case Failure(_) => default
    }
  }

  /** The outcome of a check that returns nothing but may throw. */
  datatype Outcome<+E> = Pass | Fail(error: E) {
    predicate IsFailure() {
      Fail?
    }

    function PropagateFailure<U>(): Result<U, E>
      requires Fail?
    {
      Failure(error)
    }
  }

  /** An optional value, or the error to throw when it is missing. */
  function OrThrow<T, E>(o: Option<T>, e: E): Result<T, E> {
    match o
    case Some(v) => Success(v)
    case None => Failure(e)
  }

  function Require<E>(condition: bool, e: E): Outcome<E> {
    if condition then Pass else Fail(e)
  }
}
