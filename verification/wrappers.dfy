/** Failure-compatible wrappers used across the model, in place of Python's
    `None` and of the exceptions the code raises. */
module Wrappers {

  /** `None` stands for Python's `None` (or an attribute the code probes and finds missing). */
  datatype Option<+T> = None | Some(value: T) {

    predicate IsFailure() {
      None?
    }

    function PropagateFailure<U>(): Option<U>
      requires None?
    {
      None
    }

    function Extract(): T
      requires Some?
    {
      value
    }

    function GetOr(default: T): T {
      match this
      case Some(v) => v
      case None => default
    }
  }

  /** A value or the exception a Python call would raise instead of returning. */
  datatype Result<+R, +E> = Success(value: R) | Failure(error: E) {

    predicate IsFailure() {
      Failure?
    }

    function PropagateFailure<U>(): Result<U, E>
      requires Failure?
    {
      Failure(error)
    }

    function Extract(): R
      requires Success?
    {
      value
    }
  }

  /** The Python exceptions the modelled code raises. An `AttributeError` names the
      attribute whose lookup failed. */
  datatype Exception =
    | ValueError(message: string)
    | AttributeError(attribute: string)
}
