/** Option and Result, the stand-ins for C#'s null references and thrown exceptions. */
module Wrappers {

  datatype Option<+T> = None | Some(value: T) {
    function GetOr(default: T): T {
      match this
      case Some(v) => v
      case None => default
    }
  }

  /** A .NET exception: its Message and, for a wrapped one, the InnerException. */
  datatype Exception = Exception(Message: string, InnerException: Option<Exception>)

  /** The text .NET gives a NullReferenceException. */
  const NullReferenceText: string := "Object reference not set to an instance of an object."

  /** The text of the TargetInvocationException that reflection wraps around a handler's exception. */
  const TargetInvocationText: string := "Exception has been thrown by the target of an invocation."

  function Raise(msg: string): Exception {
    Exception(msg, None)
  }

  function NullReference(): Exception {
    Exception(NullReferenceText, None)
  }

  /** The outcome of a call that returns `value` or throws `error`; `:-` propagates the throw. */
  datatype Result<+R> = Success(value: R) | Failure(error: Exception) {
    predicate IsFailure() {
      Failure?
    }

    function PropagateFailure<U>(): Result<U>
      requires Failure?
    {
      Failure(error)
    }

    function Extract(): R
      requires Success?
    {
      value
    }
  }
}
