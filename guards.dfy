/**
 * The server's `Assert` helpers (StateFlux/StateFlux/Assert.cs): each throws an exception whose
 * Message is exactly the given text when its condition fails. The log line with the stack trace
 * is output only and is not modelled.
 */
module Guards {
  import opened Wrappers

  /** `ThrowError(msg)`: the exception thrown carries `msg` and no inner exception. */
  function ThrowError(msg: string): (e: Exception)
    ensures e.Message == msg && e.InnerException.None?
  {
    Raise(msg)
  }

  /** `ThrowIfNull(obj, msg)`: throws iff `obj` is null; otherwise hands back the object. */
  function ThrowIfNull<T>(obj: Option<T>, msg: string): (r: Result<T>)
    ensures r.Failure? <==> obj.None?
    ensures r.Failure? ==> r.error == ThrowError(msg)
    ensures r.Success? ==> obj == Some(r.value)
  {
    match obj
    case None => Failure(ThrowError(msg))
    case Some(v) => Success(v)
  }

  /** `ThrowIfNotNull(obj, msg)`: throws iff `obj` is not null. */
  function ThrowIfNotNull<T>(obj: Option<T>, msg: string): (r: Result<()>)
    ensures r.Failure? <==> obj.Some?
    ensures r.Failure? ==> r.error == ThrowError(msg)
  {
    if obj.Some? then Failure(ThrowError(msg)) else Success(())
  }

  /** `ThrowIfFalse(flag, msg)`: throws iff `flag` is false. */
  function ThrowIfFalse(flag: bool, msg: string): (r: Result<()>)
    ensures r.Failure? <==> !flag
    ensures r.Failure? ==> r.error == ThrowError(msg)
  {
    if !flag then Failure(ThrowError(msg)) else Success(())
  }
}
