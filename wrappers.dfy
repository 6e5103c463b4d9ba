/** Optional values (Java references that may be null) and the outcome of a
    service call: a value, or one of the exceptions the services throw. */
module Wrappers {

  /** A Java reference that may be null. */
  datatype Option<+T> = None | Some(value: T)

  /** The value of a service call, or the exception it raises.
      NotFound, Conflict and BadRequest are the application's own exception
      classes; InternalError stands for any other runtime exception, whatever
      status the exception handler answers it with. */
  datatype Result<+T> =
    | Ok(value: T)
    | NotFound(msg: string)
    | Conflict(msg: string)
    | BadRequest(msg: string)
    | InternalError(msg: string)
  {
    predicate IsFailure() {
      !Ok?
    }

    function PropagateFailure<U>(): Result<U>
      requires IsFailure()
    {
      match this
      case NotFound(m) => NotFound(m)
      case Conflict(m) => Conflict(m)
      case BadRequest(m) => BadRequest(m)
      case InternalError(m) => InternalError(m)
    }

    function Extract(): T
      requires Ok?
    {
      value
    }
  }
}
