/** Wrappers shared by the model: an optional value, a value-or-error
    result, and a pass-or-fail outcome for checks that return nothing on
    success. */
module Wrappers {

  datatype Option<+T> = None | Some(value: T) {
    /** The value, or `default` when there is none. */
    function GetOr(default: T): T {
      match this
      case Some(v) => v
      case None => default
    }
  }

  datatype Result<+T, +E> = Success(value: T) | Failure(error: E)

  /** The result of a check that either lets the request through or stops it. */
  datatype Outcome<+E> = Pass | Fail(error: E)

  function Need<E>(condition: bool, error: E): (o: Outcome<E>)
    ensures o.Pass? <==> condition
    ensures o.Fail? ==> o.error == error
  {
    if condition then Pass else Fail(error)
  }
}
