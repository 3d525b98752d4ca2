module Wrappers {
  datatype Option<+T> = None | Some(value: T)

  // The exceptions the services raise (apps/api/app/core/exceptions.py) become the Failure case.
  datatype Result<+T, +E> = Success(value: T) | Failure(error: E)

  // An entity without a result of its own either passes or raises.
  datatype Outcome<+E> = Pass | Fail(error: E)

  function OutcomeOf<T, E>(r: Result<T, E>): Outcome<E> {
    match r
    case Success(_) => Pass
    case Failure(e) => Fail(e)
  }
}
