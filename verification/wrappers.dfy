/** Failure-carrying result types shared by every module of the model.
    A `UserError`, `ValidationError` or `AccessError` raised by the add-ons is
    modelled as the failure case of one of these, never as a precondition. */
module Wrappers {

  datatype Option<T> = None | Some(value: T)

  /** Outcome of a check that either passes or raises. */
  datatype Outcome<E> = Pass | Fail(error: E)

  /** Outcome of an operation that returns a value or raises. */
  datatype Result<T, E> = Ok(value: T) | Err(error: E)
}
