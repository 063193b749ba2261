/** Optional values and results with an error message, standing in for
    Python's `None` and for a raised exception. */
module Wrappers {

  datatype Option<+T> = None | Some(value: T) {
    predicate IsFailure() { None? }

    function PropagateFailure<U>(): Option<U>
      requires None?
    {
      None
    }

    function Extract(): T
      requires Some?
    {
      value
    }

    function GetOr(default: T): T {
      match this
      case Some(v) => v
      case None => default
    }
  }

  /** `Err(message)` is a raised Python exception. The message labels the
      failure; it is the exception's `str(e)` only where the member that
      produces it says so (a `ValueError` raised by the code itself, or
      text that is stored as a job's error). Exceptions raised inside a
      library, such as an `AttributeError` or a pydantic `ValidationError`
      wrapping a validator's message, carry texts of their own. */
  datatype Result<+T> = Ok(value: T) | Err(error: string) {
    predicate IsFailure() { Err? }

    function PropagateFailure<U>(): Result<U>
      requires Err?
    {
      Err(error)
    }

    function Extract(): T
      requires Ok?
    {
      value
    }
  }
}
