/**
 Failure-carrying values shared by every module of the model.

 Python code in the modelled system signals failure by raising; here a raised
 exception is a value `Exception(cls, message)`, where `message` is what
 `str(exc)` would print, and an operation that may raise returns a `Result`.
 */
module Results {

  datatype Option<+T> = None | Some(value: T)

  /** The Python exception classes the modelled code raises or catches */
  datatype ExceptionClass =
    | ValueError
    | RuntimeError
    | ImportError
    | HTTPError(status: int)
    | ConnectionError
    | DecodeError

  datatype Exception = Exception(cls: ExceptionClass, message: string)

  datatype Result<+T> = Ok(value: T) | Err(error: Exception) {

    predicate IsFailure() {
      Err?
    }

    function PropagateFailure<U>(): Result<U>
      requires Err?
    {
      Err(error)
    }

    function Extract(): T
      requires Ok?
    {
      value
    }
  }

  /** The result of an operation that returns nothing but may raise */
  datatype Outcome = Done | Failed(error: Exception)
}
