/** Option and Result values shared by every module of the model.
    A Python `None` becomes `None`; a raised exception becomes `Err`. */
module Wrappers {

  datatype Option<+T> = None | Some(value: T) {
    function GetOr(default: T): T {
      match this
      case Some(v) => v
      case None => default
    }
  }

  /** The kind of exception the source raises (or catches), by its Python class. */
  datatype Error =
    | ValueError
    | IndexError
    | TypeError
    | AttributeError
    | NetworkError
    | ApiError

  datatype Result<+T> = Ok(value: T) | Err(error: Error) {
    predicate IsFailure() { Err? }
    function PropagateFailure<U>(): Result<U>
      requires Err?
    {
      Err(error)
    }
    function Extract(): T
      requires Ok?
    {
      value
    }
  }
}
