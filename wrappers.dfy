/** Failure-compatible wrappers shared by every module of the model.

    The Python code reports failures by raising exceptions; the model returns
    them as values of `Result`, tagged with the exception class that Python
    would raise. */
module Wrappers {

  datatype Option<+T> = None | Some(value: T) {
    function GetOr(default: T): T {
      match this
      case Some(v) => v
      case None => default
    }
  }

  /** The Python exception classes that the modelled code can raise. */
  datatype Error =
    | KeyError(key: string)
    | AttributeError(attribute: string)
    | ValueError(message: string)
    | RuntimeError(message: string)
    | RecursionError
    | TypeError(message: string)
    | IndexError(index: int)

  /** The `KeyError` a style registry raises for a name it does not hold:
      `KeyError(f"Style '{name}' not found.")`. */
  function StyleNotFound(name: string): Error {
    KeyError("Style '" + name + "' not found.")
  }

  datatype Result<+T> = Ok(value: T) | Err(error: Error) {
    predicate IsFailure() {
      Err?
    }

    function PropagateFailure<U>(): Result<U>
      requires Err?
    {
      Err(error)
    }

    function Extract(): T
      requires Ok?
    {
      value
    }
  }
}
