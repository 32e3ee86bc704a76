/** Option and Result values shared by every module; an `Err` names the
  * Python exception class the modelled code would raise. */
module Wrappers {
  datatype Option<T> = None | Some(value: T)

  /** The Python exception classes raised by the modelled code. */
  datatype Exception =
    | TypeError
    | ValueError
    | KeyError
    | IndexError
    | AttributeError
    | NameError
    | NotImplementedError
    | ZeroDivisionError
    | QueueEmpty
    | QueueFull
    | GlobalsError
    | IllegalStateError  // a subclass of RuntimeError (core/fsm.py)
    | PlainException  // a bare `raise Exception(...)`

  datatype Result<T> = Ok(value: T) | Err(error: Exception)

  /** Outcome of an operation that returns nothing but may raise. */
  datatype Status = Done | Raised(error: Exception)
}
