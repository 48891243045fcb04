// Option and Result types shared by the modules of the floor-plan model.
module Wrappers {
  datatype Option<T> = None | Some(value: T)

  // The error values that the Python code raises as exceptions (KeyError,
  // ValueError, IndexError, TypeError, ZeroDivisionError, NameError for a
  // local read before it is bound) or reports with sys.exit.
  datatype Error =
    | KeyError(key: string)
    | NameError(name: string)
    | ValueError(message: string)
    | IndexError
    | TypeError(message: string)
    | ZeroDivisionError
    | Exit(message: string)

  datatype Result<T> = Ok(value: T) | Err(error: Error)
}
