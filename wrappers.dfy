/** Option and Result wrappers, and the Python exception classes the package's
    callers distinguish (only `Error` of user_io is ever caught by the package). */
module Wrappers {

  datatype Option<+T> = None | Some(value: T)

  /** The exception a Python call raises. `PdtError` is the package's own
      user_io.Error; the others are the built-in classes that escape it. */
  datatype Exc =
    | PdtError(msg: string)
    | ValueError
    | IndexError
    | KeyError
    | TypeError
    | AttributeError
    | ZeroDivisionError
    | AssertionError
    | FileNotFoundError
    | UnboundLocalError
    | TimeoutExpired
    | ShutilError

  datatype Result<+T> = Ok(value: T) | Fail(exc: Exc)
  {
    predicate IsPdtError() { Fail? && exc.PdtError? }
  }
}
