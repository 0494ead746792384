/** Option and Result types, and the exceptions of the BACnet stack as values. */
module Wrappers {
  datatype Option<T> = None | Some(value: T)

  /** The exception classes raised by the modelled code. */
  datatype Error =
    | DecodingError
    | EncodingError
    | ValueError
    | TypeError
    | KeyError
    | AttributeError
    | RuntimeError
    | ConfigurationError
    | MissingRequiredParameter
    | ParameterOutOfRange
    | InconsistentParameters
    | UnrecognizedService
    | IndexError
    | OSError
    | StructError
    | ZeroDivisionError
    | RejectException
    | AbortException
    | ExecutionError(errorClass: string, errorCode: string)

  /** A value, or the exception that was raised instead. */
  datatype Result<T> = Ok(value: T) | Err(error: Error)
  {
    predicate IsFailure() { Err? }
    function PropagateFailure<U>(): Result<U> requires Err? { Err(error) }
    function Extract(): T requires Ok? { value }
  }
}
