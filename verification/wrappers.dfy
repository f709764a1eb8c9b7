/** Errors the client raises and the Result type that carries them. */
module Wrappers {
  import opened Json

  /** Python exceptions the client does not catch: they escape to its caller
      (or end the reader thread). */
  datatype FaultKind = KeyError | TypeError | IndexError | AttributeError | StructError

  /** Every failure the modelled operations report. */
  datatype Error =
    | FramingError(buffer: string)               // the reader's `assert` on a buffer not starting with '{'
    | ParseError(text: string)                   // json.loads rejected a framed message
    | Fault(kind: FaultKind)                     // an uncaught Python runtime error
    | NotAuthenticated(message: Json)            // RPC error -32601
    | MakerBotError(code: Json, message: Json)   // any other RPC error
    | AuthenticationError(message: Json)
    | AuthenticationTimeout
    | InvalidContextError
    | UnexpectedJsonResponse(response: Json)

  datatype Result<+T> = Success(value: T) | Failure(error: Error)
  {
    predicate IsFailure() { Failure? }

    function PropagateFailure<U>(): Result<U>
      requires Failure?
    {
      Failure(error)
    }

    function Extract(): T
      requires Success?
    {
      value
    }
  }
}
