/** The exceptions the core raises, and the HTTP response each one becomes. */
module Exceptions {
  import opened Wrappers

  /** Message of the error raised when the singleton dependency is used before `init`. */
  const NotInitializedMessage: string := "ExampleSingletonDependency not initialized."

  /** Code reported to the client for an unknown observing site. */
  const UnknownObserverCode: string := "unknown_observer"

  datatype Error =
      /** The application's reportable internal error; its class is not
          part of this model, only its message and custom data are kept. */
    | DemoInternalError(message: string, customData: Option<string>)
      /** A plain Python `RuntimeError`. */
    | RuntimeError(message: string)
      /** A client error: no observing site has the requested id. */
    | ObserverNotFoundError(observerId: string)
      /** Request validation by the web framework failed for the named
          query parameters (in the order they are declared). */
    | ValidationError(fields: seq<string>)
  {
    /** True for the errors that are reported to the client rather than
        treated as server faults. */
    predicate IsClientError() {
      ObserverNotFoundError? || ValidationError?
    }

    /** The HTTP status of the response: client errors carry their own
        status; any other uncaught exception becomes 500. */
    function StatusCode(): (code: nat)
      ensures IsClientError() <==> code < 500
      ensures ObserverNotFoundError? ==> code == 404
      ensures ValidationError? ==> code == 422
      ensures !IsClientError() ==> code == 500
    {
      match this
      case ObserverNotFoundError(_) => 404
      case ValidationError(_) => 422
      case _ => 500
    }

    /** The machine-readable error code of the not-found error. */
    function ErrorCode(): string
      requires ObserverNotFoundError?
    {
      UnknownObserverCode
    }
  }
}
