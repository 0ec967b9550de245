/** The error values that the ad service and its HTTP transport hand to each other.

    Go compares these errors by identity (`switch err { case ErrNotFound: ... }`), so
    every sentinel is its own constructor, and an error made at run time from some
    text (a store failure, the downstream processor's message) is a different value
    from every sentinel even when its text happens to be the same. */
module Errors {

  datatype Option<+T> = None | Some(value: T)

  /** A value of type T, or the error that took its place. */
  datatype Result<+T> = Success(value: T) | Failure(error: Error)

  datatype Error =
    // sentinels of service.go
    | InconsistentIDs
    | AlreadyExists
    | NotFound
    | MissingFields
    | Upload
    // sentinel of transport.go
    | BadRouting
    // errors made by the collaborators, carried through unchanged
    | StoreFault(cause: string)    // an error the relational store reported
    | WriterFault(cause: string)   // the error closing the object-storage writer returned
    | RpcFault(cause: string)      // the image processor could not be reached
    | Rejected(message: string)    // the image processor answered with a non-Ok status

  /** The text `err.Error()` returns. */
  function Message(e: Error): string
  {
    match e
    case InconsistentIDs => "inconsistent IDs"
    case AlreadyExists => "already exists"
    case NotFound => "not found"
    case MissingFields => "missing fields"
    case Upload => "upload failed"
    case BadRouting => "expected URL variable is missing"
    case StoreFault(cause) => cause
    case WriterFault(cause) => cause
    case RpcFault(cause) => cause
    case Rejected(message) => message
  }
}
