/** Value types shared by every component. */
module Prelude {

  datatype Option<+T> = None | Some(value: T)

  /** The gRPC status codes. */
  datatype Code =
    | OK
    | Canceled
    | Unknown
    | InvalidArgument
    | DeadlineExceeded
    | NotFound
    | AlreadyExists
    | PermissionDenied
    | ResourceExhausted
    | FailedPrecondition
    | Aborted
    | OutOfRange
    | Unimplemented
    | Internal
    | Unavailable
    | DataLoss
    | Unauthenticated

  datatype Result<+T> = Success(value: T) | Failure(code: Code)

  /** Instants and durations are whole microseconds on one monotone clock. */
  type Time = int

  const SECOND: int := 1_000_000
}
