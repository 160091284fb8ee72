/** Status codes and statuses shared by the executor service and its resolver. */
module StatusCodes {
  import opened Wrappers

  /** The canonical status codes (absl and gRPC share them). */
  datatype Code =
    | Ok | Cancelled | Unknown | InvalidArgument | DeadlineExceeded | NotFound
    | AlreadyExists | PermissionDenied | ResourceExhausted | FailedPrecondition
    | Aborted | OutOfRange | Unimplemented | Internal | Unavailable | DataLoss
    | Unauthenticated

  datatype Status = Status(code: Code, message: string)

  const OkStatus: Status := Status(Ok, "")

  /** A status that reports a failure. */
  type ErrorStatus = s: Status | s.code != Ok witness Status(Unknown, "")

  /** `absl::StatusOr<T>`: a value, or the error status that stands in its place. */
  type StatusOr<T> = Result<T, ErrorStatus>
}
