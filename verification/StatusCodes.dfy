/** gRPC status codes, and which of them count against a circuit breaker. */
module StatusCodes {
  datatype Code =
    | OK | Canceled | Unknown | InvalidArgument | DeadlineExceeded | NotFound | AlreadyExists
    | PermissionDenied | ResourceExhausted | FailedPrecondition | Aborted | OutOfRange
    | Unimplemented | Internal | Unavailable | DataLoss | Unauthenticated

  predicate IsFailure(c: Code) {
    c in {Unavailable, DeadlineExceeded, Internal, ResourceExhausted, Unknown}
  }
}
