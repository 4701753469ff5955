/** Status codes and fallible results, after absl::Status / absl::StatusOr. */
module Statuses {

  datatype StatusCode =
    | Ok
    | Unknown
    | InvalidArgument
    | NotFound
    | OutOfRange
    | FailedPrecondition
    | ResourceExhausted
    | Internal

  /** A non-OK status: a code and a message. */
  datatype Status = Status(code: StatusCode, message: string)

  /** absl::StatusOr<T>: either a value or a non-OK status. */
  datatype StatusOr<+T> = Success(value: T) | Failure(status: Status) {
    predicate IsFailure() { Failure? }
    function PropagateFailure<U>(): StatusOr<U>
      requires Failure?
    {
      Failure(status)
    }
    function Extract(): T
      requires Success?
    {
      value
    }
  }

  /** absl::Status used as a plain outcome: OK or a non-OK status. */
  datatype Outcome = Pass | Fail(status: Status) {
    predicate IsFailure() { Fail? }
    function PropagateFailure(): Outcome
      requires Fail?
    {
      this
    }
  }

  datatype Option<+T> = None | Some(value: T)
}
