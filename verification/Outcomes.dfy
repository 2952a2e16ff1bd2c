/** The per-task ledger entry and the closed sets of states it draws from. */
module Outcomes {
  import opened Wrappers

  datatype TaskState =
    | Answered | NoOffers | AllRejected
    | ProviderFailed | RateLimited | TimedOut
    | SkippedEarlyStop | Cancelled

  datatype CacheMark = Hit | Miss | Bypass

  datatype RejectionCode =
    | TooManyStops | LayoverTooShort | LayoverTooLong
    | OriginMismatch | DestinationMismatch | DateMismatch
    | AmbiguousLocalTime | NonexistentLocalTime | SelfTransfer

  datatype ErrorKind = RateLimitedError | TimeoutError | OtherError

  datatype TaskOutcome = TaskOutcome(
    taskId: string,
    state: TaskState,
    attempts: nat,
    offerCount: nat,
    acceptedCount: nat,
    rejectionCounts: map<RejectionCode, nat>,
    cache: CacheMark,
    error: Option<ErrorKind>)

  /** The three states of a failed provider call. */
  predicate IsError(s: TaskState) {
    s == ProviderFailed || s == RateLimited || s == TimedOut
  }

  /** The three states in which the provider did answer. */
  predicate IsAnswered(s: TaskState) {
    s == Answered || s == NoOffers || s == AllRejected
  }
}
