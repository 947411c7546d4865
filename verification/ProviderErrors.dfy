/** Errors an attempt can end with, and how they are classified
    (gpucall/provider_errors.py, TupleError in gpucall/domain.py). */
module ProviderErrors {
  import opened Wrappers

  datatype ProviderCode =
    | ResourceExhausted | CapacityUnavailable | ProvisionUnavailable | QueueSaturated
    | WorkerInitializing | WorkerThrottled | ProviderTimeout | PollTimeout | JobFailed
    | ProviderCancelled | Unhealthy | Booting | Preempted | Maintenance | UpstreamUnavailable
    | RateLimited | QuotaExceeded | RegionUnavailable | ImagePullDelay | ModelLoading
    | ConcurrencyLimit | LeaseExpired | StaleJob | ProviderError

  datatype ErrorCode =
    | NoCode
    | EmptyOutput | MalformedOutput | OutputTruncated
    | Provider(provider: ProviderCode)
    | OtherCode(name: string)

  datatype TupleError = TupleError(code: ErrorCode, retryable: bool, status: nat)

  /** What ends an attempt badly: what its `except` clauses can see, or an exception raised inside one of them by
      an audit, registry or attempt-record call, after the clause has suppressed the tuple (or its family) or not. */
  datatype Problem = Reported(error: TupleError) | TimedOut | Unexpected | Escaping(suppressed: Option<bool>)

  const CAPACITY_ERROR := TupleError(Provider(CapacityUnavailable), true, 503)
  const TIMEOUT_ERROR := TupleError(Provider(PollTimeout), true, 504)
  const UNEXPECTED_ERROR := TupleError(Provider(ProviderError), true, 502)
  const NO_ADAPTER_ERROR := TupleError(NoCode, false, 503)

  predicate SuppressesFamily(code: ErrorCode) {
    code in {Provider(Maintenance), Provider(UpstreamUnavailable), Provider(RateLimited), Provider(QuotaExceeded)}
  }

  /** A provider-temporary code decides by its class, any other error by its own retryable flag. */
  predicate FallbackEligible(error: TupleError) {
    if error.code.Provider? then error.code.provider !in {ProviderCancelled, QuotaExceeded} else error.retryable
  }

  predicate IsOutputRejection(code: ErrorCode) {
    code in {EmptyOutput, MalformedOutput, OutputTruncated}
  }

  /** The error an exhausted output validation is reported as. */
  function Final(error: TupleError): TupleError {
    TupleError(error.code, false, 422)
  }
}
