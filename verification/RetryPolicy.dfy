/** Which failed work items may run again (shared by claim and finalize). */
module RetryPolicy {
  import opened Wrappers
  import opened Scheduler

  const MAX_ATTEMPTS := 2

  datatype ErrorCategory =
    | NetworkTimeout | NetworkReset | TemporaryServerError | RateLimited | EnvelopeError | InvalidSchema
    | SemanticConflict | IncompleteCoverage | PersistenceFailure | FreshnessFailure | LoggingFailure
    | ConfigurationError | AuthenticationError | ForbiddenHost | InternalError | Deferred | CircuitOpen
    | Unrecognized(text: string)

  predicate FailedItemIsRetryable(category: Option<ErrorCategory>, acquisitions: nat) {
    && category in [Some(NetworkTimeout), Some(NetworkReset), Some(TemporaryServerError)]
    && acquisitions < MAX_ATTEMPTS
  }

  /** Source work retries by acquisitions and category; work without a scope retries by attempts. */
  predicate FailedWorkItemIsRetryable(task: string, category: Option<ErrorCategory>, acquisitions: nat, attempts: nat) {
    if Scope(task).None? then attempts < MAX_ATTEMPTS
    else FailedItemIsRetryable(category, acquisitions)
  }
}
