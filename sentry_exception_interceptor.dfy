/**
 * `SentryExceptionInterceptor::isRetryable`: report the exception to Sentry,
 * log a failure of the report, then ask the wrapped interceptor. The catch
 * block reuses the name `$e`, so after a failed report the wrapped
 * interceptor is asked about the report's exception, not the original one.
 */
module SentryExceptionInterceptor {
  import opened Wrappers
  import opened Effects

  datatype Call =
    | CaptureException(e: Failure)
    | LogError(message: string, throwable: Failure)
    | InnerIsRetryable(e: Failure)

  /** The exception the wrapped interceptor is asked about. */
  function Asked(e: Failure, capture: Option<Failure>): Failure {
    capture.GetOr(e)
  }

  /**
   * `capture` is what `captureException($e)` throws, if anything; `inner` is
   * the wrapped interceptor's `isRetryable`.
   */
  method IsRetryable(e: Failure, capture: Option<Failure>, inner: Failure -> Outcome<bool>)
    returns (calls: seq<Call>, result: Outcome<bool>)
    ensures |calls| > 0 && calls[0] == CaptureException(e) && calls[|calls| - 1] == InnerIsRetryable(Asked(e, capture))
    ensures result == inner(Asked(e, capture))
    ensures capture.None? ==> calls == [CaptureException(e), InnerIsRetryable(e)] && result == inner(e)
    ensures capture.Some? ==> |calls| == 3 && calls[1] == LogError(capture.value.message, capture.value)
    ensures inner(Asked(e, capture)).Returned? ==> result.Returned?
  {
    calls := [CaptureException(e)];
    var asked := e;
    if capture.Some? {
      asked := capture.value;
      calls := calls + [LogError(asked.message, asked)];
    }
    calls := calls + [InnerIsRetryable(asked)];
    result := inner(asked);
  }
}
