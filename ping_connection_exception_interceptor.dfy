/**
 * `DoctrinePingConnectionExceptionInterceptor::isRetryable`: on a closed
 * entity manager, run the ping finalizer first (logging its failure), then
 * ask the wrapped interceptor. As in the Sentry interceptor, the catch block
 * rebinds `$e`, so after a failed finalize the wrapped interceptor sees the
 * finalizer's exception.
 */
module PingConnectionExceptionInterceptor {
  import opened Wrappers
  import opened Effects

  datatype Call =
    | Finalize
    | LogError(message: string, throwable: Failure)
    | InnerIsRetryable(e: Failure)

  /** The exception the wrapped interceptor is asked about. */
  function Asked(e: Failure, finalize: Option<Failure>): Failure {
    if e.kind == EntityManagerClosed && finalize.Some? then finalize.value else e
  }

  /** `finalize` is what the ping finalizer throws, if anything; `inner` is the wrapped `isRetryable`. */
  method IsRetryable(e: Failure, finalize: Option<Failure>, inner: Failure -> Outcome<bool>)
    returns (calls: seq<Call>, result: Outcome<bool>)
    ensures e.kind != EntityManagerClosed ==> calls == [InnerIsRetryable(e)] && result == inner(e)
    ensures e.kind == EntityManagerClosed ==> |calls| > 0 && calls[0] == Finalize
    ensures e.kind == EntityManagerClosed && finalize.None? ==> calls == [Finalize, InnerIsRetryable(e)] && result == inner(e)
    ensures e.kind == EntityManagerClosed && finalize.Some? ==>
      calls == [Finalize, LogError(finalize.value.message, finalize.value), InnerIsRetryable(finalize.value)]
    ensures |calls| > 0 && calls[|calls| - 1] == InnerIsRetryable(Asked(e, finalize)) && result == inner(Asked(e, finalize))
  {
    var asked := e;
    calls := [];
    if e.kind == EntityManagerClosed {
      calls := calls + [Finalize];
      if finalize.Some? {
        asked := finalize.value;
        calls := calls + [LogError(asked.message, asked)];
      }
    }
    calls := calls + [InnerIsRetryable(asked)];
    result := inner(asked);
  }
}
