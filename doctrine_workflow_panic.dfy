/**
 * `DoctrineWorkflowPanicInterceptor::panic`: when a workflow panics with a
 * closed entity manager, ask the Doctrine exception interceptor about it
 * (for its side effect, the ping finalizer), then continue the pipeline.
 */
module DoctrineWorkflowPanic {
  import opened Wrappers
  import opened Effects

  datatype Call = IsRetryable(e: Failure) | Next(input: WorkflowCallInput)

  predicate ClosedManager(input: WorkflowCallInput) {
    input.failure.Some? && input.failure.value.kind == EntityManagerClosed
  }

  /**
   * `retryable` is what the Doctrine exception interceptor's `isRetryable`
   * does; its answer is ignored, but an exception from it propagates.
   */
  method Panic<R>(input: WorkflowCallInput, retryable: Outcome<bool>, next: WorkflowCallInput -> Outcome<R>)
    returns (calls: seq<Call>, result: Outcome<R>)
    ensures !ClosedManager(input) ==> calls == [Next(input)] && result == next(input)
    ensures ClosedManager(input) && retryable.Returned? ==>
      calls == [IsRetryable(input.failure.value), Next(input)] && result == next(input)
    ensures ClosedManager(input) && retryable.Threw? ==>
      calls == [IsRetryable(input.failure.value)] && result == Threw(retryable.failure)
  {
    calls := [];
    if input.failure.Some? && input.failure.value.kind == EntityManagerClosed {
      calls := calls + [IsRetryable(input.failure.value)];
      if retryable.Threw? {
        return calls, Threw(retryable.failure);
      }
    }
    calls := calls + [Next(input)];
    result := next(input);
  }
}
