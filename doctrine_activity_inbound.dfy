/**
 * `DoctrineActivityInboundInterceptor::handleActivityInbound`: run the
 * activity; when it fails with a closed entity manager or a DBAL driver
 * exception, run the ping finalizer, then rethrow.
 */
module DoctrineActivityInbound {
  import opened Wrappers
  import opened Effects

  datatype Call = Next(input: ActivityInput) | Finalize

  /** The failures after which the connection is checked. */
  predicate Recoverable(f: Failure) {
    f.kind == EntityManagerClosed || f.kind == DriverError
  }

  /**
   * `next` is the rest of the pipeline; `finalize` is what the ping finalizer
   * throws, if anything. A throwing finalizer replaces the activity's
   * exception, since nothing catches it inside the catch block.
   */
  method HandleActivityInbound<R>(input: ActivityInput, next: ActivityInput -> Outcome<R>, finalize: Option<Failure>)
    returns (calls: seq<Call>, result: Outcome<R>)
    ensures |calls| > 0 && calls[0] == Next(input) && Next(input) !in calls[1..]
    ensures next(input).Returned? ==> calls == [Next(input)] && result == next(input)
    ensures next(input).Threw? && !Recoverable(next(input).failure) ==> calls == [Next(input)] && result == next(input)
    ensures next(input).Threw? && Recoverable(next(input).failure) ==>
      calls == [Next(input), Finalize] && result == (if finalize.Some? then Threw(finalize.value) else next(input))
    ensures Finalize in calls <==> next(input).Threw? && Recoverable(next(input).failure)
  {
    calls := [Next(input)];
    result := next(input);
    if result.Threw? {
      var e := result.failure;
      if e.kind == EntityManagerClosed || e.kind == DriverError {
        calls := calls + [Finalize];
        if finalize.Some? {
          return calls, Threw(finalize.value);
        }
      }
    }
  }
}
