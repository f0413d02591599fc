/**
 * `SentryWorkflowOutboundCallsInterceptor`: when a workflow panics or
 * completes with a failure, capture one Sentry event carrying the workflow
 * context and the workflow's input values as `Args`, then continue the
 * pipeline; without a failure, only continue.
 */
module SentryOutboundCalls {
  import opened Wrappers
  import opened Definitions
  import opened Effects
  import opened SentryEvents

  /** The event of `reportError($e)`, given the decoded input values. */
  function ArgsEvent(e: Failure, info: WorkflowInfo, values: seq<Value>): Event {
    ExceptionEvent(e).(contexts := [("Workflow", WorkflowContext(info))], extra := [("Args", List(values))])
  }

  /**
   * The failure a report ends with, in the order its calls are made: the
   * stack-trace builder, then `Workflow::getInput()->getValues()` (which
   * decodes the payloads and may throw a DataConverterException), then the
   * capture.
   */
  function ReportFailure(values: Outcome<seq<Value>>, hub: Hub): Option<Failure> {
    if hub.build.Some? then hub.build
    else if values.Threw? then Some(values.failure)
    else hub.capture
  }

  /** The calls of `reportError($e)`: the builder, then the capture unless the builder or the decoding threw. */
  function Report(e: Failure, info: WorkflowInfo, values: Outcome<seq<Value>>, hub: Hub): seq<Call<WorkflowCallInput>> {
    [BuildFromException(e)]
      + (if hub.build.None? && values.Returned? then
           [CaptureEvent(ArgsEvent(e, info, values.value), Hint(e, Some(StackTrace(e))))]
         else [])
  }

  /**
   * The shared gating of `panic` and `complete`: a report only for a failure,
   * then `next`, which a report that throws never reaches.
   */
  function Gated(input: WorkflowCallInput, info: WorkflowInfo, values: Outcome<seq<Value>>, hub: Hub)
    : seq<Call<WorkflowCallInput>>
  {
    if input.failure.None? then [Next(input)]
    else Report(input.failure.value, info, values, hub) + (if ReportFailure(values, hub).None? then [Next(input)] else [])
  }

  /** What `panic` and `complete` end with: the report's failure, else what `next` gives. */
  function GatedResult<R>(input: WorkflowCallInput, values: Outcome<seq<Value>>, hub: Hub,
                          next: WorkflowCallInput -> Outcome<R>): Outcome<R>
  {
    if input.failure.Some? && ReportFailure(values, hub).Some? then Threw(ReportFailure(values, hub).value)
    else next(input)
  }

  /** `reportError`: the `Args` list is built by copying the decoded input values one by one. */
  method ReportError(e: Failure, info: WorkflowInfo, values: Outcome<seq<Value>>, hub: Hub)
    returns (calls: seq<Call<WorkflowCallInput>>, thrown: Option<Failure>)
    ensures calls == Report(e, info, values, hub) && thrown == ReportFailure(values, hub)
  {
    calls := [BuildFromException(e)];
    if hub.build.Some? {
      return calls, hub.build;
    }
    var event := ExceptionEvent(e).(contexts := [("Workflow", WorkflowContext(info))]);
    if values.Threw? {
      return calls, Some(values.failure);
    }
    var request: seq<Value> := [];
    var i := 0;
    while i < |values.value|
      invariant 0 <= i <= |values.value|
      invariant request == values.value[..i]
    {
      request := request + [values.value[i]];
      i := i + 1;
    }
    assert request == values.value;
    event := event.(extra := [("Args", List(request))]);
    calls := calls + [CaptureEvent(event, Hint(e, Some(StackTrace(e))))];
    thrown := hub.capture;
  }

  method Panic<R>(input: WorkflowCallInput, info: WorkflowInfo, values: Outcome<seq<Value>>, hub: Hub,
                  next: WorkflowCallInput -> Outcome<R>)
    returns (calls: seq<Call<WorkflowCallInput>>, result: Outcome<R>)
    ensures calls == Gated(input, info, values, hub) && result == GatedResult(input, values, hub, next)
  {
    if input.failure == None {
      return [Next(input)], next(input);
    }
    var thrown;
    calls, thrown := ReportError(input.failure.value, info, values, hub);
    if thrown.Some? {
      return calls, Threw(thrown.value);
    }
    calls := calls + [Next(input)];
    result := next(input);
  }

  method Complete<R>(input: WorkflowCallInput, info: WorkflowInfo, values: Outcome<seq<Value>>, hub: Hub,
                     next: WorkflowCallInput -> Outcome<R>)
    returns (calls: seq<Call<WorkflowCallInput>>, result: Outcome<R>)
    ensures calls == Gated(input, info, values, hub) && result == GatedResult(input, values, hub, next)
  {
    if input.failure == None {
      return [Next(input)], next(input);
    }
    var thrown;
    calls, thrown := ReportError(input.failure.value, info, values, hub);
    if thrown.Some? {
      return calls, Threw(thrown.value);
    }
    calls := calls + [Next(input)];
    result := next(input);
  }

  /**
   * Without a failure nothing is reported and `next` decides the result.
   * With one, at most one event is captured, carrying the failure and the
   * decoded input values in order; `next` runs, last, exactly when the
   * report did not throw, and otherwise the report's failure is the result.
   * A decoding failure ends the report before the capture.
   */
  lemma GatedReportsOnce<R>(input: WorkflowCallInput, info: WorkflowInfo, values: Outcome<seq<Value>>, hub: Hub,
                            next: WorkflowCallInput -> Outcome<R>)
    ensures var calls := Gated(input, info, values, hub);
      var thrown := ReportFailure(values, hub);
      && (Next(input) in calls <==> input.failure.None? || thrown.None?)
      && (Next(input) in calls ==> calls[|calls| - 1] == Next(input) && GatedResult(input, values, hub, next) == next(input))
      && (Next(input) !in calls ==> GatedResult(input, values, hub, next) == Threw(thrown.value))
      && (input.failure.None? ==> calls == [Next(input)])
      && (input.failure.Some? ==> calls[0] == BuildFromException(input.failure.value))
      && (input.failure.Some? && (hub.build.Some? || values.Threw?) ==>
            calls == [BuildFromException(input.failure.value)])
      && (input.failure.Some? && hub.build.None? && values.Threw? ==>
            GatedResult(input, values, hub, next) == Threw(values.failure))
      && (input.failure.Some? && hub.build.None? && values.Returned? ==>
            && calls[1].CaptureEvent?
            && calls[1].event.exceptions == [(input.failure.value, StackTrace(input.failure.value))]
            && calls[1].event.extra == [("Args", List(values.value))]
            && (forall k :: 0 <= k < |calls| && k != 1 ==> !calls[k].CaptureEvent?))
  {
  }
}
