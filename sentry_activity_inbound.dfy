/**
 * `SentryActivityInboundInterceptor::handleActivityInbound`: run the
 * activity; on failure capture one Sentry event describing the activity and
 * its workflow, then rethrow the same exception.
 */
module SentryActivityInbound {
  import opened Wrappers
  import opened Definitions
  import opened Effects
  import opened SentryEvents

  /** What `Activity::getInfo()` supplies. */
  datatype ActivityInfo = ActivityInfo(
    id: string,
    typeName: string,
    taskQueue: string,
    workflowNamespace: string,
    workflowType: Option<string>,
    workflowId: Option<string>)

  function NullableStr(s: Option<string>): Value {
    if s.Some? then Str(s.value) else Null
  }

  /** The event captured for a failed activity. */
  function ActivityEvent(e: Failure, info: ActivityInfo, input: ActivityInput): Event {
    ExceptionEvent(e).(contexts := [
      ("Activity", [("Id", Str(info.id)), ("Type", Str(info.typeName)), ("TaskQueue", Str(info.taskQueue)),
                    ("Headers", Dict(input.header))]),
      ("Workflow", [("Namespace", Str(info.workflowNamespace)), ("Type", NullableStr(info.workflowType)),
                    ("Id", NullableStr(info.workflowId))])])
  }

  /**
   * `handleActivityInbound`: `next` once; a failure is reported and rethrown,
   * unless the report itself throws, whose failure then leaves instead.
   */
  method HandleActivityInbound<R>(input: ActivityInput, next: ActivityInput -> Outcome<R>, info: ActivityInfo, hub: Hub)
    returns (calls: seq<Call<ActivityInput>>, result: Outcome<R>)
    ensures next(input).Returned? ==> calls == [Next(input)] && result == next(input)
    ensures next(input).Threw? ==>
      var e := next(input).failure;
      && calls == [Next(input), BuildFromException(e)]
           + (if hub.build.None? then [CaptureEvent(ActivityEvent(e, info, input), Hint(e, None))] else [])
      && result == Threw(if hub.Thrown().Some? then hub.Thrown().value else e)
  {
    calls := [Next(input)];
    result := next(input);
    if result.Threw? {
      var e := result.failure;
      calls := calls + [BuildFromException(e)];
      if hub.build.Some? {
        return calls, Threw(hub.build.value);
      }
      var event := ExceptionEvent(e);
      event := event.(contexts := event.contexts + [
        ("Activity", [("Id", Str(info.id)), ("Type", Str(info.typeName)), ("TaskQueue", Str(info.taskQueue)),
                      ("Headers", Dict(input.header))])]);
      event := event.(contexts := event.contexts + [
        ("Workflow", [("Namespace", Str(info.workflowNamespace)), ("Type", NullableStr(info.workflowType)),
                      ("Id", NullableStr(info.workflowId))])]);
      assert event.contexts == ActivityEvent(e, info, input).contexts;
      calls := calls + [CaptureEvent(event, Hint(e, None))];
      if hub.capture.Some? {
        return calls, Threw(hub.capture.value);
      }
    }
  }

  /** The captured event carries the failure itself and both an `Activity` and a `Workflow` context. */
  lemma ActivityEventContents(e: Failure, info: ActivityInfo, input: ActivityInput)
    ensures var event := ActivityEvent(e, info, input);
      && event.exceptions == [(e, StackTrace(e))]
      && HasContext(event, "Activity") && HasContext(event, "Workflow")
      && event.contexts[0].1[3] == ("Headers", Dict(input.header))
  {
    var event := ActivityEvent(e, info, input);
    assert event.contexts[0].0 == "Activity" && event.contexts[1].0 == "Workflow";
  }
}
