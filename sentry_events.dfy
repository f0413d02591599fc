/**
 * The Sentry event the interceptors build: the exception with its stack
 * trace, named contexts, extra data and request data, plus the hint that
 * goes with it to `captureEvent`.
 */
module SentryEvents {
  import opened Wrappers
  import opened Definitions
  import opened Effects

  /** `stacktraceBuilder->buildFromException($e)`; its frames are not part of this model. */
  datatype StackTrace = StackTrace(of: Failure)

  datatype Event = Event(
    exceptions: seq<(Failure, StackTrace)>,
    contexts: seq<(string, seq<(string, Value)>)>,
    extra: seq<(string, Value)>,
    request: seq<(string, Value)>)

  /** `EventHint::fromArray(...)`: the exception, and the stack trace when it is passed. */
  datatype Hint = Hint(exception: Failure, stackTrace: Option<StackTrace>)

  /** `Event::createEvent()` with `setExceptions([new ExceptionDataBag($e, $stackTrace)])`. */
  function ExceptionEvent(e: Failure): Event {
    Event([(e, StackTrace(e))], [], [], [])
  }

  /**
   * What the Sentry collaborators throw, if anything: `build` for
   * `stacktraceBuilder->buildFromException`, `capture` for `hub->captureEvent`.
   * Neither call sits inside a `try`, so a failure there leaves the interceptor.
   */
  datatype Hub = Hub(build: Option<Failure>, capture: Option<Failure>)
  {
    /** The failure a report ends with: the first of its two calls that throws. */
    function Thrown(): Option<Failure> {
      if build.Some? then build else capture
    }
  }

  /** The calls a report makes: build the stack trace, then capture the event once. */
  datatype Call<I> =
    | BuildFromException(e: Failure)
    | CaptureEvent(event: Event, hint: Hint)
    | Next(input: I)

  /** What `Workflow::getInfo()` supplies. */
  datatype WorkflowInfo = WorkflowInfo(id: string, typeName: string, namespace: string, taskQueue: string)

  /** The `Workflow` context of the workflow interceptors' events. */
  function WorkflowContext(info: WorkflowInfo): seq<(string, Value)> {
    [("Id", Str(info.id)), ("Type", Str(info.typeName)), ("Namespace", Str(info.namespace)), ("TaskQueue", Str(info.taskQueue))]
  }

  predicate HasContext(event: Event, name: string) {
    exists k :: 0 <= k < |event.contexts| && event.contexts[k].0 == name
  }
}
