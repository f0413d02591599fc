/**
 * `SentryWorkflowPanicInterceptor`: the same gating as the outbound-calls
 * interceptor, but the event carries the workflow input as request data,
 * one `"<position> parameter"` entry per input value, read back with the
 * array type for objects and the any type otherwise.
 */
module SentryWorkflowPanic {
  import opened Wrappers
  import opened Definitions
  import opened Effects
  import opened SentryEvents
  import Php

  /** The `Type` given to `getValue($key, $type)`. */
  datatype ReadType = AnyType | ArrayType

  function ParameterKey(i: nat): string {
    Php.Decimal(i) + " parameter"
  }

  /** `is_object($value)` decides how the value is read back. */
  function TypeFor(v: Value): ReadType {
    if v.Obj? then ArrayType else AnyType
  }

  /**
   * The first position whose read-back throws, or the length when none does.
   * `readBack(i, type)` is `Workflow::getInput()->getValue(i, type)`, which
   * decodes the payload again and may throw a DataConverterException.
   */
  function FirstBadRead(values: seq<Value>, readBack: (nat, ReadType) -> Outcome<Value>, from: nat): (k: nat)
    requires from <= |values|
    ensures from <= k <= |values|
    ensures forall i :: from <= i < k ==> readBack(i, TypeFor(values[i])).Returned?
    ensures k < |values| ==> readBack(k, TypeFor(values[k])).Threw?
    decreases |values| - from
  {
    if from == |values| then from
    else if readBack(from, TypeFor(values[from])).Threw? then from
    else FirstBadRead(values, readBack, from + 1)
  }

  predicate AllRead(values: seq<Value>, readBack: (nat, ReadType) -> Outcome<Value>) {
    forall i :: 0 <= i < |values| ==> readBack(i, TypeFor(values[i])).Returned?
  }

  /** The request map, once every value has been read back. */
  function Request(values: seq<Value>, readBack: (nat, ReadType) -> Outcome<Value>): (r: seq<(string, Value)>)
    requires AllRead(values, readBack)
    ensures |r| == |values|
    ensures forall i :: 0 <= i < |values| ==> r[i] == (ParameterKey(i), readBack(i, TypeFor(values[i])).value)
  {
    seq(|values|, i requires 0 <= i < |values| => (ParameterKey(i), readBack(i, TypeFor(values[i])).value))
  }

  function RequestEvent(e: Failure, info: WorkflowInfo, request: seq<(string, Value)>): Event {
    ExceptionEvent(e).(contexts := [("Workflow", WorkflowContext(info))], request := request)
  }

  /** Whether the decoding part of a report succeeds: `getValues()`, then every `getValue`. */
  predicate Decoded(values: Outcome<seq<Value>>, readBack: (nat, ReadType) -> Outcome<Value>) {
    values.Returned? && AllRead(values.value, readBack)
  }

  /**
   * The failure a report ends with, in the order its calls are made: the
   * stack-trace builder, `getValues()`, the first throwing `getValue`, then
   * the capture.
   */
  function ReportFailure(values: Outcome<seq<Value>>, readBack: (nat, ReadType) -> Outcome<Value>, hub: Hub)
    : Option<Failure>
  {
    if hub.build.Some? then hub.build
    else if values.Threw? then Some(values.failure)
    else
      var k := FirstBadRead(values.value, readBack, 0);
      if k < |values.value| then Some(readBack(k, TypeFor(values.value[k])).failure)
      else hub.capture
  }

  /** The calls of `reportError($e)`: the builder, then the capture unless the builder or the decoding threw. */
  function Report(e: Failure, info: WorkflowInfo, values: Outcome<seq<Value>>,
                  readBack: (nat, ReadType) -> Outcome<Value>, hub: Hub): seq<Call<WorkflowCallInput>>
  {
    [BuildFromException(e)]
      + (if hub.build.None? && Decoded(values, readBack) then
           [CaptureEvent(RequestEvent(e, info, Request(values.value, readBack)), Hint(e, Some(StackTrace(e))))]
         else [])
  }

  /** A report only for a failure, then `next`, which a report that throws never reaches. */
  function Gated(input: WorkflowCallInput, info: WorkflowInfo, values: Outcome<seq<Value>>,
                 readBack: (nat, ReadType) -> Outcome<Value>, hub: Hub): seq<Call<WorkflowCallInput>>
  {
    if input.failure.None? then [Next(input)]
    else (Report(input.failure.value, info, values, readBack, hub)
          + (if ReportFailure(values, readBack, hub).None? then [Next(input)] else []))
  }

  /** What `panic` and `complete` end with: the report's failure, else what `next` gives. */
  function GatedResult<R>(input: WorkflowCallInput, values: Outcome<seq<Value>>,
                          readBack: (nat, ReadType) -> Outcome<Value>, hub: Hub,
                          next: WorkflowCallInput -> Outcome<R>): Outcome<R>
  {
    var thrown := ReportFailure(values, readBack, hub);
    if input.failure.Some? && thrown.Some? then Threw(thrown.value) else next(input)
  }

  /** `reportError`: the request map is filled key by key in the loop. */
  method ReportError(e: Failure, info: WorkflowInfo, values: Outcome<seq<Value>>,
                     readBack: (nat, ReadType) -> Outcome<Value>, hub: Hub)
    returns (calls: seq<Call<WorkflowCallInput>>, thrown: Option<Failure>)
    ensures calls == Report(e, info, values, readBack, hub) && thrown == ReportFailure(values, readBack, hub)
  {
    calls := [BuildFromException(e)];
    if hub.build.Some? {
      return calls, hub.build;
    }
    var event := ExceptionEvent(e).(contexts := [("Workflow", WorkflowContext(info))]);
    if values.Threw? {
      return calls, Some(values.failure);
    }
    var vs := values.value;
    var request: seq<(string, Value)> := [];
    var key := 0;
    while key < |vs|
      invariant 0 <= key <= |vs|
      invariant forall i :: 0 <= i < key ==> readBack(i, TypeFor(vs[i])).Returned?
      invariant |request| == key
      invariant forall i :: 0 <= i < key ==> request[i] == (ParameterKey(i), readBack(i, TypeFor(vs[i])).value)
    {
      var value := vs[key];
      var t := AnyType;
      if value.Obj? {
        t := ArrayType;
      }
      var read := readBack(key, t);
      if read.Threw? {
        assert FirstBadRead(vs, readBack, 0) == key;
        return calls, Some(read.failure);
      }
      request := request + [(ParameterKey(key), read.value)];
      key := key + 1;
    }
    assert request == Request(vs, readBack);
    event := event.(request := request);
    calls := calls + [CaptureEvent(event, Hint(e, Some(StackTrace(e))))];
    thrown := hub.capture;
  }

  method Panic<R>(input: WorkflowCallInput, info: WorkflowInfo, values: Outcome<seq<Value>>,
                  readBack: (nat, ReadType) -> Outcome<Value>, hub: Hub, next: WorkflowCallInput -> Outcome<R>)
    returns (calls: seq<Call<WorkflowCallInput>>, result: Outcome<R>)
    ensures calls == Gated(input, info, values, readBack, hub)
    ensures result == GatedResult(input, values, readBack, hub, next)
  {
    if input.failure == None {
      return [Next(input)], next(input);
    }
    var thrown;
    calls, thrown := ReportError(input.failure.value, info, values, readBack, hub);
    if thrown.Some? {
      return calls, Threw(thrown.value);
    }
    calls := calls + [Next(input)];
    result := next(input);
  }

  method Complete<R>(input: WorkflowCallInput, info: WorkflowInfo, values: Outcome<seq<Value>>,
                     readBack: (nat, ReadType) -> Outcome<Value>, hub: Hub, next: WorkflowCallInput -> Outcome<R>)
    returns (calls: seq<Call<WorkflowCallInput>>, result: Outcome<R>)
    ensures calls == Gated(input, info, values, readBack, hub)
    ensures result == GatedResult(input, values, readBack, hub, next)
  {
    if input.failure == None {
      return [Next(input)], next(input);
    }
    var thrown;
    calls, thrown := ReportError(input.failure.value, info, values, readBack, hub);
    if thrown.Some? {
      return calls, Threw(thrown.value);
    }
    calls := calls + [Next(input)];
    result := next(input);
  }

  /** One request entry per input value, under pairwise different keys, objects read back as arrays. */
  lemma RequestKeys(values: seq<Value>, readBack: (nat, ReadType) -> Outcome<Value>)
    requires AllRead(values, readBack)
    ensures var r := Request(values, readBack);
      && |r| == |values|
      && (forall i, j :: 0 <= i < j < |r| ==> r[i].0 != r[j].0)
      && (forall i :: 0 <= i < |r| ==> r[i].1 == readBack(i, if values[i].Obj? then ArrayType else AnyType).value)
  {
    var r := Request(values, readBack);
    forall i, j | 0 <= i < j < |r| ensures r[i].0 != r[j].0 {
      Php.DecimalInjective(i, j);
      SameSuffix(Php.Decimal(i), Php.Decimal(j), " parameter");
    }
  }

  lemma SameSuffix(a: string, b: string, suffix: string)
    ensures a + suffix == b + suffix ==> a == b
  {
    if a + suffix == b + suffix {
      assert a == (a + suffix)[..|a|];
      assert b == (b + suffix)[..|b|];
    }
  }

  /**
   * Without a failure nothing is reported and `next` decides the result.
   * With one, at most one event is captured, carrying the request map;
   * `next` runs, last, exactly when the report did not throw, and otherwise
   * the report's failure is the result. A decoding failure (of `getValues()`
   * or of any `getValue`) ends the report before the capture.
   */
  lemma GatedReportsOnce<R>(input: WorkflowCallInput, info: WorkflowInfo, values: Outcome<seq<Value>>,
                            readBack: (nat, ReadType) -> Outcome<Value>, hub: Hub,
                            next: WorkflowCallInput -> Outcome<R>)
    ensures var calls := Gated(input, info, values, readBack, hub);
      var thrown := ReportFailure(values, readBack, hub);
      && (Next(input) in calls <==> input.failure.None? || thrown.None?)
      && (Next(input) in calls ==> calls[|calls| - 1] == Next(input)
                                   && GatedResult(input, values, readBack, hub, next) == next(input))
      && (Next(input) !in calls ==> GatedResult(input, values, readBack, hub, next) == Threw(thrown.value))
      && (input.failure.None? ==> calls == [Next(input)])
      && (input.failure.Some? ==> calls[0] == BuildFromException(input.failure.value))
      && (input.failure.Some? && (hub.build.Some? || !Decoded(values, readBack)) ==>
            calls == [BuildFromException(input.failure.value)])
      && (hub.build.None? && values.Threw? ==> thrown == Some(values.failure))
      && (hub.build.None? && values.Returned? && !AllRead(values.value, readBack) ==>
            var k := FirstBadRead(values.value, readBack, 0);
            k < |values.value| && thrown == Some(readBack(k, TypeFor(values.value[k])).failure))
      && (input.failure.Some? && hub.build.None? && Decoded(values, readBack) ==>
            && calls[1].CaptureEvent? && calls[1].event.request == Request(values.value, readBack)
            && calls[1].event.exceptions == [(input.failure.value, StackTrace(input.failure.value))]
            && (forall k :: 0 <= k < |calls| && k != 1 ==> !calls[k].CaptureEvent?))
  {
  }
}
