/**
 * The workflow compiler pass: registers the worker factory, one worker per
 * configured worker (with its options chain, its workflows and activities and
 * its finalizer chain), the runtime, the three debug commands and the
 * collector arguments, and finally removes every definition tagged
 * `temporal.workflow`.
 */
module WorkflowPass {
  import opened Wrappers
  import opened Definitions
  import opened Container
  import Php
  import opened Configuration

  // ----------------------------------------------------------- identifiers

  const WorkflowTag := "temporal.workflow"
  const ActivityTag := "temporal.activity"
  const FactoryId := "temporal.worker_factory"
  const RuntimeId := "temporal.runtime"
  const CollectorId := "temporal.collector"
  const WorkerDebugId := "temporal.worker_debug.command"
  const WorkflowDebugId := "temporal.workflow_debug.command"
  const ActivityDebugId := "temporal.activity_debug.command"

  const WorkerFactoryInterface := "Temporal\\Worker\\WorkerFactoryInterface"
  const GoridgeClass := "Temporal\\Worker\\Transport\\Goridge"
  const RoadRunnerEnvironmentClass := "Spiral\\RoadRunner\\Environment"
  const EnvironmentClass := "Vanta\\Integration\\Symfony\\Temporal\\Environment"
  const WorkerOptionsClass := "Temporal\\Worker\\WorkerOptions"
  const WorkerInterface := "Temporal\\Worker\\WorkerInterface"
  const PipelineProviderClass := "Temporal\\Interceptor\\SimplePipelineProvider"
  const ChainFinalizerClass := "Vanta\\Integration\\Symfony\\Temporal\\Finalizer\\ChainFinalizer"
  const RuntimeClass := "Vanta\\Integration\\Symfony\\Temporal\\Runtime\\Runtime"
  const WorkerDebugClass := "Vanta\\Integration\\Symfony\\Temporal\\UI\\Cli\\WorkerDebugCommand"
  const WorkflowDebugClass := "Vanta\\Integration\\Symfony\\Temporal\\UI\\Cli\\WorkflowDebugCommand"
  const ActivityDebugClass := "Vanta\\Integration\\Symfony\\Temporal\\UI\\Cli\\ActivityDebugCommand"
  const ClosureClass := "Closure"

  function WorkerId(name: string): string {
    "temporal." + name + ".worker"
  }

  function ChainId(name: string): string {
    "temporal." + name + ".worker.finalizer"
  }

  // -------------------------------------------------------- tagged services

  /**
   * One entry of `findTaggedServiceIds($tag)`: the service id, the class of
   * its definition, the tag attributes as reported, and
   * `$attributes[0]['workers'] ?? null`.
   */
  datatype TaggedService = TaggedService(
    id: string,
    className: Option<string>,
    attributes: Value,
    workers: Option<seq<string>>)

  /** `$class == null`: a null or empty class skips the service. */
  predicate Skipped(s: TaggedService) {
    NullishString(s.className)
  }

  /** `$workerNames == null`: null and [] both mean "no worker named". */
  predicate NoAffinity(s: TaggedService) {
    s.workers == None || s.workers == Some([])
  }

  /** Whether the worker `name` receives the service. */
  predicate Serves(name: string, s: TaggedService) {
    !Skipped(s) && (NoAffinity(s) || name in s.workers.value)
  }

  datatype Kind = WorkflowKind | ActivityKind

  /** `registerWorkflowTypes($class)` or `registerActivity($class, closure of $id)`. */
  function ServiceCall(kind: Kind, s: TaggedService): MethodCall
    requires !Skipped(s)
  {
    match kind
    case WorkflowKind => MethodCall("registerWorkflowTypes", [Str(s.className.value)], false)
    case ActivityKind => MethodCall("registerActivity", [Str(s.className.value), ServiceClosure(s.id)], false)
  }

  /** The calls one worker receives from one service list, in list order. */
  function Assigned(kind: Kind, name: string, services: seq<TaggedService>): seq<MethodCall>
  {
    if services == [] then []
    else
      var last := services[|services| - 1];
      Assigned(kind, name, services[..|services| - 1]) + (if Serves(name, last) then [ServiceCall(kind, last)] else [])
  }

  predicate CallOfServing(kind: Kind, name: string, services: seq<TaggedService>, call: MethodCall) {
    exists i :: 0 <= i < |services| && Serves(name, services[i]) && call == ServiceCall(kind, services[i])
  }

  /**
   * A worker receives a call for exactly the services that serve it: a
   * no-affinity service reaches every worker, a service with a worker list
   * only the workers it names, a service without a class none.
   */
  lemma {:induction false} AssignedMembers(kind: Kind, name: string, services: seq<TaggedService>)
    ensures |Assigned(kind, name, services)| <= |services|
    ensures forall k :: 0 <= k < |Assigned(kind, name, services)| ==>
      CallOfServing(kind, name, services, Assigned(kind, name, services)[k])
    ensures forall i :: 0 <= i < |services| && Serves(name, services[i]) ==>
      ServiceCall(kind, services[i]) in Assigned(kind, name, services)
  {
    if services != [] {
      var init := services[..|services| - 1];
      var r := Assigned(kind, name, services);
      AssignedMembers(kind, name, init);
      assert forall i :: 0 <= i < |init| ==> init[i] == services[i];
      forall k | 0 <= k < |r|
        ensures CallOfServing(kind, name, services, r[k])
      {
        if k < |Assigned(kind, name, init)| {
          var i :| 0 <= i < |init| && Serves(name, init[i]) && r[k] == ServiceCall(kind, init[i]);
          assert init[i] == services[i];
        } else {
          var last := services[|services| - 1];
          assert Serves(name, last) && r[k] == ServiceCall(kind, last);
        }
      }
    }
  }

  /** The classes of the services no worker is named for, in list order. */
  function Unassigned(services: seq<TaggedService>): seq<string>
  {
    if services == [] then []
    else
      var last := services[|services| - 1];
      Unassigned(services[..|services| - 1]) + (if !Skipped(last) && NoAffinity(last) then [last.className.value] else [])
  }

  /** `c` is the class of a service of the list that has a class and no worker list. */
  predicate UnassignedClass(services: seq<TaggedService>, c: string) {
    exists i :: 0 <= i < |services| && !Skipped(services[i]) && NoAffinity(services[i]) && c == services[i].className.value
  }

  /** The no-affinity list holds exactly the classes of the services with a class and no worker list. */
  lemma {:induction false} UnassignedMembers(services: seq<TaggedService>)
    ensures |Unassigned(services)| <= |services|
    ensures forall k :: 0 <= k < |Unassigned(services)| ==> UnassignedClass(services, Unassigned(services)[k])
    ensures forall i :: 0 <= i < |services| && !Skipped(services[i]) && NoAffinity(services[i]) ==>
      services[i].className.value in Unassigned(services)
  {
    if services != [] {
      var init := services[..|services| - 1];
      var last := services[|services| - 1];
      var u := Unassigned(init);
      var r := Unassigned(services);
      UnassignedMembers(init);
      assert r == u + (if !Skipped(last) && NoAffinity(last) then [last.className.value] else []);
      forall k | 0 <= k < |r|
        ensures UnassignedClass(services, r[k])
      {
        if k < |u| {
          assert r[k] == u[k];
          assert UnassignedClass(init, u[k]);
          var i :| 0 <= i < |init| && !Skipped(init[i]) && NoAffinity(init[i]) && u[k] == init[i].className.value;
          assert init[i] == services[i];
        } else {
          assert r[k] == last.className.value;
          assert services[|services| - 1] == last;
        }
      }
      forall i | 0 <= i < |services| && !Skipped(services[i]) && NoAffinity(services[i])
        ensures services[i].className.value in r
      {
        if i < |init| {
          assert init[i] == services[i];
        }
      }
    }
  }

  /** The no-affinity list after `n` workers: appended once per worker. */
  function Repeat(u: seq<string>, n: nat): (r: seq<string>)
    ensures |r| == n * |u|
    ensures forall k :: 0 <= k < |r| ==> r[k] in u
  {
    if n == 0 then []
    else
      var r := Repeat(u, n - 1) + u;
      assert |r| == (n - 1) * |u| + |u| == n * |u|;
      r
  }

  /** What `findTaggedServiceIds` hands the collector: id to attributes. */
  function TaggedMap(services: seq<TaggedService>): (r: seq<(string, Value)>)
    ensures |r| == |services| && forall i :: 0 <= i < |r| ==> r[i] == (services[i].id, services[i].attributes)
  {
    if services == [] then []
    else TaggedMap(services[..|services| - 1]) + [(services[|services| - 1].id, services[|services| - 1].attributes)]
  }

  // --------------------------------------------------------- worker options

  predicate IsIntervalKey(key: string) {
    Php.EndsWith(key, "Timeout") || Php.EndsWith(key, "Interval")
  }

  function OptionMethod(key: string): string {
    "with" + Php.Ucfirst(key)
  }

  /**
   * The call one resolved worker key adds to the options chain;
   * `hasMethod` stands for `method_exists(WorkerOptions::class, $method)`.
   */
  function OptionCall(key: string, value: Value, hasMethod: string -> bool): (r: Option<MethodCall>)
    ensures r.None? <==> !hasMethod(OptionMethod(key)) || (IsIntervalKey(key) && !value.Str?)
    ensures r.Some? ==> r.value.name == OptionMethod(key) && r.value.returnsClone && |r.value.args| == 1
    ensures r.Some? ==> r.value.args[0] == (if IsIntervalKey(key) then IntervalOf(value.s) else value)
  {
    var name := OptionMethod(key);
    if !hasMethod(name) then None
    else if IsIntervalKey(key) then
      if value.Str? then Some(MethodCall(name, [IntervalOf(value.s)], true)) else None
    else Some(MethodCall(name, [value], true))
  }

  /** The options chain of a worker: one call per key that has one, in the order of the resolved array. */
  function OptionCalls(entries: seq<(string, Value)>, hasMethod: string -> bool): seq<MethodCall>
  {
    if entries == [] then []
    else
      var last := entries[|entries| - 1];
      var c := OptionCall(last.0, last.1, hasMethod);
      OptionCalls(entries[..|entries| - 1], hasMethod) + (if c.Some? then [c.value] else [])
  }

  /** `call` is the options call of one of the worker's keys. */
  predicate CallOfKey(entries: seq<(string, Value)>, hasMethod: string -> bool, call: MethodCall) {
    exists i :: 0 <= i < |entries| && OptionCall(entries[i].0, entries[i].1, hasMethod) == Some(call)
  }

  /**
   * Every call of the chain is the options call of one of the worker's keys
   * (so it is `with<Key>`, names an existing method, takes one argument and
   * returns a clone).
   */
  lemma {:induction false} OptionCallsSound(entries: seq<(string, Value)>, hasMethod: string -> bool)
    ensures |OptionCalls(entries, hasMethod)| <= |entries|
    ensures forall k :: 0 <= k < |OptionCalls(entries, hasMethod)| ==>
      CallOfKey(entries, hasMethod, OptionCalls(entries, hasMethod)[k])
  {
    if entries != [] {
      var init := entries[..|entries| - 1];
      var r := OptionCalls(entries, hasMethod);
      OptionCallsSound(init, hasMethod);
      forall k | 0 <= k < |r|
        ensures CallOfKey(entries, hasMethod, r[k])
      {
        if k < |OptionCalls(init, hasMethod)| {
          var i :| 0 <= i < |init| && OptionCall(init[i].0, init[i].1, hasMethod) == Some(r[k]);
          assert init[i] == entries[i];
        } else {
          var last := entries[|entries| - 1];
          assert OptionCall(last.0, last.1, hasMethod) == Some(r[k]);
        }
      }
    }
  }

  /** Every key that has an options call contributes it to the chain. */
  lemma {:induction false} OptionCallsComplete(entries: seq<(string, Value)>, hasMethod: string -> bool)
    ensures forall i :: 0 <= i < |entries| && OptionCall(entries[i].0, entries[i].1, hasMethod).Some? ==>
      OptionCall(entries[i].0, entries[i].1, hasMethod).value in OptionCalls(entries, hasMethod)
  {
    if entries != [] {
      var init := entries[..|entries| - 1];
      OptionCallsComplete(init, hasMethod);
      assert forall i :: 0 <= i < |init| ==> init[i] == entries[i];
    }
  }

  /** The chain of two arrays laid end to end is the chain of the first, then the chain of the second. */
  lemma {:induction false} OptionCallsAppend(a: seq<(string, Value)>, b: seq<(string, Value)>, hasMethod: string -> bool)
    ensures OptionCalls(a + b, hasMethod) == OptionCalls(a, hasMethod) + OptionCalls(b, hasMethod)
    decreases |b|
  {
    if b != [] {
      var init := b[..|b| - 1];
      assert (a + b)[..|a + b| - 1] == a + init;
      assert (a + b)[|a + b| - 1] == b[|b| - 1];
      OptionCallsAppend(a, init, hasMethod);
    } else {
      assert a + b == a;
    }
  }

  /**
   * The options chain of an accepted worker follows its resolved array: first
   * the calls of the keys as written, in the order written, then the calls of
   * the defaulted keys, in tree order.
   */
  lemma ResolvedOptionsOrder(raw: RawWorker, parse: string -> IntervalParse, hasMethod: string -> bool)
    requires WorkerRulesHold(raw, parse)
    ensures OptionsDefinition(ResolveWorker(raw, parse).value, hasMethod).calls
      == OptionCalls(raw.entries, hasMethod) + OptionCalls(MissingDefaults(WorkerChildren, raw.entries), hasMethod)
  {
    OptionCallsAppend(raw.entries, MissingDefaults(WorkerChildren, raw.entries), hasMethod);
  }

  function OptionsBase(): Definition {
    NewDefinition(Some(WorkerOptionsClass), []).WithFactory(Str(WorkerOptionsClass), "new")
  }

  function OptionsDefinition(w: Worker, hasMethod: string -> bool): Definition {
    OptionsBase().(calls := OptionCalls(Entries(w), hasMethod))
  }

  /** The inner loop over the resolved worker array. */
  method BuildOptions(w: Worker, hasMethod: string -> bool) returns (options: Definition)
    ensures options == OptionsDefinition(w, hasMethod)
  {
    var entries := Entries(w);
    options := OptionsBase();
    var i := 0;
    while i < |entries|
      invariant 0 <= i <= |entries|
      invariant options == OptionsBase().(calls := OptionCalls(entries[..i], hasMethod))
    {
      var (option, value) := entries[i];
      var name := OptionMethod(option);
      assert entries[..i + 1][..i] == entries[..i];
      if !hasMethod(name) {
        i := i + 1;
        continue;
      }
      if IsIntervalKey(option) {
        if !value.Str? {
          i := i + 1;
          continue;
        }
        value := IntervalOf(value.s);
      }
      options := options.AddCall(MethodCall(name, [value], true));
      i := i + 1;
    }
    assert entries[..i] == entries;
  }

  // ------------------------------------------------------------ definitions

  /** An absent `pool.roadrunnerRPC` reads as null and is passed on as such. */
  function EnvironmentDefinition(cfg: Config): Definition {
    var rpc := if cfg.pool.roadrunnerRPC.Some? then Str(cfg.pool.roadrunnerRPC.value) else Null;
    NewDefinition(Some(RoadRunnerEnvironmentClass), [Dict([("RR_RPC", rpc)])])
      .WithFactory(Str(EnvironmentClass), "create")
  }

  /**
   * The pass reads `pool.dataConverter` into `new Reference(...)`, whose id
   * parameter is a non-nullable string: an absent setting throws a TypeError
   * before anything is registered.
   */
  predicate ConverterGiven(cfg: Config) {
    cfg.pool.dataConverter.Some?
  }

  /** `temporal.worker_factory`: the configured factory class's `create`. */
  function FactoryDefinition(cfg: Config): Definition
    requires ConverterGiven(cfg)
  {
    Registered(WorkerFactoryInterface)
      .WithFactory(Str(cfg.workerFactory), "create")
      .WithArgs([
        Ref(cfg.pool.dataConverter.value),
        Inline(NewDefinition(Some(GoridgeClass), [Inline(EnvironmentDefinition(cfg))]).WithFactory(Str(GoridgeClass), "create"))])
      .Public()
  }

  function PipelineDefinition(w: Worker): Definition {
    NewDefinition(Some(PipelineProviderClass), [List(Refs(w.interceptors))])
  }

  /** A worker as first registered, around a given options definition. */
  function WorkerShell(cfg: Config, w: Worker, options: Definition): Definition
    requires ConverterGiven(cfg)
  {
    Registered(WorkerInterface)
      .WithFactory(Inline(FactoryDefinition(cfg)), "newWorker")
      .WithArgs([Str(w.taskQueue), Inline(options), Ref(w.exceptionInterceptor), Inline(PipelineDefinition(w))])
      .Public()
  }

  /** A worker as first registered, before any workflow, activity or finalizer call. */
  function BaseWorkerDefinition(cfg: Config, w: Worker, hasMethod: string -> bool): Definition
    requires ConverterGiven(cfg)
  {
    WorkerShell(cfg, w, OptionsDefinition(w, hasMethod))
  }

  function ChainDefinition(w: Worker): Definition {
    Registered(ChainFinalizerClass).WithArgs([List(Refs(w.finalizers)), LoggerRef])
  }

  /** `registerActivityFinalizer(Closure::fromCallable([$chain, 'finalize']))`. */
  function FinalizerCall(w: Worker): MethodCall {
    var closure := NewDefinition(Some(ClosureClass), [List([Inline(ChainDefinition(w)), Str("finalize")])])
      .WithFactory(Str(ClosureClass), "fromCallable");
    MethodCall("registerActivityFinalizer", [Inline(closure)], false)
  }

  function FinalizerCalls(w: Worker): seq<MethodCall> {
    if w.finalizers == [] then [] else [FinalizerCall(w)]
  }

  /** A worker's definition once its iteration of the worker loop is over. */
  function WorkerDefinition(cfg: Config, name: string, w: Worker, workflows: seq<TaggedService>,
                            activities: seq<TaggedService>, hasMethod: string -> bool): Definition
    requires ConverterGiven(cfg)
  {
    BaseWorkerDefinition(cfg, w, hasMethod).(calls :=
      Assigned(WorkflowKind, name, workflows) + Assigned(ActivityKind, name, activities) + FinalizerCalls(w))
  }

  /** A configured worker with the definition its iteration of the worker loop builds. */
  datatype WorkerEntry = WorkerEntry(name: string, worker: Worker, def: Definition)

  function WorkerEntries(cfg: Config, workflows: seq<TaggedService>, activities: seq<TaggedService>,
                         hasMethod: string -> bool): seq<WorkerEntry>
    requires ConverterGiven(cfg)
  {
    seq(|cfg.workers|, i requires 0 <= i < |cfg.workers| =>
      WorkerEntry(cfg.workers[i].0, cfg.workers[i].1,
                  WorkerDefinition(cfg, cfg.workers[i].0, cfg.workers[i].1, workflows, activities, hasMethod)))
  }

  predicate DistinctEntryNames(entries: seq<WorkerEntry>) {
    forall i, j :: 0 <= i < j < |entries| ==> entries[i].name != entries[j].name
  }

  /** The container change of one iteration of the worker loop. */
  function WorkerStep(s: Snapshot, e: WorkerEntry): Snapshot {
    var s1 := s.Register(WorkerId(e.name), e.def);
    if e.worker.finalizers == [] then s1 else s1.Register(ChainId(e.name), ChainDefinition(e.worker))
  }

  function WorkersPass(s: Snapshot, entries: seq<WorkerEntry>): Snapshot {
    if entries == [] then s
    else WorkerStep(WorkersPass(s, entries[..|entries| - 1]), entries[|entries| - 1])
  }

  /** `$configuredWorkers`: each worker's name and final definition, in configuration order. */
  function Configured(entries: seq<WorkerEntry>): (r: seq<(string, Definition)>)
    ensures |r| == |entries|
    ensures forall i :: 0 <= i < |r| ==> r[i] == (entries[i].name, entries[i].def)
  {
    if entries == [] then []
    else Configured(entries[..|entries| - 1]) + [(entries[|entries| - 1].name, entries[|entries| - 1].def)]
  }

  function Inlined(configured: seq<(string, Definition)>): (r: seq<(string, Value)>)
    ensures |r| == |configured| && forall i :: 0 <= i < |r| ==> r[i] == (configured[i].0, Inline(configured[i].1))
  {
    if configured == [] then []
    else
      var last := configured[|configured| - 1];
      Inlined(configured[..|configured| - 1]) + [(last.0, Inline(last.1))]
  }

  /** The collector's `$workers`: clones of the workers with a `getOptions` call appended. */
  function OptionsProbes(configured: seq<(string, Definition)>): (r: seq<(string, Value)>)
    ensures |r| == |configured| && forall i :: 0 <= i < |r| ==>
      r[i] == (configured[i].0, Inline(configured[i].1.AddCall(MethodCall("getOptions", [], true))))
  {
    if configured == [] then []
    else
      var last := configured[|configured| - 1];
      OptionsProbes(configured[..|configured| - 1]) + [(last.0, Inline(last.1.AddCall(MethodCall("getOptions", [], true))))]
  }

  function RuntimeDefinition(cfg: Config, configured: seq<(string, Definition)>): Definition
    requires ConverterGiven(cfg)
  {
    Registered(RuntimeClass).WithArgs([Inline(FactoryDefinition(cfg)), Dict(Inlined(configured))]).Public()
  }

  function WorkerDebugDefinition(configured: seq<(string, Definition)>): Definition {
    Registered(WorkerDebugClass)
      .WithNamed("$workers", Dict(Inlined(configured)))
      .AddTag("console.command")
  }

  function WorkflowDebugDefinition(configured: seq<(string, Definition)>, without: seq<string>): Definition {
    Registered(WorkflowDebugClass)
      .WithNamed("$workers", Dict(Inlined(configured)))
      .WithNamed("$workflowsWithoutWorkers", List(StrList(without)))
      .AddTag("console.command")
  }

  function ActivityDebugDefinition(configured: seq<(string, Definition)>, without: seq<string>): Definition {
    Registered(ActivityDebugClass)
      .WithNamed("$workers", Dict(Inlined(configured)))
      .WithNamed("$activitiesWithoutWorkers", List(StrList(without)))
      .AddTag("console.command")
  }

  /** The snapshot with every definition carrying `tag` removed. */
  function WithoutTagged(s: Snapshot, tag: string): Snapshot {
    Snapshot(map id | id in s.definitions && !s.definitions[id].HasTag(tag) :: s.definitions[id], s.aliases)
  }

  /** The removal keeps exactly the untagged definitions, unchanged. */
  lemma WithoutTaggedKeeps(s: Snapshot, tag: string, id: string)
    ensures id in WithoutTagged(s, tag).definitions <==> id in s.definitions && !s.definitions[id].HasTag(tag)
    ensures id in WithoutTagged(s, tag).definitions ==> WithoutTagged(s, tag).definitions[id] == s.definitions[id]
  {
  }

  /** The steps after the worker loop: four registrations, then three collector arguments. */
  function Wiring(s: Snapshot, runtime: Definition, workerDebug: Definition, workflowDebug: Definition,
                  activityDebug: Definition, probes: Value, workflowsArg: Value, activitiesArg: Value): Snapshot
  {
    s.Register(RuntimeId, runtime)
      .Register(WorkerDebugId, workerDebug)
      .Register(WorkflowDebugId, workflowDebug)
      .Register(ActivityDebugId, activityDebug)
      .SetArgument(CollectorId, "$workers", probes)
      .SetArgument(CollectorId, "$workflows", workflowsArg)
      .SetArgument(CollectorId, "$activities", activitiesArg)
  }

  /** The pass up to its final removal loop, around the entries of its worker loop. */
  function Wired(s0: Snapshot, cfg: Config, entries: seq<WorkerEntry>, workflows: seq<TaggedService>,
                 activities: seq<TaggedService>): Snapshot
    requires ConverterGiven(cfg)
  {
    var configured := Configured(entries);
    var n := |entries|;
    Wiring(WorkersPass(s0.Register(FactoryId, FactoryDefinition(cfg)), entries),
           RuntimeDefinition(cfg, configured),
           WorkerDebugDefinition(configured),
           WorkflowDebugDefinition(configured, Repeat(Unassigned(workflows), n)),
           ActivityDebugDefinition(configured, Repeat(Unassigned(activities), n)),
           Dict(OptionsProbes(configured)), Dict(TaggedMap(workflows)), Dict(TaggedMap(activities)))
  }

  function Finished(s0: Snapshot, cfg: Config, entries: seq<WorkerEntry>, workflows: seq<TaggedService>,
                    activities: seq<TaggedService>): Snapshot
    requires ConverterGiven(cfg)
  {
    WithoutTagged(Wired(s0, cfg, entries, workflows, activities), WorkflowTag)
  }

  /** The whole pass as a function of the container it starts from. */
  function ProcessSpec(s0: Snapshot, cfg: Config, workflows: seq<TaggedService>, activities: seq<TaggedService>,
                       hasMethod: string -> bool): Snapshot
    requires ConverterGiven(cfg)
  {
    Finished(s0, cfg, WorkerEntries(cfg, workflows, activities, hasMethod), workflows, activities)
  }

  // ---------------------------------------------------------------- methods

  /** One more service of the list, as the loop sees it. */
  lemma AssignedStep(kind: Kind, name: string, services: seq<TaggedService>, i: nat)
    requires i < |services|
    ensures Assigned(kind, name, services[..i + 1]) == Assigned(kind, name, services[..i])
      + (if Serves(name, services[i]) then [ServiceCall(kind, services[i])] else [])
    ensures Unassigned(services[..i + 1]) == Unassigned(services[..i])
      + (if !Skipped(services[i]) && NoAffinity(services[i]) then [services[i].className.value] else [])
  {
    assert services[..i + 1][..i] == services[..i];
  }

  /**
   * One of the two service loops of one worker iteration, appending to the
   * worker's definition and to the matching no-affinity list.
   */
  method AssignServices(worker: Definition, kind: Kind, name: string, services: seq<TaggedService>,
                        without: seq<string>) returns (worker': Definition, without': seq<string>)
    ensures worker' == worker.(calls := worker.calls + Assigned(kind, name, services))
    ensures without' == without + Unassigned(services)
  {
    worker', without' := worker, without;
    var i := 0;
    while i < |services|
      invariant 0 <= i <= |services|
      invariant worker' == worker.(calls := worker'.calls)
      invariant worker'.calls == worker.calls + Assigned(kind, name, services[..i])
      invariant without' == without + Unassigned(services[..i])
    {
      var s := services[i];
      AssignedStep(kind, name, services, i);
      if !NullishString(s.className) {             // `$class == null` skips the service
        if NoAffinity(s) {
          without' := without' + [s.className.value];
        }
        if NoAffinity(s) || name in s.workers.value {
          worker' := worker'.AddCall(ServiceCall(kind, s));
        }
      }
      i := i + 1;
    }
    assert services[..i] == services;
  }

  /** `registerFinalizers`: nothing for an empty list, else the chain and its closure call. */
  method RegisterFinalizers(c: ContainerBuilder, name: string, w: Worker)
    requires WorkerId(name) in c.definitions
    modifies c
    ensures c.State() == if w.finalizers == [] then old(c.State())
      else old(c.State()).Register(ChainId(name), ChainDefinition(w)).AddMethodCall(WorkerId(name), FinalizerCall(w))
  {
    if w.finalizers == [] {
      return;
    }
    c.Register(ChainId(name), ChainDefinition(w));
    c.AddMethodCall(WorkerId(name), FinalizerCall(w));
  }

  lemma WorkerIdNotChainId(a: string, b: string)
    ensures WorkerId(a) != ChainId(b)
  {
    var x, y := WorkerId(a), ChainId(b);
    if |x| == |y| {
      assert x[|x| - 3] == 'k';
      assert y[|y| - 3] == 'z';
    }
  }

  /** Registering a chain between a worker and its closure call does not affect the worker. */
  lemma RegisterChainThenCall(s: Snapshot, workerId: string, d: Definition, chainId: string, chain: Definition, call: MethodCall)
    requires workerId != chainId
    ensures s.Register(workerId, d).Register(chainId, chain).AddMethodCall(workerId, call)
         == s.Register(workerId, d.AddCall(call)).Register(chainId, chain)
  {
  }

  /** The worker definition up to its finalizer call, and the two no-affinity lists. */
  method BuildWorker(cfg: Config, name: string, w: Worker, workflows: seq<TaggedService>,
                     activities: seq<TaggedService>, hasMethod: string -> bool,
                     workflowsWithout: seq<string>, activitiesWithout: seq<string>)
    returns (worker: Definition, workflowsWithout': seq<string>, activitiesWithout': seq<string>)
    requires ConverterGiven(cfg)
    ensures worker == BaseWorkerDefinition(cfg, w, hasMethod).(calls :=
      Assigned(WorkflowKind, name, workflows) + Assigned(ActivityKind, name, activities))
    ensures workflowsWithout' == workflowsWithout + Unassigned(workflows)
    ensures activitiesWithout' == activitiesWithout + Unassigned(activities)
  {
    var options := BuildOptions(w, hasMethod);
    worker := WorkerShell(cfg, w, options);
    ghost var base := BaseWorkerDefinition(cfg, w, hasMethod);
    ghost var a, b := Assigned(WorkflowKind, name, workflows), Assigned(ActivityKind, name, activities);
    assert worker == base && base.calls == [];
    worker, workflowsWithout' := AssignServices(worker, WorkflowKind, name, workflows, workflowsWithout);
    assert [] + a == a;
    assert worker == base.(calls := a);
    worker, activitiesWithout' := AssignServices(worker, ActivityKind, name, activities, activitiesWithout);
  }

  /** One iteration of the worker loop. */
  method ProcessWorker(c: ContainerBuilder, cfg: Config, name: string, w: Worker, workflows: seq<TaggedService>,
                       activities: seq<TaggedService>, hasMethod: string -> bool,
                       workflowsWithout: seq<string>, activitiesWithout: seq<string>)
    returns (worker: Definition, workflowsWithout': seq<string>, activitiesWithout': seq<string>)
    requires ConverterGiven(cfg)
    modifies c
    ensures worker == WorkerDefinition(cfg, name, w, workflows, activities, hasMethod)
    ensures c.State() == WorkerStep(old(c.State()), WorkerEntry(name, w, worker))
    ensures workflowsWithout' == workflowsWithout + Unassigned(workflows)
    ensures activitiesWithout' == activitiesWithout + Unassigned(activities)
  {
    worker, workflowsWithout', activitiesWithout' :=
      BuildWorker(cfg, name, w, workflows, activities, hasMethod, workflowsWithout, activitiesWithout);
    ghost var s0 := old(c.State());
    c.Register(WorkerId(name), worker);
    RegisterFinalizers(c, name, w);
    if w.finalizers != [] {
      WorkerIdNotChainId(name, name);
      RegisterChainThenCall(s0, WorkerId(name), worker, ChainId(name), ChainDefinition(w), FinalizerCall(w));
      worker := worker.AddCall(FinalizerCall(w));
    } else {
      assert worker.calls + FinalizerCalls(w) == worker.calls;
    }
  }

  /** The final loop: every definition tagged `temporal.workflow` is removed. */
  method RemoveWorkflowDefinitions(c: ContainerBuilder)
    modifies c
    ensures c.State() == WithoutTagged(old(c.State()), WorkflowTag)
  {
    var tagged := c.State().TaggedIds(WorkflowTag);
    ghost var d0 := c.definitions;
    var todo := tagged;
    while todo != {}
      invariant todo <= tagged
      invariant c.aliases == old(c.aliases)
      invariant forall id :: id in c.definitions <==> id in d0 && (id !in tagged || id in todo)
      invariant forall id :: id in c.definitions ==> c.definitions[id] == d0[id]
      decreases |todo|
    {
      var id :| id in todo;
      c.RemoveDefinition(id);
      todo := todo - {id};
    }
    assert c.definitions == WithoutTagged(old(c.State()), WorkflowTag).definitions;
  }

  /** One more worker, as the worker loop sees it. */
  lemma WorkersPassStep(s: Snapshot, entries: seq<WorkerEntry>, i: nat)
    requires i < |entries|
    ensures WorkersPass(s, entries[..i + 1]) == WorkerStep(WorkersPass(s, entries[..i]), entries[i])
    ensures Configured(entries[..i + 1]) == Configured(entries[..i]) + [(entries[i].name, entries[i].def)]
  {
    assert entries[..i + 1][..i] == entries[..i];
  }

  /** The worker loop only adds definitions. */
  lemma {:induction false} WorkersPassKeeps(s: Snapshot, entries: seq<WorkerEntry>)
    ensures s.definitions.Keys <= WorkersPass(s, entries).definitions.Keys
  {
    if entries != [] {
      WorkersPassKeeps(s, entries[..|entries| - 1]);
    }
  }

  /** The worker loop of the pass, with the two no-affinity lists it fills. */
  method RegisterWorkers(c: ContainerBuilder, cfg: Config, workflows: seq<TaggedService>,
                         activities: seq<TaggedService>, hasMethod: string -> bool)
    returns (configured: seq<(string, Definition)>, workflowsWithout: seq<string>, activitiesWithout: seq<string>)
    requires ConverterGiven(cfg)
    modifies c
    ensures c.State() == WorkersPass(old(c.State()), WorkerEntries(cfg, workflows, activities, hasMethod))
    ensures old(c.definitions).Keys <= c.definitions.Keys
    ensures configured == Configured(WorkerEntries(cfg, workflows, activities, hasMethod))
    ensures workflowsWithout == Repeat(Unassigned(workflows), |cfg.workers|)
    ensures activitiesWithout == Repeat(Unassigned(activities), |cfg.workers|)
  {
    ghost var entries := WorkerEntries(cfg, workflows, activities, hasMethod);
    configured, workflowsWithout, activitiesWithout := [], [], [];
    var i := 0;
    while i < |cfg.workers|
      invariant 0 <= i <= |cfg.workers|
      invariant c.State() == WorkersPass(old(c.State()), entries[..i])
      invariant configured == Configured(entries[..i])
      invariant workflowsWithout == Repeat(Unassigned(workflows), i)
      invariant activitiesWithout == Repeat(Unassigned(activities), i)
    {
      var (name, w) := cfg.workers[i];
      WorkersPassStep(old(c.State()), entries, i);
      var worker;
      worker, workflowsWithout, activitiesWithout :=
        ProcessWorker(c, cfg, name, w, workflows, activities, hasMethod, workflowsWithout, activitiesWithout);
      assert WorkerEntry(name, w, worker) == entries[i];
      configured := configured + [(name, worker)];
      i := i + 1;
    }
    assert entries[..i] == entries;
    WorkersPassKeeps(old(c.State()), entries);
  }

  /** The pass. `temporal.collector` must be registered: `getDefinition` fails otherwise. */
  method Process(c: ContainerBuilder, cfg: Config, workflows: seq<TaggedService>, activities: seq<TaggedService>,
                 hasMethod: string -> bool)
    requires ConverterGiven(cfg)
    requires CollectorId in c.definitions
    modifies c
    ensures c.State() == ProcessSpec(old(c.State()), cfg, workflows, activities, hasMethod)
  {
    var factory := FactoryDefinition(cfg);
    c.Register(FactoryId, factory);
    var configured, workflowsWithout, activitiesWithout := RegisterWorkers(c, cfg, workflows, activities, hasMethod);
    c.Register(RuntimeId, RuntimeDefinition(cfg, configured));
    c.Register(WorkerDebugId, WorkerDebugDefinition(configured));
    c.Register(WorkflowDebugId, WorkflowDebugDefinition(configured, workflowsWithout));
    c.Register(ActivityDebugId, ActivityDebugDefinition(configured, activitiesWithout));
    c.SetArgument(CollectorId, "$workers", Dict(OptionsProbes(configured)));
    c.SetArgument(CollectorId, "$workflows", Dict(TaggedMap(workflows)));
    c.SetArgument(CollectorId, "$activities", Dict(TaggedMap(activities)));
    RemoveWorkflowDefinitions(c);
  }

  // ---------------------------------------------------------------- properties

  lemma WorkerIdInjective(a: string, b: string)
    ensures WorkerId(a) == WorkerId(b) ==> a == b
  {
    if WorkerId(a) == WorkerId(b) {
      assert a == WorkerId(a)[9..9 + |a|];
      assert b == WorkerId(b)[9..9 + |b|];
    }
  }

  lemma ChainIdInjective(a: string, b: string)
    ensures ChainId(a) == ChainId(b) ==> a == b
  {
    if ChainId(a) == ChainId(b) {
      assert a == ChainId(a)[9..9 + |a|];
      assert b == ChainId(b)[9..9 + |b|];
    }
  }

  /** The fixed service ids of the pass are neither worker nor chain ids, whatever the worker's name. */
  lemma FixedIdsNotGenerated(n: string)
    ensures FactoryId != WorkerId(n) && FactoryId != ChainId(n)
    ensures RuntimeId != WorkerId(n) && RuntimeId != ChainId(n)
    ensures CollectorId != WorkerId(n) && CollectorId != ChainId(n)
    ensures WorkerDebugId != WorkerId(n) && WorkerDebugId != ChainId(n)
    ensures WorkflowDebugId != WorkerId(n) && WorkflowDebugId != ChainId(n)
    ensures ActivityDebugId != WorkerId(n) && ActivityDebugId != ChainId(n)
  {
    var w, z := WorkerId(n), ChainId(n);
    assert w[|w| - 3] == 'k' && z[|z| - 3] == 'z';
  }

  /** With distinct names, each worker's id holds its own definition after the loop. */
  lemma {:induction false} WorkersPassAt(s: Snapshot, entries: seq<WorkerEntry>, i: nat)
    requires DistinctEntryNames(entries) && i < |entries|
    ensures WorkerId(entries[i].name) in WorkersPass(s, entries).definitions
    ensures WorkersPass(s, entries).definitions[WorkerId(entries[i].name)] == entries[i].def
  {
    var init := entries[..|entries| - 1];
    var last := entries[|entries| - 1];
    WorkerIdNotChainId(entries[i].name, last.name);
    if i < |init| {
      assert init[i] == entries[i];
      WorkersPassAt(s, init, i);
      WorkerIdInjective(entries[i].name, last.name);
    }
  }

  /** Ids the loop does not generate keep what they held before it. */
  lemma {:induction false} WorkersPassFrame(s: Snapshot, entries: seq<WorkerEntry>, id: string)
    requires forall j :: 0 <= j < |entries| ==> id != WorkerId(entries[j].name) && id != ChainId(entries[j].name)
    ensures id in WorkersPass(s, entries).definitions <==> id in s.definitions
    ensures id in s.definitions ==> WorkersPass(s, entries).definitions[id] == s.definitions[id]
  {
    if entries != [] {
      var init := entries[..|entries| - 1];
      assert forall j :: 0 <= j < |init| ==> init[j] == entries[j];
      WorkersPassFrame(s, init, id);
    }
  }

  /** With distinct names, a worker with finalizers has its chain under its chain id after the loop. */
  lemma {:induction false} WorkersPassChain(s: Snapshot, entries: seq<WorkerEntry>, i: nat)
    requires DistinctEntryNames(entries) && i < |entries| && entries[i].worker.finalizers != []
    ensures ChainId(entries[i].name) in WorkersPass(s, entries).definitions
    ensures WorkersPass(s, entries).definitions[ChainId(entries[i].name)] == ChainDefinition(entries[i].worker)
  {
    var init := entries[..|entries| - 1];
    var last := entries[|entries| - 1];
    WorkerIdNotChainId(last.name, entries[i].name);
    if i < |init| {
      assert init[i] == entries[i];
      WorkersPassChain(s, init, i);
      ChainIdInjective(entries[i].name, last.name);
    }
  }

  /** The fields of a worker's final definition. */
  lemma WorkerShape(cfg: Config, name: string, w: Worker, workflows: seq<TaggedService>,
                    activities: seq<TaggedService>, hasMethod: string -> bool)
    requires ConverterGiven(cfg)
    ensures var d := WorkerDefinition(cfg, name, w, workflows, activities, hasMethod);
      && d.className == Some(WorkerInterface)
      && d.factory == Some(Factory(Inline(FactoryDefinition(cfg)), "newWorker"))
      && d.args == [Str(w.taskQueue), Inline(OptionsDefinition(w, hasMethod)), Ref(w.exceptionInterceptor),
                    Inline(NewDefinition(Some(PipelineProviderClass), [List(Refs(w.interceptors))]))]
      && d.public && !d.HasTag(WorkflowTag)
  {
  }

  /**
   * A worker's `registerActivityFinalizer` call is its last call, and it has
   * one exactly when its finalizer list is not empty.
   */
  lemma FinalizerCallLast(cfg: Config, name: string, w: Worker, workflows: seq<TaggedService>,
                          activities: seq<TaggedService>, hasMethod: string -> bool)
    requires ConverterGiven(cfg)
    ensures var calls := WorkerDefinition(cfg, name, w, workflows, activities, hasMethod).calls;
      forall k :: 0 <= k < |calls| ==>
        (calls[k].name == "registerActivityFinalizer" <==> w.finalizers != [] && k == |calls| - 1)
    ensures var calls := WorkerDefinition(cfg, name, w, workflows, activities, hasMethod).calls;
      w.finalizers != [] ==> |calls| > 0 && calls[|calls| - 1] == FinalizerCall(w)
  {
    var a := Assigned(WorkflowKind, name, workflows);
    var b := Assigned(ActivityKind, name, activities);
    var calls := WorkerDefinition(cfg, name, w, workflows, activities, hasMethod).calls;
    assert calls == a + b + FinalizerCalls(w);
    AssignedMembers(WorkflowKind, name, workflows);
    AssignedMembers(ActivityKind, name, activities);
    forall k | 0 <= k < |a| + |b|
      ensures calls[k].name != "registerActivityFinalizer"
    {
      if k < |a| {
        assert CallOfServing(WorkflowKind, name, workflows, a[k]);
        var i :| 0 <= i < |workflows| && Serves(name, workflows[i]) && a[k] == ServiceCall(WorkflowKind, workflows[i]);
        assert calls[k] == a[k];
      } else {
        assert CallOfServing(ActivityKind, name, activities, b[k - |a|]);
        var i :| 0 <= i < |activities| && Serves(name, activities[i]) && b[k - |a|] == ServiceCall(ActivityKind, activities[i]);
        assert calls[k] == b[k - |a|];
      }
    }
  }

  /** Each entry is the worker of the same position, with the definition its iteration builds. */
  lemma EntriesOfConfig(cfg: Config, workflows: seq<TaggedService>, activities: seq<TaggedService>,
                        hasMethod: string -> bool)
    requires ConverterGiven(cfg)
    ensures var entries := WorkerEntries(cfg, workflows, activities, hasMethod);
      && |entries| == |cfg.workers|
      && (DistinctNames(cfg.workers) ==> DistinctEntryNames(entries))
      && forall i :: 0 <= i < |entries| ==>
           && entries[i].name == cfg.workers[i].0 && entries[i].worker == cfg.workers[i].1
           && entries[i].def == WorkerDefinition(cfg, cfg.workers[i].0, cfg.workers[i].1, workflows, activities, hasMethod)
           && !entries[i].def.HasTag(WorkflowTag)
  {
    var entries := WorkerEntries(cfg, workflows, activities, hasMethod);
    forall i | 0 <= i < |entries|
      ensures !entries[i].def.HasTag(WorkflowTag)
    {
      WorkerShape(cfg, cfg.workers[i].0, cfg.workers[i].1, workflows, activities, hasMethod);
    }
  }

  /** What the steps after the worker loop leave under one id. */
  lemma WiringAt(s: Snapshot, runtime: Definition, workerDebug: Definition, workflowDebug: Definition,
                 activityDebug: Definition, probes: Value, workflowsArg: Value, activitiesArg: Value, id: string)
    ensures var r := Wiring(s, runtime, workerDebug, workflowDebug, activityDebug, probes, workflowsArg, activitiesArg);
      && (id in r.definitions <==> id in s.definitions || id in {RuntimeId, WorkerDebugId, WorkflowDebugId, ActivityDebugId})
      && (id == RuntimeId ==> r.definitions[id] == runtime)
      && (id == WorkerDebugId ==> r.definitions[id] == workerDebug)
      && (id == WorkflowDebugId ==> r.definitions[id] == workflowDebug)
      && (id == ActivityDebugId ==> r.definitions[id] == activityDebug)
      && (id == CollectorId && id in s.definitions ==>
            r.definitions[id] == s.definitions[id]
              .WithNamed("$workers", probes).WithNamed("$workflows", workflowsArg).WithNamed("$activities", activitiesArg))
      && (id !in {RuntimeId, WorkerDebugId, WorkflowDebugId, ActivityDebugId, CollectorId} && id in s.definitions ==>
            r.definitions[id] == s.definitions[id])
  {
  }

  /** What the pass's last steps leave under one id, untagged definitions given. */
  lemma FinalAt(s: Snapshot, runtime: Definition, workerDebug: Definition, workflowDebug: Definition,
                activityDebug: Definition, probes: Value, workflowsArg: Value, activitiesArg: Value, id: string)
    requires !runtime.HasTag(WorkflowTag) && !workerDebug.HasTag(WorkflowTag)
    requires !workflowDebug.HasTag(WorkflowTag) && !activityDebug.HasTag(WorkflowTag)
    ensures var r := WithoutTagged(Wiring(s, runtime, workerDebug, workflowDebug, activityDebug, probes, workflowsArg, activitiesArg), WorkflowTag);
      && (id == RuntimeId ==> id in r.definitions && r.definitions[id] == runtime)
      && (id == WorkerDebugId ==> id in r.definitions && r.definitions[id] == workerDebug)
      && (id == WorkflowDebugId ==> id in r.definitions && r.definitions[id] == workflowDebug)
      && (id == ActivityDebugId ==> id in r.definitions && r.definitions[id] == activityDebug)
      && (id == CollectorId && id in s.definitions && !s.definitions[id].HasTag(WorkflowTag) ==>
            id in r.definitions &&
            r.definitions[id] == s.definitions[id]
              .WithNamed("$workers", probes).WithNamed("$workflows", workflowsArg).WithNamed("$activities", activitiesArg))
      && ((id !in {RuntimeId, WorkerDebugId, WorkflowDebugId, ActivityDebugId, CollectorId} && id in s.definitions
           && !s.definitions[id].HasTag(WorkflowTag)) ==> id in r.definitions && r.definitions[id] == s.definitions[id])
  {
    var w := Wiring(s, runtime, workerDebug, workflowDebug, activityDebug, probes, workflowsArg, activitiesArg);
    WiringAt(s, runtime, workerDebug, workflowDebug, activityDebug, probes, workflowsArg, activitiesArg, id);
    WithoutTaggedKeeps(w, WorkflowTag, id);
    if id == CollectorId && id in s.definitions {
      assert w.definitions[id].tags == s.definitions[id].tags;
    }
  }

  lemma DebugDefinitionsUntagged(cfg: Config, configured: seq<(string, Definition)>, workflowsWithout: seq<string>,
                                 activitiesWithout: seq<string>)
    requires ConverterGiven(cfg)
    ensures !RuntimeDefinition(cfg, configured).HasTag(WorkflowTag)
    ensures !WorkerDebugDefinition(configured).HasTag(WorkflowTag)
    ensures !WorkflowDebugDefinition(configured, workflowsWithout).HasTag(WorkflowTag)
    ensures !ActivityDebugDefinition(configured, activitiesWithout).HasTag(WorkflowTag)
  {
  }

  /**
   * Each worker `<name>` of the loop ends up as `temporal.<name>.worker`,
   * holding the definition its iteration built.
   */
  lemma WorkerRegistered(s0: Snapshot, cfg: Config, entries: seq<WorkerEntry>, workflows: seq<TaggedService>,
                         activities: seq<TaggedService>, i: nat)
    requires ConverterGiven(cfg)
    requires DistinctEntryNames(entries) && i < |entries| && !entries[i].def.HasTag(WorkflowTag)
    ensures var r := Finished(s0, cfg, entries, workflows, activities);
      WorkerId(entries[i].name) in r.definitions && r.definitions[WorkerId(entries[i].name)] == entries[i].def
  {
    var id := WorkerId(entries[i].name);
    WorkersPassAt(s0.Register(FactoryId, FactoryDefinition(cfg)), entries, i);
    FixedIdsNotGenerated(entries[i].name);
    var configured := Configured(entries);
    var n := |entries|;
    DebugDefinitionsUntagged(cfg, configured, Repeat(Unassigned(workflows), n), Repeat(Unassigned(activities), n));
    FinalAt(WorkersPass(s0.Register(FactoryId, FactoryDefinition(cfg)), entries),
            RuntimeDefinition(cfg, configured),
            WorkerDebugDefinition(configured),
            WorkflowDebugDefinition(configured, Repeat(Unassigned(workflows), n)),
            ActivityDebugDefinition(configured, Repeat(Unassigned(activities), n)),
            Dict(OptionsProbes(configured)), Dict(TaggedMap(workflows)), Dict(TaggedMap(activities)), id);
  }

  /** A worker with finalizers has its `ChainFinalizer` of finalizer references and the logger. */
  lemma ChainRegistered(s0: Snapshot, cfg: Config, entries: seq<WorkerEntry>, workflows: seq<TaggedService>,
                        activities: seq<TaggedService>, i: nat)
    requires ConverterGiven(cfg)
    requires DistinctEntryNames(entries) && i < |entries| && entries[i].worker.finalizers != []
    ensures var r := Finished(s0, cfg, entries, workflows, activities);
      var id := ChainId(entries[i].name);
      && id in r.definitions
      && r.definitions[id].className == Some(ChainFinalizerClass)
      && r.definitions[id].args == [List(Refs(entries[i].worker.finalizers)), LoggerRef]
  {
    var id := ChainId(entries[i].name);
    WorkersPassChain(s0.Register(FactoryId, FactoryDefinition(cfg)), entries, i);
    FixedIdsNotGenerated(entries[i].name);
    assert !ChainDefinition(entries[i].worker).HasTag(WorkflowTag);
    var configured := Configured(entries);
    var n := |entries|;
    DebugDefinitionsUntagged(cfg, configured, Repeat(Unassigned(workflows), n), Repeat(Unassigned(activities), n));
    FinalAt(WorkersPass(s0.Register(FactoryId, FactoryDefinition(cfg)), entries),
            RuntimeDefinition(cfg, configured),
            WorkerDebugDefinition(configured),
            WorkflowDebugDefinition(configured, Repeat(Unassigned(workflows), n)),
            ActivityDebugDefinition(configured, Repeat(Unassigned(activities), n)),
            Dict(OptionsProbes(configured)), Dict(TaggedMap(workflows)), Dict(TaggedMap(activities)), id);
  }

  /**
   * `temporal.runtime` is a public `Runtime` of the worker factory and of
   * every worker of the loop, keyed by name in configuration order.
   */
  lemma RuntimeRegistered(s0: Snapshot, cfg: Config, entries: seq<WorkerEntry>, workflows: seq<TaggedService>,
                          activities: seq<TaggedService>)
    requires ConverterGiven(cfg)
    ensures var r := Finished(s0, cfg, entries, workflows, activities);
      && RuntimeId in r.definitions
      && r.definitions[RuntimeId].className == Some(RuntimeClass)
      && r.definitions[RuntimeId].public
      && |r.definitions[RuntimeId].args| == 2
      && r.definitions[RuntimeId].args[0] == Inline(FactoryDefinition(cfg))
      && r.definitions[RuntimeId].args[1].Dict?
      && |r.definitions[RuntimeId].args[1].entries| == |entries|
      && forall i :: 0 <= i < |entries| ==>
           r.definitions[RuntimeId].args[1].entries[i] == (entries[i].name, Inline(entries[i].def))
  {
    var configured := Configured(entries);
    var n := |entries|;
    DebugDefinitionsUntagged(cfg, configured, Repeat(Unassigned(workflows), n), Repeat(Unassigned(activities), n));
    FinalAt(WorkersPass(s0.Register(FactoryId, FactoryDefinition(cfg)), entries),
            RuntimeDefinition(cfg, configured),
            WorkerDebugDefinition(configured),
            WorkflowDebugDefinition(configured, Repeat(Unassigned(workflows), n)),
            ActivityDebugDefinition(configured, Repeat(Unassigned(activities), n)),
            Dict(OptionsProbes(configured)), Dict(TaggedMap(workflows)), Dict(TaggedMap(activities)), RuntimeId);
  }

  /**
   * The collector keeps its definition and receives, as `$workers`, the
   * worker probes, and, as `$workflows` and `$activities`, the tagged ids
   * with their tag attributes.
   */
  lemma CollectorWired(s0: Snapshot, cfg: Config, entries: seq<WorkerEntry>, workflows: seq<TaggedService>,
                       activities: seq<TaggedService>)
    requires ConverterGiven(cfg)
    requires CollectorId in s0.definitions && !s0.definitions[CollectorId].HasTag(WorkflowTag)
    ensures var r := Finished(s0, cfg, entries, workflows, activities);
      && CollectorId in r.definitions
      && r.definitions[CollectorId] == s0.definitions[CollectorId]
           .WithNamed("$workers", Dict(OptionsProbes(Configured(entries))))
           .WithNamed("$workflows", Dict(TaggedMap(workflows)))
           .WithNamed("$activities", Dict(TaggedMap(activities)))
  {
    var s1 := s0.Register(FactoryId, FactoryDefinition(cfg));
    RegisterElsewhere(s0, FactoryId, FactoryDefinition(cfg), CollectorId);
    forall j | 0 <= j < |entries|
      ensures CollectorId != WorkerId(entries[j].name) && CollectorId != ChainId(entries[j].name)
    {
      FixedIdsNotGenerated(entries[j].name);
    }
    WorkersPassFrame(s1, entries, CollectorId);
    var configured := Configured(entries);
    var n := |entries|;
    DebugDefinitionsUntagged(cfg, configured, Repeat(Unassigned(workflows), n), Repeat(Unassigned(activities), n));
    FinalAt(WorkersPass(s0.Register(FactoryId, FactoryDefinition(cfg)), entries),
            RuntimeDefinition(cfg, configured),
            WorkerDebugDefinition(configured),
            WorkflowDebugDefinition(configured, Repeat(Unassigned(workflows), n)),
            ActivityDebugDefinition(configured, Repeat(Unassigned(activities), n)),
            Dict(OptionsProbes(configured)), Dict(TaggedMap(workflows)), Dict(TaggedMap(activities)), CollectorId);
  }

  /** The worker debug command: a console command over the workers of the loop. */
  lemma WorkerDebugRegistered(s0: Snapshot, cfg: Config, entries: seq<WorkerEntry>, workflows: seq<TaggedService>,
                              activities: seq<TaggedService>)
    requires ConverterGiven(cfg)
    ensures var r := Finished(s0, cfg, entries, workflows, activities);
      && WorkerDebugId in r.definitions
      && r.definitions[WorkerDebugId].className == Some(WorkerDebugClass)
      && r.definitions[WorkerDebugId].HasTag("console.command")
      && r.definitions[WorkerDebugId].named == map["$workers" := Dict(Inlined(Configured(entries)))]
  {
    var configured := Configured(entries);
    var n := |entries|;
    DebugDefinitionsUntagged(cfg, configured, Repeat(Unassigned(workflows), n), Repeat(Unassigned(activities), n));
    FinalAt(WorkersPass(s0.Register(FactoryId, FactoryDefinition(cfg)), entries),
            RuntimeDefinition(cfg, configured),
            WorkerDebugDefinition(configured),
            WorkflowDebugDefinition(configured, Repeat(Unassigned(workflows), n)),
            ActivityDebugDefinition(configured, Repeat(Unassigned(activities), n)),
            Dict(OptionsProbes(configured)), Dict(TaggedMap(workflows)), Dict(TaggedMap(activities)), WorkerDebugId);
    var d := WorkerDebugDefinition(configured);
    assert d.tags[0].name == "console.command";
  }

  /**
   * The workflow debug command also lists the workflow classes without a
   * worker list, once per worker of the loop.
   */
  lemma WorkflowDebugRegistered(s0: Snapshot, cfg: Config, entries: seq<WorkerEntry>, workflows: seq<TaggedService>,
                                activities: seq<TaggedService>)
    requires ConverterGiven(cfg)
    ensures var r := Finished(s0, cfg, entries, workflows, activities);
      && WorkflowDebugId in r.definitions
      && r.definitions[WorkflowDebugId].className == Some(WorkflowDebugClass)
      && r.definitions[WorkflowDebugId].HasTag("console.command")
      && r.definitions[WorkflowDebugId].named
         == map["$workers" := Dict(Inlined(Configured(entries))),
                "$workflowsWithoutWorkers" := List(StrList(Repeat(Unassigned(workflows), |entries|)))]
  {
    var configured := Configured(entries);
    var n := |entries|;
    DebugDefinitionsUntagged(cfg, configured, Repeat(Unassigned(workflows), n), Repeat(Unassigned(activities), n));
    FinalAt(WorkersPass(s0.Register(FactoryId, FactoryDefinition(cfg)), entries),
            RuntimeDefinition(cfg, configured),
            WorkerDebugDefinition(configured),
            WorkflowDebugDefinition(configured, Repeat(Unassigned(workflows), n)),
            ActivityDebugDefinition(configured, Repeat(Unassigned(activities), n)),
            Dict(OptionsProbes(configured)), Dict(TaggedMap(workflows)), Dict(TaggedMap(activities)), WorkflowDebugId);
    var d := WorkflowDebugDefinition(configured, Repeat(Unassigned(workflows), n));
    assert d.tags[0].name == "console.command";
  }

  /** The activity debug command, likewise for activities. */
  lemma ActivityDebugRegistered(s0: Snapshot, cfg: Config, entries: seq<WorkerEntry>, workflows: seq<TaggedService>,
                                activities: seq<TaggedService>)
    requires ConverterGiven(cfg)
    ensures var r := Finished(s0, cfg, entries, workflows, activities);
      && ActivityDebugId in r.definitions
      && r.definitions[ActivityDebugId].className == Some(ActivityDebugClass)
      && r.definitions[ActivityDebugId].HasTag("console.command")
      && r.definitions[ActivityDebugId].named
         == map["$workers" := Dict(Inlined(Configured(entries))),
                "$activitiesWithoutWorkers" := List(StrList(Repeat(Unassigned(activities), |entries|)))]
  {
    var configured := Configured(entries);
    var n := |entries|;
    DebugDefinitionsUntagged(cfg, configured, Repeat(Unassigned(workflows), n), Repeat(Unassigned(activities), n));
    FinalAt(WorkersPass(s0.Register(FactoryId, FactoryDefinition(cfg)), entries),
            RuntimeDefinition(cfg, configured),
            WorkerDebugDefinition(configured),
            WorkflowDebugDefinition(configured, Repeat(Unassigned(workflows), n)),
            ActivityDebugDefinition(configured, Repeat(Unassigned(activities), n)),
            Dict(OptionsProbes(configured)), Dict(TaggedMap(workflows)), Dict(TaggedMap(activities)), ActivityDebugId);
    var d := ActivityDebugDefinition(configured, Repeat(Unassigned(activities), n));
    assert d.tags[0].name == "console.command";
  }

  /**
   * After the pass, each configured worker `<name>` is `temporal.<name>.worker`
   * with the definition its iteration built, and each one with finalizers has
   * its chain under `temporal.<name>.worker.finalizer`.
   */
  lemma ProcessRegistersWorkers(s0: Snapshot, cfg: Config, workflows: seq<TaggedService>,
                                activities: seq<TaggedService>, hasMethod: string -> bool, i: nat)
    requires ConverterGiven(cfg)
    requires DistinctNames(cfg.workers) && i < |cfg.workers|
    ensures var r := ProcessSpec(s0, cfg, workflows, activities, hasMethod);
      var (name, w) := cfg.workers[i];
      && WorkerId(name) in r.definitions
      && r.definitions[WorkerId(name)] == WorkerDefinition(cfg, name, w, workflows, activities, hasMethod)
      && (w.finalizers != [] ==> ChainId(name) in r.definitions &&
                                 r.definitions[ChainId(name)].args == [List(Refs(w.finalizers)), LoggerRef])
  {
    var entries := WorkerEntries(cfg, workflows, activities, hasMethod);
    EntriesOfConfig(cfg, workflows, activities, hasMethod);
    WorkerRegistered(s0, cfg, entries, workflows, activities, i);
    if cfg.workers[i].1.finalizers != [] {
      ChainRegistered(s0, cfg, entries, workflows, activities, i);
    }
  }
}
