/**
 * The Sentry compiler pass: when sentry/sentry-symfony is installed and the
 * container knows Sentry's hub or client options, a stack-trace builder and
 * two interceptors that report to the hub.
 */
module SentryPass {
  import opened Wrappers
  import opened Definitions
  import opened Container
  import opened Versions

  const SentryPackage := "sentry/sentry-symfony"
  const SentryBundleClass := "Sentry\\SentryBundle\\SentryBundle"
  const HubInterface := "Sentry\\State\\HubInterface"
  const ClientOptionsId := "sentry.client.options"
  const StackTraceBuilderClass := "Sentry\\StacktraceBuilder"
  const RepresentationSerializerClass := "Sentry\\Serializer\\RepresentationSerializer"
  const OutboundCallsClass := "Vanta\\Integration\\Symfony\\Temporal\\Interceptor\\SentryWorkflowOutboundCallsInterceptor"
  const ActivityInboundClass := "Vanta\\Integration\\Symfony\\Temporal\\Interceptor\\SentryActivityInboundInterceptor"

  const StackTraceBuilderId := "temporal.sentry_stack_trace_builder"
  const OutboundCallsId := "temporal.sentry_workflow_outbound_calls.interceptor"
  const ActivityInboundId := "temporal.sentry_activity_inbound_interceptor"

  /** A `StacktraceBuilder` over the client options and an inline serializer over the same options. */
  function StackTraceBuilderDefinition(): Definition {
    Registered(StackTraceBuilderClass)
      .WithArgs([Ref(ClientOptionsId), Inline(NewDefinition(Some(RepresentationSerializerClass), [Ref(ClientOptionsId)]))])
  }

  /** Both interceptors take the hub and the stack-trace builder, in that order. */
  function InterceptorDefinition(className: string): Definition {
    Registered(className).WithArgs([Ref(HubInterface), Ref(StackTraceBuilderId)])
  }

  /** The guards: the package is installed, and the hub or the client options are known. */
  predicate Enabled(s: Snapshot, available: bool) {
    available && (s.Has(HubInterface) || s.Has(ClientOptionsId))
  }

  function Processed(s: Snapshot, available: bool): Snapshot {
    if !Enabled(s, available) then s
    else
      s.Register(StackTraceBuilderId, StackTraceBuilderDefinition())
       .Register(OutboundCallsId, InterceptorDefinition(OutboundCallsClass))
       .Register(ActivityInboundId, InterceptorDefinition(ActivityInboundClass))
  }

  method Process(c: ContainerBuilder, versions: InstalledVersions)
    modifies c
    ensures c.State() == Processed(old(c.State()), versions.WillBeAvailable(SentryPackage, SentryBundleClass, []))
  {
    if !versions.WillBeAvailable(SentryPackage, SentryBundleClass, []) {
      return;
    }
    if !c.Has(HubInterface) && !c.Has(ClientOptionsId) {
      return;
    }
    c.Register(StackTraceBuilderId, StackTraceBuilderDefinition());
    c.Register(OutboundCallsId, InterceptorDefinition(OutboundCallsClass));
    c.Register(ActivityInboundId, InterceptorDefinition(ActivityInboundClass));
  }

  // ---------------------------------------------------------------- properties

  const Added: set<string> := {StackTraceBuilderId, OutboundCallsId, ActivityInboundId}

  /**
   * When enabled, the pass defines exactly the three ids, drops any alias of
   * them, and leaves every other id as it was; otherwise it changes nothing.
   */
  lemma ExactlyThree(s: Snapshot, available: bool)
    ensures var r := Processed(s, available);
      && (Enabled(s, available) ==>
            && r.definitions.Keys == s.definitions.Keys + Added
            && r.aliases.Keys == s.aliases.Keys - Added
            && (forall id :: id in s.definitions && id !in Added ==> r.definitions[id] == s.definitions[id])
            && (forall id :: id in r.aliases ==> r.aliases[id] == s.aliases[id]))
      && (!Enabled(s, available) ==> r == s)
  {
  }

  /**
   * Both interceptors receive `[Reference(Hub), Reference(builder)]`, and the
   * builder they refer to is the one registered by the same pass.
   */
  lemma InterceptorsShareBuilder(s: Snapshot, available: bool)
    requires Enabled(s, available)
    ensures var r := Processed(s, available);
      && Added <= r.definitions.Keys
      && r.definitions[OutboundCallsId].className == Some(OutboundCallsClass)
      && r.definitions[ActivityInboundId].className == Some(ActivityInboundClass)
      && r.definitions[OutboundCallsId].args == [Ref(HubInterface), Ref(StackTraceBuilderId)]
      && r.definitions[ActivityInboundId].args == [Ref(HubInterface), Ref(StackTraceBuilderId)]
      && r.definitions[StackTraceBuilderId].className == Some(StackTraceBuilderClass)
      && r.definitions[StackTraceBuilderId].args[0] == Ref(ClientOptionsId)
  {
  }

  /**
   * The guard is an `or`: with the client options known but no hub, the pass
   * still registers interceptors whose first argument refers to a hub the
   * container does not have.
   */
  lemma HubMayBeMissing(s: Snapshot)
    requires s.Has(ClientOptionsId) && !s.Has(HubInterface)
    ensures var r := Processed(s, true);
      && OutboundCallsId in r.definitions && r.definitions[OutboundCallsId].args[0] == Ref(HubInterface)
      && !r.Has(HubInterface)
  {
  }
}
