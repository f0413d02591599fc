# temporal-bundle, modelled in Dafny

This project models the core of the Symfony bundle that wires the Temporal
PHP SDK into a Symfony service container. It covers four parts:

- **The compiler passes.** These turn the resolved `temporal` configuration
  into container definitions:
  - `WorkflowCompilerPass`: the worker factory, workers, the options chain,
    affinity, finalizer chains, runtime and collector wiring, and removal of
    workflow definitions.
  - `ClientCompilerPass` and `ScheduleClientCompilerPass`: one client per
    entry, its options chain, the default alias and the argument aliases.
  - `DoctrineCompilerPass`: ping finalizers and exception-interceptor
    decorators.
  - `SentryCompilerPass`: the stack-trace builder and two interceptors.
- **The configuration tree.** Validation rules (interval strings, repeated
  list entries, the two enumerations) and the defaults it fills in.
- **The runtime decorators.** The two exception interceptors, the four
  Temporal interceptors, `ChainFinalizer` and the Doctrine ping finalizer.
  Each is stated as the sequence of calls it makes and the value it returns
  or the exception it throws.
- **Small pieces.** The Symfony-serializer data converter, `Runtime`, the
  `InstalledVersions` hook and the `Environment` merge.

The container is a class `Container.ContainerBuilder`. It holds a map of
definitions and a map of aliases. Its methods mirror the Symfony calls the
passes make:

- `register`
- `getDefinition()->addMethodCall`
- `getDefinition()->setArgument`
- `setAlias`
- `registerAliasForArgument`
- `removeDefinition`

Each method is specified by a pure function on a `Definitions.Snapshot`.
Each pass is:

- a method holding the source's loops, with loop invariants;
- proved equal to a specification function that folds one loop step over the
  configured entries;
- accompanied by lemmas about that function, stating what ends up under each
  id.

The decorators take their collaborators as parameters: what the inner
interceptor, `next`, the finalizer, the hub or the registry does. They
return the log of calls they make. An exception is an
`Effects.Outcome` (`Returned` or `Threw`).

A few behaviours of the code are easy to miss. The model states each of them
as the code has it:

- **Chain finalizer.** `ChainFinalizer::finalize`
  (src/Finalizer/ChainFinalizer.php:17-22) is a bare `foreach` with no `try`.
  The first finalizer that throws ends the chain, and its exception leaves
  `finalize`. The one unit test (tests/Unit/Finalizer/ChainFinalizerTest.php)
  only covers finalizers that all succeed.
- **Default client.** The default name is only used in the test
  `$name == $config['defaultClient']` inside the client loop
  (src/DependencyInjection/Compiler/ClientCompilerPass.php:55-57; the same
  holds for schedule clients at ScheduleClientCompilerPass.php:60-62). When no
  entry carries that name, no alias is set and nothing fails.
- **No-affinity lists.** `$workflowsWithoutWorkers` and
  `$activitiesWithoutWorkers` are created once, before the worker loop
  (src/DependencyInjection/Compiler/WorkflowCompilerPass.php:67-69). Inside
  the loop they are appended to (lines 118 and 138) and never de-duplicated,
  so each no-affinity class appears once per worker.
- **Workflow-client transport.** The workflow-client pass builds
  `ServiceClient::create($client['address'])` directly
  (src/DependencyInjection/Compiler/ClientCompilerPass.php:48-49). Only the
  schedule-client pass goes through `grpcClient($client)`
  (ScheduleClientCompilerPass.php:55), the helper that can build TLS.
- **Doctrine decorator ids.** The decorator id
  `temporal_doctrine_ping_connection_<em>.interceptor`
  (src/DependencyInjection/Compiler/DoctrineCompilerPass.php:51) depends on the
  entity-manager name only. When several workers list the same ping
  finalizer, each registration replaces the previous one, and the last
  worker's decorator is the one left.
- **Rebinding of `$e`.** Both try/catch exception interceptors reuse `$e` in
  the catch block. After a failed report or finalize, the wrapped interceptor
  is asked about the new exception, not the original one.

## Model

| member | source | states |
|---|---|---|
| `ClientLoop.OptionsChain` | src/DependencyInjection/Compiler/ClientCompilerPass.php:31-40 | The `ClientOptions` chain starts with `withNamespace(namespace)`. Every setter returns a clone and takes exactly one argument. The setters come in a fixed order without repetition. `withIdentity` is present iff the identity is truthy, and `withQueryRejectionCondition` iff a condition is passed, each with the configured value. |
| `ClientLoop.RegisterClient` | src/DependencyInjection/Compiler/ClientCompilerPass.php:43-59 | One iteration of a client loop on the container: register the client, alias the interface when the name is the default, then register the argument alias. |
| `ClientLoop.EntryRegistered` | src/DependencyInjection/Compiler/ClientCompilerPass.php:43-53 | With distinct names, every entry's id holds that entry's definition after the whole loop: no later iteration overwrites it. |
| `ClientLoop.EntryAliasedForArgument` | src/DependencyInjection/Compiler/ClientCompilerPass.php:59 | With distinct names, every entry's argument alias points at that entry's id after the whole loop. |
| `ClientLoop.DefaultAliasSet` | src/DependencyInjection/Compiler/ClientCompilerPass.php:55-57 | The interface alias points at the id of the entry carrying the default name, and no definition shadows it. |
| `ClientLoop.DefaultAliasKept` | src/DependencyInjection/Compiler/ClientCompilerPass.php:55-57 | When no entry carries the default name, the interface id keeps whatever alias or definition it had. |
| `ClientLoop.EntriesFrame` | src/DependencyInjection/Compiler/ClientCompilerPass.php:30-60 | Every id that is not an entry id, an argument alias or the interface keeps its definition and alias. |
| `ClientLoop.ForArgumentInjective` | src/DependencyInjection/Compiler/ClientCompilerPass.php:59 | Different client names give different argument aliases. |
| `ClientPass.BuildOptions` | src/DependencyInjection/Compiler/ClientCompilerPass.php:31-40 | The options built by the loop body are the chain whose condition is passed only when it is truthy. |
| `ClientPass.Process` | src/DependencyInjection/Compiler/ClientCompilerPass.php:30-60 | After the pass, the container is the client loop applied to it over the configured clients in order. |
| `ClientPass.ClientShape` | src/DependencyInjection/Compiler/ClientCompilerPass.php:45-53 | A workflow client is a `WorkflowClientInterface` from `WorkflowClient::create` with exactly three named arguments. They are a plain `ServiceClient::create(address)` with no TLS branch, the options, and a reference to the entry's data converter. |
| `ClientPass.ClientRegistered` | src/DependencyInjection/Compiler/ClientCompilerPass.php:43-53 | Each entry `<name>` yields `temporal.<name>.client`, built from that entry. |
| `ClientPass.ClientOptions` | src/DependencyInjection/Compiler/ClientCompilerPass.php:31-40 | `withIdentity` is there iff the identity is truthy. `withQueryRejectionCondition` is there iff the condition is truthy, so condition 0 is dropped. |
| `ClientPass.ClientAliasedForArgument` | src/DependencyInjection/Compiler/ClientCompilerPass.php:59 | Each entry gets the alias `WorkflowClientInterface $<name>WorkflowClient`, pointing at its id. |
| `ClientPass.DefaultClientAliased` | src/DependencyInjection/Compiler/ClientCompilerPass.php:55-57 | `WorkflowClientInterface` aliases `temporal.<defaultClient>.client` when an entry has that name. |
| `ClientPass.DefaultClientMissing` | src/DependencyInjection/Compiler/ClientCompilerPass.php:55-57 | When no entry has the default name, no alias is set and the interface id is left as it was. |
| `ClientPass.ClientIdInjective` | src/DependencyInjection/Compiler/ClientCompilerPass.php:43 | Different names give different client ids. |
| `ScheduleClientPass.BuildOptions` | src/DependencyInjection/Compiler/ScheduleClientCompilerPass.php:39-48 | The schedule options pass `withQueryRejectionCondition` whenever the key is present. |
| `ScheduleClientPass.RegisterScheduleClients` | src/DependencyInjection/Compiler/ScheduleClientCompilerPass.php:38-74 | The loop leaves the container as the client loop over the schedule clients. The `$clients` list it returns holds one summary per entry. |
| `ScheduleClientPass.Process` | src/DependencyInjection/Compiler/ScheduleClientCompilerPass.php:32-87 | The whole pass: the client loop, then the debug command, then the collector's `$scheduleClients`. It requires the collector to be registered, because `getDefinition` fails otherwise. |
| `ScheduleClientPass.ScheduleClientShape` | src/DependencyInjection/Compiler/ScheduleClientCompilerPass.php:52-58 | A schedule client is a `ScheduleClientInterface` from `ScheduleClient::create` with exactly three named arguments: the entry's transport, its options and its converter reference. |
| `ScheduleClientPass.ScheduleClientRegistered` | src/DependencyInjection/Compiler/ScheduleClientCompilerPass.php:50-58 | Each entry `<name>` yields `temporal.<name>.schedule_client`, built from that entry. |
| `ScheduleClientPass.ScheduleOptionsChain` | src/DependencyInjection/Compiler/ScheduleClientCompilerPass.php:39-48 | `withNamespace` comes first. `withIdentity` is there iff the identity is truthy. `withQueryRejectionCondition` is there iff the key is present, value 0 included. |
| `ScheduleClientPass.ScheduleClientAliasedForArgument` | src/DependencyInjection/Compiler/ScheduleClientCompilerPass.php:64 | Each entry gets the alias `ScheduleClientInterface $<name>ScheduleClient`, pointing at its id. |
| `ScheduleClientPass.DefaultScheduleClientAliased` | src/DependencyInjection/Compiler/ScheduleClientCompilerPass.php:60-62 | `ScheduleClientInterface` aliases the id of the entry named `defaultScheduleClient`. |
| `ScheduleClientPass.DefaultScheduleClientMissing` | src/DependencyInjection/Compiler/ScheduleClientCompilerPass.php:60-62 | When no entry has that name, the interface alias is left as it was. |
| `ScheduleClientPass.DebugCommandRegistered` | src/DependencyInjection/Compiler/ScheduleClientCompilerPass.php:67-81 | The debug command is tagged `console.command`. It receives one `{id, name, options, dataConverter, address}` record per entry, in configuration order. |
| `ScheduleClientPass.CollectorReceivesSummaries` | src/DependencyInjection/Compiler/ScheduleClientCompilerPass.php:84-86 | The collector receives the same list as `$scheduleClients` and keeps everything else it had. |
| `ScheduleClientPass.ScheduleClientIdInjective` | src/DependencyInjection/Compiler/ScheduleClientCompilerPass.php:50 | Different names give different schedule-client ids. |
| `WorkflowPass.OptionCall` | src/DependencyInjection/Compiler/WorkflowCompilerPass.php:76-91 | A worker key adds no call iff `with<Ucfirst(key)>` does not exist, or the key ends in `Timeout`/`Interval` and its value is not a string. Otherwise it adds that method as a cloning call with one argument, an interval definition for interval keys and the raw value otherwise. |
| `WorkflowPass.OptionCallsSound` | src/DependencyInjection/Compiler/WorkflowCompilerPass.php:76-92 | Every call of a worker's options chain is the options call of one of its keys. |
| `WorkflowPass.OptionCallsComplete` | src/DependencyInjection/Compiler/WorkflowCompilerPass.php:76-92 | Every key that has an options call contributes it to the chain. |
| `WorkflowPass.BuildOptions` | src/DependencyInjection/Compiler/WorkflowCompilerPass.php:72-92 | The inner options loop builds `WorkerOptions::new` with one options call per key of the resolved worker array, in the order of that array. |
| `WorkflowPass.OptionCallsAppend` | src/DependencyInjection/Compiler/WorkflowCompilerPass.php:76-92 | The chain of two arrays laid end to end is the chain of the first followed by the chain of the second. |
| `WorkflowPass.ResolvedOptionsOrder` | src/DependencyInjection/Compiler/WorkflowCompilerPass.php:76-92 | For an accepted worker, the chain holds the calls of the keys as written, in written order, followed by the calls of the defaulted keys, in tree order. |
| `WorkflowPass.AssignedMembers` | src/DependencyInjection/Compiler/WorkflowCompilerPass.php:108-150 | A worker gets a registration call for exactly the services that serve it. A service without a class is skipped. A null or empty worker list reaches every worker. A non-empty list reaches only the workers it names. |
| `WorkflowPass.UnassignedMembers` | src/DependencyInjection/Compiler/WorkflowCompilerPass.php:108-139 | One worker's pass over a service list adds to the no-affinity list exactly the classes of the services that have a class and no worker list. |
| `WorkflowPass.Repeat` | src/DependencyInjection/Compiler/WorkflowCompilerPass.php:68-139 | After `n` workers, the no-affinity list has `n` times as many entries as one worker adds, with no de-duplication. |
| `WorkflowPass.AssignServices` | src/DependencyInjection/Compiler/WorkflowCompilerPass.php:108-150 | One tagged-service loop appends the worker's registration calls and the no-affinity classes, in list order. |
| `WorkflowPass.RegisterFinalizers` | src/DependencyInjection/Compiler/WorkflowCompilerPass.php:212-231 | An empty finalizer list changes nothing. Otherwise the chain is registered and the worker gets one `registerActivityFinalizer` call. |
| `WorkflowPass.BuildWorker` | src/DependencyInjection/Compiler/WorkflowCompilerPass.php:71-150 | A worker's definition before finalizers is the registered worker with its workflow calls, then its activity calls. The two no-affinity lists grow by one round each. |
| `WorkflowPass.ProcessWorker` | src/DependencyInjection/Compiler/WorkflowCompilerPass.php:71-155 | One iteration of the worker loop registers the worker (and its chain) and returns the worker's final definition. |
| `WorkflowPass.RemoveWorkflowDefinitions` | src/DependencyInjection/Compiler/WorkflowCompilerPass.php:203-205 | The final loop removes every definition tagged `temporal.workflow` and nothing else. |
| `WorkflowPass.WithoutTaggedKeeps` | src/DependencyInjection/Compiler/WorkflowCompilerPass.php:203-205 | After the removal, an id is defined iff it was defined and untagged, with its definition unchanged. |
| `WorkflowPass.RegisterWorkers` | src/DependencyInjection/Compiler/WorkflowCompilerPass.php:67-155 | The worker loop registers every worker, only adds definitions, and returns `$configuredWorkers` in order. Each no-affinity list is repeated once per worker. |
| `WorkflowPass.Process` | src/DependencyInjection/Compiler/WorkflowCompilerPass.php:45-206 | The whole pass equals its specification on the starting container. It requires `temporal.collector` to be registered, as `getDefinition` throws otherwise. It requires `pool.dataConverter` to be set, as `new Reference(null)` at line 53 throws a TypeError otherwise. An absent `pool.roadrunnerRPC` is passed on as null in the `RR_RPC` entry. |
| `WorkflowPass.WorkerIdInjective` | src/DependencyInjection/Compiler/WorkflowCompilerPass.php:94 | Different worker names give different worker ids. |
| `WorkflowPass.ChainIdInjective` | src/DependencyInjection/Compiler/WorkflowCompilerPass.php:218 | Different worker names give different chain ids. |
| `WorkflowPass.FixedIdsNotGenerated` | src/DependencyInjection/Compiler/WorkflowCompilerPass.php:50-192 | No worker or chain id equals one of the fixed service ids: the factory, the runtime, the collector and the three debug commands. |
| `WorkflowPass.WorkersPassAt` | src/DependencyInjection/Compiler/WorkflowCompilerPass.php:94-106 | With distinct names, each worker id holds its own definition after the loop. |
| `WorkflowPass.WorkersPassFrame` | src/DependencyInjection/Compiler/WorkflowCompilerPass.php:71-155 | Ids the worker loop does not generate keep what they held. |
| `WorkflowPass.WorkersPassChain` | src/DependencyInjection/Compiler/WorkflowCompilerPass.php:218-223 | With distinct names, a worker with finalizers has its chain under `temporal.<name>.worker.finalizer`. |
| `WorkflowPass.WorkerShape` | src/DependencyInjection/Compiler/WorkflowCompilerPass.php:94-106 | A worker is a public `WorkerInterface` from the factory's `newWorker`. Its arguments are `[taskQueue, options, Reference(exceptionInterceptor), pipeline of the interceptor references in order]`. |
| `WorkflowPass.FinalizerCallLast` | src/DependencyInjection/Compiler/WorkflowCompilerPass.php:212-230 | A worker has a `registerActivityFinalizer` call iff its finalizer list is non-empty. It has exactly one, as its last call. |
| `WorkflowPass.EntriesOfConfig` | src/DependencyInjection/Compiler/WorkflowCompilerPass.php:71-155 | The loop visits the configured workers in order, each with the definition its iteration builds. None of those definitions is tagged `temporal.workflow`. |
| `WorkflowPass.WiringAt` | src/DependencyInjection/Compiler/WorkflowCompilerPass.php:158-200 | The steps after the loop add the runtime and the three debug commands, set the three collector arguments, and leave every other id alone. |
| `WorkflowPass.FinalAt` | src/DependencyInjection/Compiler/WorkflowCompilerPass.php:158-205 | The same holds after the removal loop for every untagged definition. |
| `WorkflowPass.WorkerRegistered` | src/DependencyInjection/Compiler/WorkflowCompilerPass.php:94-106 | Each worker `<name>` survives the whole pass as `temporal.<name>.worker` with the definition its iteration built. |
| `WorkflowPass.ChainRegistered` | src/DependencyInjection/Compiler/WorkflowCompilerPass.php:218-223 | A worker with finalizers keeps a `ChainFinalizer` of its finalizer references, in order, plus the logger. |
| `WorkflowPass.RuntimeRegistered` | src/DependencyInjection/Compiler/WorkflowCompilerPass.php:158-164 | `temporal.runtime` is a public `Runtime` of the factory and of every worker, keyed by name in configuration order. |
| `WorkflowPass.CollectorWired` | src/DependencyInjection/Compiler/WorkflowCompilerPass.php:192-200 | The collector receives `$workers` (clones with `getOptions`) and the tagged workflow and activity ids with their attributes. |
| `WorkflowPass.WorkerDebugRegistered` | src/DependencyInjection/Compiler/WorkflowCompilerPass.php:167-172 | The worker debug command is a console command over the configured workers. |
| `WorkflowPass.WorkflowDebugRegistered` | src/DependencyInjection/Compiler/WorkflowCompilerPass.php:174-180 | The workflow debug command also gets the no-affinity workflow classes, repeated once per worker. |
| `WorkflowPass.ActivityDebugRegistered` | src/DependencyInjection/Compiler/WorkflowCompilerPass.php:183-189 | The activity debug command also gets the no-affinity activity classes, repeated once per worker. |
| `WorkflowPass.ProcessRegistersWorkers` | src/DependencyInjection/Compiler/WorkflowCompilerPass.php:45-206 | After the pass, each configured worker is `temporal.<name>.worker` with its built definition. A worker with finalizers has a chain holding its finalizer references. |
| `Php.Ucfirst` | src/DependencyInjection/Compiler/WorkflowCompilerPass.php:77 | `ucfirst` keeps the length, upper-cases an ASCII lower-case first letter only, and keeps the rest. |
| `Php.RepeatedIffEqualPair` | src/DependencyInjection/Configuration.php:206-221 | `count($values) != count(array_unique($values))` holds exactly when two positions hold the same value. |
| `Php.DecimalRoundTrip` | src/Interceptor/SentryWorkflowPanicInterceptor.php:88 | Reading back the decimal digits of a non-negative integer gives that integer. |
| `Php.DecimalInjective` | src/Interceptor/SentryWorkflowPanicInterceptor.php:88 | Different positions print differently. |
| `Configuration.ParseFormat` | src/DependencyInjection/Configuration.php:451-480 | A timeout format is accepted iff it is one of the ten unit names, and it parses to the unit of that name. |
| `Configuration.FormatRoundTrip` | src/DependencyInjection/Configuration.php:451-480 | Every unit's name parses back to that unit. |
| `Configuration.IntervalRejected` | src/DependencyInjection/Configuration.php:111-127 | The interval validator accepts null and "" (PHP's `== null`). It rejects any other string exactly when interval parsing throws or returns false. |
| `Configuration.IntervalValueRejected` | src/DependencyInjection/Configuration.php:111-127 | A written interval value reaches the `?string` closure as its string form. Null and false (which becomes "") are accepted. A string, an integer (its digits) or true ("1") is rejected exactly when parsing that text fails. |
| `Configuration.ChildOfFound` | src/DependencyInjection/Configuration.php:179-297 | A key is undeclared iff no child of the node carries it. A found child carries the key. |
| `Configuration.FirstWrongType` | src/DependencyInjection/Configuration.php:179-349 | None iff no written key is a declared child whose node refuses the value's type. Otherwise it names the first such key in written order: every earlier entry is accepted by its child or is undeclared. A list key's node refuses anything but an array of strings. |
| `Configuration.FirstUndeclared` | src/DependencyInjection/Configuration.php:179-349 | None iff every written key is a declared child. Otherwise it names the first undeclared key in written order. |
| `Configuration.MissingDefaultsSpec` | src/DependencyInjection/Configuration.php:179-297 | Every default appended at finalisation belongs to an unwritten child and is that child's default. Every unwritten child with a default is appended. |
| `Configuration.MissingDefaultsDistinct` | src/DependencyInjection/Configuration.php:179-297 | When the children's keys are distinct, no default is appended twice. |
| `Configuration.FirstBadInterval` | src/DependencyInjection/Configuration.php:298-349 | None iff the validator accepts every written interval value. Otherwise it names a written interval key whose value is rejected. |
| `Configuration.WorkerError` | src/DependencyInjection/Configuration.php:174-352 | No error iff the worker rules hold. A type error is reported iff some declared key has a value of the wrong type, and it names the first such key in written order. An unrecognised-option error comes only when every declared key is well typed, and it names the first undeclared key. Any other error means every key is declared and well typed. A repeated-entry error means two equal values in that list. |
| `Configuration.FinalizeError` | src/DependencyInjection/Configuration.php:197-349 | For a worker whose keys are all declared and well typed, no error iff `taskQueue` is a non-empty string, `exceptionInterceptor` is absent or non-empty, neither list repeats a value and every interval passes the validator. Its errors are never type or unrecognised-option errors. A repeated-entry error means two equal values in that list. |
| `Configuration.ResolveWorker` | src/DependencyInjection/Configuration.php:174-352 | A worker is accepted iff: every key is declared and of its node's type; `taskQueue` is a non-empty string; `exceptionInterceptor` is absent or non-empty; both lists are arrays (a list or a mapping) of strings whose values do not repeat; and every interval passes the validator. A rejection carries the worker's first error. The accepted worker takes the written `taskQueue`, the written or default interceptor, and the values of the written lists in order, or []. Its array is the written entries followed by the defaults of the keys left out. |
| `Configuration.WithDefaults` | src/DependencyInjection/Configuration.php:179-349 | Completing a written array of distinct declared keys gives each key once, only declared keys, and under each key the written value or else the child's default. |
| `Configuration.ResolvedEntries` | src/DependencyInjection/Configuration.php:179-349 | The resolved worker array starts with the written entries, in written order. It has each key once and only declared keys, and under each key the written value or else the tree's default. |
| `Configuration.WorkerDefaults` | src/DependencyInjection/Configuration.php:179-297 | A worker writing only `taskQueue` has it first. Every other key of the tree holds its default: 0 for the concurrency and rate keys, `enableSessionWorker` false, `sessionResourceId` null, `maxConcurrentSessionExecutionSize` 1000, null intervals, the default interceptor and no finalizers or interceptors. |
| `Configuration.QueueOnlyAccepted` | src/DependencyInjection/Configuration.php:197-202 | A worker that writes a non-empty `taskQueue` and nothing else passes every worker rule. |
| `Configuration.MappingFinalizersAccepted` | src/DependencyInjection/Configuration.php:206-212 | `finalizers` written as a one-entry mapping is accepted. The resolved finalizers are its value alone, without the key. |
| `Configuration.TypeErrorBeforeUnrecognized` | src/DependencyInjection/Configuration.php:222-225 | An undeclared key written before a string under `maxConcurrentLocalActivityExecutionSize` still yields that key's type error. |
| `Configuration.ResolveClient` | src/DependencyInjection/Configuration.php:394-555 | A client entry is accepted iff: `identity` is a scalar; no key is undeclared; the namespace is non-empty; address and converter are not empty; the condition is one of the four values; interceptors have no repeats; the unit is valid; and both retry intervals pass the validator. A non-scalar `identity` is reported before any undeclared key. An unrecognised-option error names a written undeclared key of an entry whose `identity` is well typed. Defaults: address `TEMPORAL_ADDRESS`, converter `temporal.data_converter`, timeout 5 seconds. |
| `Configuration.ResolveClients` | src/DependencyInjection/Configuration.php:356-384 | A client map is accepted iff every entry is. The result keeps names and order. |
| `Configuration.ResolveWorkers` | src/DependencyInjection/Configuration.php:174-352 | A worker map is accepted iff every entry is. The result keeps names and order. |
| `Configuration.ResolveConfig` | src/DependencyInjection/Configuration.php:107-387 | The tree is accepted iff all of these hold: a written `workerFactory` implements `WorkerFactoryInterface` (the default is not checked); a written pool setting is non-empty; every written client and schedule client passes its rules; and every worker passes its rules. `pool` and its two settings are optional: an absent one is accepted and reads as absent. An accepted tree defaults `defaultClient` and `defaultScheduleClient` to `default`. It keeps the pool, and takes both client maps as written and resolved, or else one `default` entry. Its workers are the resolved workers. |
| `Configuration.MissingPoolAccepted` | src/DependencyInjection/Configuration.php:162-171 | Removing `pool` from an accepted tree keeps it accepted, and both pool settings then read as absent. |
| `DoctrinePass.RegisterPingFinalizers` | src/DependencyInjection/Compiler/DoctrineCompilerPass.php:26-38 | The first loop registers one ping finalizer per entity manager and returns `$finalizerIds` (name to finalizer id, in order). |
| `DoctrinePass.Flip` | src/DependencyInjection/Compiler/DoctrineCompilerPass.php:43 | `array_flip`: the keys are exactly the listed values, and each maps to a key listed with that value. |
| `DoctrinePass.FlipNames` | src/DependencyInjection/Compiler/DoctrineCompilerPass.php:43-51 | Flipping consistent ids maps each listed finalizer id back to the name it was made from. |
| `DoctrinePass.FlipRecovers` | src/DependencyInjection/Compiler/DoctrineCompilerPass.php:37-51 | The flipped map recovers each entity-manager name from its finalizer id. |
| `DoctrinePass.PingFinalizerIdInjective` | src/DependencyInjection/Compiler/DoctrineCompilerPass.php:27 | Different names give different ping-finalizer ids. |
| `DoctrinePass.DecoratorIdInjective` | src/DependencyInjection/Compiler/DoctrineCompilerPass.php:51 | Different names give different decorator ids. |
| `DoctrinePass.FinalizerNotDecorator` | src/DependencyInjection/Compiler/DoctrineCompilerPass.php:27-51 | A ping-finalizer id is never a decorator id. |
| `DoctrinePass.FinalizerIdsConsistent` | src/DependencyInjection/Compiler/DoctrineCompilerPass.php:27-37 | Each `$finalizerIds` value is the ping-finalizer id of its key. |
| `DoctrinePass.RegisterWorkerDecorators` | src/DependencyInjection/Compiler/DoctrineCompilerPass.php:46-58 | The inner loop over one worker's finalizers skips ids not in `$finalizerIds` and registers a decorator for the others. |
| `DoctrinePass.Process` | src/DependencyInjection/Compiler/DoctrineCompilerPass.php:16-60 | The whole pass: nothing when doctrine/orm is unavailable, else both loops. |
| `DoctrinePass.FinalizerRegistered` | src/DependencyInjection/Compiler/DoctrineCompilerPass.php:26-38 | After the first loop, each entity manager's finalizer id holds its definition. |
| `DoctrinePass.FinalizersFrame` | src/DependencyInjection/Compiler/DoctrineCompilerPass.php:26-38 | The first loop writes ping-finalizer ids and nothing else. |
| `DoctrinePass.WorkerDecoratorsFrame` | src/DependencyInjection/Compiler/DoctrineCompilerPass.php:46-58 | The inner loop leaves alone every id that none of its finalizers leads to. |
| `DoctrinePass.DecoratorsFrame` | src/DependencyInjection/Compiler/DoctrineCompilerPass.php:45-59 | The outer loop leaves alone every id that no worker's finalizer leads to. |
| `DoctrinePass.WritesOnlyListed` | src/DependencyInjection/Compiler/DoctrineCompilerPass.php:47-51 | Only the ping finalizer of `em` leads to `em`'s decorator id. |
| `DoctrinePass.WorkerDecoratorSet` | src/DependencyInjection/Compiler/DoctrineCompilerPass.php:46-58 | A worker listing `em`'s ping finalizer leaves its own decorator under `em`'s decorator id. |
| `DoctrinePass.DecoratorsLastWins` | src/DependencyInjection/Compiler/DoctrineCompilerPass.php:45-59 | When several workers list the same ping finalizer, the decorator left is the last such worker's. |
| `DoctrinePass.NothingButDecorators` | src/DependencyInjection/Compiler/DoctrineCompilerPass.php:45-59 | The decorator loops write decorator ids only. |
| `DoctrinePass.NoDecoratorUnlisted` | src/DependencyInjection/Compiler/DoctrineCompilerPass.php:47-49 | No worker listing `em`'s ping finalizer means nothing is written under `em`'s decorator id. |
| `DoctrinePass.DecoratorShape` | src/DependencyInjection/Compiler/DoctrineCompilerPass.php:51-57 | A decorator decorates the worker's exception interceptor, renamed `temporal.exception_interceptor.inner`. Its args are `[Reference(<interceptor>.inner), Reference(finalizer)]`. The inner reference names the renamed service iff the worker keeps the default interceptor. |
| `DoctrinePass.UnavailableChangesNothing` | src/DependencyInjection/Compiler/DoctrineCompilerPass.php:18-20 | Without doctrine/orm the container is unchanged. |
| `DoctrinePass.PingFinalizerRegistered` | src/DependencyInjection/Compiler/DoctrineCompilerPass.php:26-35 | After the pass, each entity manager `<em>` has `temporal.doctrine_ping_connection_<em>.finalizer`. It is a ping finalizer with args `[Reference('doctrine'), em]`, tagged `temporal.finalizer` and not decorating. |
| `DoctrinePass.DecoratorRegistered` | src/DependencyInjection/Compiler/DoctrineCompilerPass.php:45-57 | When worker `i` is the last to list `<em>`'s ping finalizer, `temporal_doctrine_ping_connection_<em>.interceptor` is worker `i`'s decorator. |
| `DoctrinePass.NoDecoratorWithoutListing` | src/DependencyInjection/Compiler/DoctrineCompilerPass.php:47-49 | A name whose ping finalizer no worker lists gets no decorator: its decorator id is left as it was. |
| `DoctrinePass.OtherIdsUnchanged` | src/DependencyInjection/Compiler/DoctrineCompilerPass.php:16-60 | Ids that are neither ping finalizers nor decorators keep their definition and alias. |
| `SentryPass.Process` | src/DependencyInjection/Compiler/SentryCompilerPass.php:29-64 | The pass asks `InstalledVersions` whether sentry/sentry-symfony is available, then registers per its specification. |
| `SentryPass.ExactlyThree` | src/DependencyInjection/Compiler/SentryCompilerPass.php:31-63 | When the package is available and the hub or the client options are known, the pass defines exactly the stack-trace builder and the two interceptors and changes no other id. Otherwise the container is unchanged. |
| `SentryPass.InterceptorsShareBuilder` | src/DependencyInjection/Compiler/SentryCompilerPass.php:40-63 | Both interceptors receive `[Reference(Hub), Reference(temporal.sentry_stack_trace_builder)]`. The builder takes the client options. |
| `SentryPass.HubMayBeMissing` | src/DependencyInjection/Compiler/SentryCompilerPass.php:35-37 | With client options but no hub, the interceptors are still registered, referring to a hub the container lacks. |
| `Versions.InstalledVersions.constructor` | src/InstalledVersions.php:26 | The handler slot starts out empty. |
| `Versions.InstalledVersions.SetHandler` | src/InstalledVersions.php:32-52 | `setHandler` overwrites only the slot. Afterwards `willBeAvailable` answers with the handler, arguments unchanged, or with Symfony's check after `setHandler(null)`. |
| `ChainFinalizer.FirstFailure` | src/Finalizer/ChainFinalizer.php:19-21 | The position of the first finalizer that throws: every finalizer before it succeeds. |
| `ChainFinalizer.ChainFinalizer.constructor` | src/Finalizer/ChainFinalizer.php:12-14 | The chain keeps the finalizers it is given, fixed from then on. |
| `ChainFinalizer.ChainFinalizer.Finalize` | src/Finalizer/ChainFinalizer.php:17-22 | `finalize` calls the finalizers in order, each once, up to and including the first that throws, and then throws that exception. An empty chain calls nothing. The chain is fixed, so repeated runs make the same calls. |
| `ChainFinalizer.FirstFailureAt` | src/Finalizer/ChainFinalizer.php:19-21 | The first failure is at `i` when all before `i` succeed and `i` throws or is the end. |
| `ChainFinalizer.AllSucceed` | src/Finalizer/ChainFinalizer.php:17-22 | When no finalizer throws, every one is called. |
| `ChainFinalizer.StopsAtFailure` | src/Finalizer/ChainFinalizer.php:19-21 | When finalizer `i` is the first to throw, the calls stop right after it. |
| `PingConnectionFinalizer.DoctrinePingConnectionFinalizer.constructor` | src/Finalizer/DoctrinePingConnectionFinalizer.php:21-25 | The finalizer keeps the entity-manager name. |
| `PingConnectionFinalizer.DoctrinePingConnectionFinalizer.Finalize` | src/Finalizer/DoctrinePingConnectionFinalizer.php:31-55 | A lookup throwing `InvalidArgumentException`, or returning something other than an entity manager, ends `finalize` quietly. Close and connect happen iff the ping throws a DBAL exception. A non-DBAL ping failure leaves after the ping, and a failing `connect` leaves right after it. When control reaches the open test, the calls are the lookup, the connection, the ping, close and connect if the ping failed, `isOpen`, then `resetManager(name)` iff the manager is closed, and nothing is thrown. |
| `SentryExceptionInterceptor.IsRetryable` | src/ExceptionInterceptor/SentryExceptionInterceptor.php:24-33 | Capture comes first and the inner interceptor last, each exactly once. A failed capture is logged once and swallowed. The result is the inner answer about the original exception, or about the capture's exception after a failed capture. |
| `PingConnectionExceptionInterceptor.IsRetryable` | src/ExceptionInterceptor/DoctrinePingConnectionExceptionInterceptor.php:30-41 | The finalizer runs only for an `EntityManagerClosed`. Its failure is logged and swallowed. The inner interceptor is asked once, last, and its result is returned unchanged. After a failed finalize it is asked about the finalizer's exception. |
| `DoctrineActivityInbound.HandleActivityInbound` | src/Interceptor/DoctrineActivityInboundInterceptor.php:32-45 | `next` is called once, first, with the input unchanged. Success returns its result. An `EntityManagerClosed` or driver failure calls the finalizer once and rethrows the same exception, or the finalizer's own exception if it throws. Any other failure is rethrown without finalizing. |
| `DoctrineWorkflowPanic.Panic` | src/Interceptor/DoctrineWorkflowPanicInterceptor.php:30-37 | `isRetryable` is asked only for an `EntityManagerClosed` failure, and its answer is ignored. `next` is called once with the input, and its result is returned. |
| `SentryActivityInbound.HandleActivityInbound` | src/Interceptor/SentryActivityInboundInterceptor.php:38-67 | `next` is called once, and a result is returned. On failure the stack trace is built, then one event is captured with a hint holding the same exception, and that exception is rethrown. If the builder or the capture throws, the report stops there and its exception leaves instead. |
| `SentryActivityInbound.ActivityEventContents` | src/Interceptor/SentryActivityInboundInterceptor.php:45-57 | The event carries the failure and both an `Activity` context (with the input headers) and a `Workflow` context. |
| `SentryOutboundCalls.ReportError` | src/Interceptor/SentryWorkflowOutboundCallsInterceptor.php:64-88 | A report builds the stack trace, decodes the input values, and captures one event. The event holds the workflow context and an `Args` extra with the decoded values, in order. The report stops at the first call that throws: the builder, then the decoding in `getValues()`, then the capture. It ends with that call's exception. |
| `SentryOutboundCalls.Panic` | src/Interceptor/SentryWorkflowOutboundCallsInterceptor.php:37-48 | `panic` reports only a non-null failure. A report that throws, including by a decoding failure, ends `panic` with that exception, and `next` is skipped. Otherwise `next` is called last and its result returned. |
| `SentryOutboundCalls.Complete` | src/Interceptor/SentryWorkflowOutboundCallsInterceptor.php:51-62 | `complete` follows the same gating as `panic`. |
| `SentryOutboundCalls.GatedReportsOnce` | src/Interceptor/SentryWorkflowOutboundCallsInterceptor.php:37-88 | A null failure reports nothing, and `next` decides the result. With a failure, at most one event is captured, with that failure and the decoded input values. A throwing builder or decoding leaves only the builder call, and a decoding failure is the result. `next` runs, last, exactly when the report did not throw. |
| `SentryWorkflowPanic.FirstBadRead` | src/Interceptor/SentryWorkflowPanicInterceptor.php:81-89 | The first position whose `getValue` read-back throws, or the length: every earlier read returns, and the read at that position throws. |
| `SentryWorkflowPanic.Request` | src/Interceptor/SentryWorkflowPanicInterceptor.php:78-89 | Once every read-back returns: one entry per input value, keyed `<position> parameter`, holding the value read back. An object is read back with the array type, any other value with the any type. |
| `SentryWorkflowPanic.ReportError` | src/Interceptor/SentryWorkflowPanicInterceptor.php:65-96 | The loop fills the request map, then captures one event carrying it. The report stops at the first call that throws: the builder, then `getValues()`, then the first throwing `getValue`, then the capture. It ends with that call's exception, and no event is captured when a decoding throws. |
| `SentryWorkflowPanic.Panic` | src/Interceptor/SentryWorkflowPanicInterceptor.php:38-49 | `panic` reports only a non-null failure. A report that throws, including by a decoding failure, ends `panic` with that exception, and `next` is skipped. Otherwise it returns `next(input)`. |
| `SentryWorkflowPanic.Complete` | src/Interceptor/SentryWorkflowPanicInterceptor.php:52-63 | `complete` follows the same gating as `panic`. |
| `SentryWorkflowPanic.RequestKeys` | src/Interceptor/SentryWorkflowPanicInterceptor.php:81-89 | When every read-back returns, the request map has one entry per value under pairwise different keys. Objects are read as arrays. |
| `SentryWorkflowPanic.GatedReportsOnce` | src/Interceptor/SentryWorkflowPanicInterceptor.php:38-96 | A null failure reports nothing. With a failure, at most one event is captured, carrying the request map. A throwing builder or decoding leaves only the builder call. A decoding failure of `getValues()`, or of the first failing `getValue`, is then the report's exception. `next` runs, last, exactly when the report did not throw, and otherwise the report's exception is the result. |
| `DataConverter.Rethrown` | src/DataConverter/SymfonySerializerDataConverter.php:57-61 | A serializer exception becomes a `DataConverterException` with the same message and code. A result passes through. |
| `DataConverter.ToPayload` | src/DataConverter/SymfonySerializerDataConverter.php:41-68 | The metadata always maps the encoding key to `json/plain`. It records the class iff the value is an object, and holds nothing else. `PRESERVE_EMPTY_OBJECTS` is set iff the class starts with `Temporal\`. Serializer failures are rethrown. |
| `DataConverter.FromPayload` | src/DataConverter/SymfonySerializerDataConverter.php:70-88 | `"null"` with a nullable type gives null. A non-class type whose recorded class is missing or `""` goes to the wrapped converter. Otherwise the payload is deserialized into the recorded class (`""` included, for a class type), else the type's name, with failures rethrown. |
| `DataConverter.ObjectRoundTrip` | src/DataConverter/SymfonySerializerDataConverter.php:41-88 | Decoding what `toPayload` made of an object targets that object's class, whatever type is requested. |
| `DataConverter.ScalarRoundTrip` | src/DataConverter/SymfonySerializerDataConverter.php:41-88 | A non-object decoded for a non-class type goes to the wrapped converter. |
| `Runtime.Runtime.constructor` | src/Runtime/Runtime.php:23-27 | The runtime keeps the factory and the workers, and counts the workers. |
| `Runtime.Runtime.Run` | src/Runtime/Runtime.php:31-39 | `run` calls the factory's `run` exactly once and leaves the count unchanged. |
| `Environment.PutAt` | src/Environment.php:16 | Setting a key gives it the new value and keeps every other key's value. |
| `Environment.SpreadAt` | src/Environment.php:16 | Spreading an array overrides exactly its own keys. |
| `Environment.CreatePrecedence` | src/Environment.php:14-17 | The result has exactly the keys of `$_ENV`, `$_SERVER` and `with`. `with` wins over both and `$_SERVER` over `$_ENV`. A key that does not collide keeps its value. |
| `Environment.CreateUnique` | src/Environment.php:14-17 | The merged environment lists each key once. |
| `Environment.RoadRunnerRpcWins` | src/Environment.php:16 | The pool's `RR_RPC` override always reaches the RoadRunner environment. |

## Left out

- **Collaborator calls.** The Symfony container internals, Doctrine, the
  Sentry SDK, the Symfony serializer and the Temporal SDK are not modelled.
  Their behaviour is a parameter: what they return or throw.
  - `Workflow::getInfo`, `Activity::getInfo` and `Workflow::getInput` are
    parameters holding what they return. They are taken not to throw, since
    the interceptors run inside a workflow or an activity. Decoding the input
    is not among them: `getValues()` and `getValue($key, $type)` are
    outcomes, and a decoding exception ends the Sentry report.
  - `ContainerBuilder::willBeAvailable` is the `fallback` of
    `InstalledVersions`, or the `available` flag of the Doctrine pass.
  - `method_exists(WorkerOptions::class, …)` is a parameter `hasMethod`.
  - `class_implements` is a parameter `implementsFactory`.
  - `DateInterval::createFromDateString` is a parameter `parse`.
- **Helpers whose bodies are not part of this model.** `grpcClient($client)`
  is a parameter `transport`, so the `createSSL` (five arguments) versus
  `create` (one argument) choice it makes is not stated. `dateIntervalDefinition`
  is an uninterpreted `IntervalOf`. `reference` and `referenceLogger` are
  plain references.
- `Container.ContainerBuilder.RegisterAliasForArgument`: Symfony camel-cases
  the argument name. The model keeps the name as given: `<name>WorkflowClient`,
  `<name>ScheduleClient`.
- **Name comparisons.** Three tests compare names loosely:
  `$name == $config['defaultClient']` (ClientCompilerPass.php:55, and the same
  for schedule clients), and `in_array($workerName, $workerNames)` without
  the strict flag (WorkflowCompilerPass.php:121 and :142). All three are
  modelled as string equality and string membership. A numeric-looking
  worker or client name such as `1` becomes an integer key of the PHP array,
  and loose comparison can then equate it with other spellings (`"01"`,
  `"1.0"`). The model keeps every name as a string and does not model either
  effect.
- **Tagged services.** `findTaggedServiceIds` is given as an input list of
  `(id, class, attributes, workers)`. The attribute reflection in
  `TemporalExtension` is not modelled, so neither is the fact that it writes
  the tag key `worker` (one string) while the pass reads `workers`.
- **Framework registration.** `config/service.php`, `TemporalBundle`,
  `TemporalRuntime`, `TemporalRunner`, the empty `TemporalCollector` and the
  CLI debug commands are not modelled. Note that `ScheduleClientCompilerPass`
  is not among the passes `TemporalBundle` adds.
- `DoctrineClearEntityManagerFinalizer` is not modelled: a single
  pass-through loop over Doctrine's registry.
- **Floats.** The rate-limit keys are floats and are carried as opaque
  values.
- `Configuration.IntervalValueRejected`: a float written for an interval key
  is counted as rejected. PHP would hand the closure the float's text, which
  this model does not produce.
- `Configuration.ResolveWorker`: `taskQueue`, `exceptionInterceptor` and the
  entries of `finalizers` and `interceptors` must be strings. Symfony's
  scalar nodes also accept integers, floats and booleans there, which the
  model rejects.
- `Configuration.ResolveWorker`: a mapping written for `finalizers` or
  `interceptors` keeps its keys in Symfony, and the `array_map` calls at
  src/DependencyInjection/Compiler/WorkflowCompilerPass.php:102 and :220
  keep them in the arguments they build. The model keeps only the values, in
  order.
- `Configuration.WorkerError`: Symfony's unrecognised-option message lists
  every undeclared key. The model names the first one written.
- `Configuration.ResolveWorkers`: when several entries are refused, the
  model reports the first refused entry's error. Symfony normalizes the
  whole tree before it finalizes anything. So a type or unrecognised-option
  error in a later entry wins over a finalize-time error in an earlier one,
  such as a missing `taskQueue`.
- `Configuration.ResolveWorker`: a null written for `finalizers` or
  `interceptors` is rejected. Symfony reads it as an empty list.
- `Configuration.ResolveWorker`: a null written for `enableSessionWorker` is
  rejected. Symfony's boolean node reads it as true.
- `Configuration.ResolveWorker`: an integer written for a float key is kept
  as that integer. Symfony casts it to a float.
- `Environment.RoadRunnerRpcWins`: the lemma covers a string `RR_RPC`
  value only. When `pool.roadrunnerRPC` is absent the pass hands
  `Environment::create` a null under `RR_RPC`. That goes against the
  `array<non-empty-string, non-empty-string>` its docblock declares at
  src/Environment.php:12, and what PHP then does with the null is not
  modelled.
- `Configuration.ResolveClient`: `namespace`, `address`, `dataConverter`,
  `clientKey` and `clientPem` are taken as strings. Other scalars written
  there are not modelled.
- `Configuration.ResolveClient`: `grpcContext.options`, `grpcContext.metadata`,
  `backoff_coefficient`, `maximumAttempts` and `nonRetryableExceptions` are
  not carried, and neither are the retry intervals once validated. No pass
  reads them except through the `grpcClient` helper, which is not part of
  this model.
- `WorkflowPass.ChainRegistered`: the logger argument given to
  `ChainFinalizer` is recorded as a reference only. Its use is not modelled,
  since the constructor does not declare it.
- **Ids from tests.** The ids some tests expect but the code never registers
  are not modelled. The model registers the ids the code registers.
- **Integer keys in `Environment`.** Spreading renumbers integer keys. The
  model has string keys only, as the environment arrays have.
- `PingConnectionFinalizer.DoctrinePingConnectionFinalizer.Finalize`: `close`
  and `resetManager` are taken not to throw.
- **Logger output.** A logger call is recorded as a call with its message and
  exception. What the logger does with it is not modelled.
- **Event bodies.** Sentry event and stack-trace construction are reduced to
  the fields the interceptors set.
