/**
 * The schedule-client compiler pass: one `ScheduleClientInterface` service
 * per configured schedule client, aliased like the workflow clients, plus a
 * summary record per client that goes both to the schedule-client debug
 * command and to the collector's `$scheduleClients` argument.
 */
module ScheduleClientPass {
  import opened Wrappers
  import opened Definitions
  import opened Container
  import opened Configuration
  import opened ClientLoop
  import WorkflowPass

  const ScheduleClientInterface := "Temporal\\Client\\ScheduleClientInterface"
  const ScheduleClientClass := "Temporal\\Client\\ScheduleClient"
  const DebugId := "temporal.schedule_client_debug.command"
  const DebugClass := "Vanta\\Integration\\Symfony\\Temporal\\UI\\Cli\\ScheduleClientDebugCommand"

  function ScheduleClientId(name: string): string {
    "temporal." + name + ".schedule_client"
  }

  /** Argument aliases read `"ScheduleClientInterface $<name>ScheduleClient"`. */
  const ScheduleNaming := Naming(ScheduleClientInterface, "ScheduleClient")

  /** `withQueryRejectionCondition` is passed whenever the key is present, 0 included. */
  method BuildOptions(c: Client) returns (options: Definition)
    ensures options == OptionsDefinition(c.namespace, c.identity, c.queryRejectionCondition)
  {
    options := NewDefinition(Some(ClientOptionsClass), []);
    options := options.AddCall(MethodCall("withNamespace", [Str(c.namespace)], true));
    if c.identity.Some? && Truthy(c.identity.value) {
      options := options.AddCall(MethodCall("withIdentity", [c.identity.value], true));
    }
    if c.queryRejectionCondition.Some? {
      options := options.AddCall(MethodCall("withQueryRejectionCondition", [c.queryRejectionCondition.value], true));
    }
  }

  /** `transport` stands for the `grpcClient($client)` helper. */
  function ScheduleClientDefinition(c: Client, options: Definition, transport: Client -> Definition): Definition {
    Registered(ScheduleClientInterface)
      .WithFactory(Str(ScheduleClientClass), "create")
      .WithNamed("$serviceClient", Inline(transport(c)))
      .WithNamed("$options", Inline(options))
      .WithNamed("$converter", Ref(c.dataConverter))
  }

  function ScheduleOptions(c: Client): Definition {
    OptionsDefinition(c.namespace, c.identity, c.queryRejectionCondition)
  }

  function ScheduleEntryOf(name: string, c: Client, transport: Client -> Definition): ClientEntry {
    ClientEntry(name, ScheduleClientId(name), ScheduleClientDefinition(c, ScheduleOptions(c), transport))
  }

  function ScheduleEntries(clients: seq<(string, Client)>, transport: Client -> Definition): (r: seq<ClientEntry>)
    ensures |r| == |clients| && forall i :: 0 <= i < |clients| ==> r[i] == ScheduleEntryOf(clients[i].0, clients[i].1, transport)
  {
    seq(|clients|, i requires 0 <= i < |clients| => ScheduleEntryOf(clients[i].0, clients[i].1, transport))
  }

  /** The record `$clients[]` receives for one entry. */
  function Summary(name: string, c: Client): Value {
    Dict([("id", Str(ScheduleClientId(name))), ("name", Str(name)), ("options", Inline(ScheduleOptions(c))),
          ("dataConverter", Str(c.dataConverter)), ("address", Str(c.address))])
  }

  function Summaries(clients: seq<(string, Client)>): (r: seq<Value>)
    ensures |r| == |clients| && forall i :: 0 <= i < |clients| ==> r[i] == Summary(clients[i].0, clients[i].1)
  {
    seq(|clients|, i requires 0 <= i < |clients| => Summary(clients[i].0, clients[i].1))
  }

  function DebugDefinition(summaries: seq<Value>): Definition {
    Registered(DebugClass).WithNamed("$clients", List(summaries)).AddTag("console.command")
  }

  /** After the loop: the debug command, then the collector's `$scheduleClients`. */
  function Finish(looped: Snapshot, summaries: seq<Value>): Snapshot {
    looped.Register(DebugId, DebugDefinition(summaries))
          .SetArgument(WorkflowPass.CollectorId, "$scheduleClients", List(summaries))
  }

  function ScheduleClientsPass(s: Snapshot, cfg: Config, transport: Client -> Definition): Snapshot {
    Finish(EntriesPass(s, ScheduleNaming, cfg.defaultScheduleClient, ScheduleEntries(cfg.scheduleClients, transport)),
           Summaries(cfg.scheduleClients))
  }

  lemma ScheduleClientIdInjective(a: string, b: string)
    ensures ScheduleClientId(a) == ScheduleClientId(b) ==> a == b
  {
    if ScheduleClientId(a) == ScheduleClientId(b) {
      assert |a| == |b|;
      assert a == ScheduleClientId(a)[9..9 + |a|];
      assert b == ScheduleClientId(b)[9..9 + |b|];
    }
  }

  /** Distinct names give distinct ids, all apart from the aliases. */
  lemma ScheduleEntriesWellFormed(clients: seq<(string, Client)>, transport: Client -> Definition)
    requires DistinctNames(clients)
    ensures Separated(ScheduleNaming, ScheduleEntries(clients, transport))
    ensures DistinctEntries(ScheduleEntries(clients, transport))
  {
    var entries := ScheduleEntries(clients, transport);
    forall i | 0 <= i < |entries| ensures |entries[i].id| > 0 && entries[i].id[0] == 't' {
      assert entries[i].id == ScheduleClientId(clients[i].0);
    }
    forall i, j | 0 <= i < j < |entries| ensures entries[i].name != entries[j].name && entries[i].id != entries[j].id {
      ScheduleClientIdInjective(clients[i].0, clients[j].0);
    }
  }

  /** The client loop writes neither the collector nor the debug command. */
  lemma LoopLeavesFixedIds(clients: seq<(string, Client)>, transport: Client -> Definition)
    ensures !Touched(ScheduleNaming, ScheduleEntries(clients, transport), WorkflowPass.CollectorId)
    ensures !Touched(ScheduleNaming, ScheduleEntries(clients, transport), DebugId)
  {
    var entries := ScheduleEntries(clients, transport);
    forall i | 0 <= i < |entries|
      ensures WorkflowPass.CollectorId != entries[i].id && WorkflowPass.CollectorId != ForArgument(ScheduleNaming, entries[i].name)
      ensures DebugId != entries[i].id && DebugId != ForArgument(ScheduleNaming, entries[i].name)
    {
      assert entries[i].id == ScheduleClientId(clients[i].0);
      assert ForArgument(ScheduleNaming, entries[i].name)[0] == 'T';
      var id := entries[i].id;
      assert id[|id| - 1] == 't';
    }
  }

  /** The `Summaries` of one more entry. */
  lemma SummariesStep(clients: seq<(string, Client)>, i: nat)
    requires i < |clients|
    ensures Summaries(clients[..i + 1]) == Summaries(clients[..i]) + [Summary(clients[i].0, clients[i].1)]
  {
    assert clients[..i + 1][..i] == clients[..i];
  }

  /** The loop over `scheduleClients`, returning the `$clients` list it builds. */
  method RegisterScheduleClients(c: ContainerBuilder, cfg: Config, transport: Client -> Definition)
    returns (clients: seq<Value>)
    modifies c
    ensures c.State()
         == EntriesPass(old(c.State()), ScheduleNaming, cfg.defaultScheduleClient, ScheduleEntries(cfg.scheduleClients, transport))
    ensures clients == Summaries(cfg.scheduleClients)
  {
    ghost var entries := ScheduleEntries(cfg.scheduleClients, transport);
    clients := [];
    var i := 0;
    while i < |cfg.scheduleClients|
      invariant 0 <= i <= |cfg.scheduleClients|
      invariant c.State() == EntriesPass(old(c.State()), ScheduleNaming, cfg.defaultScheduleClient, entries[..i])
      invariant clients == Summaries(cfg.scheduleClients[..i])
    {
      var (name, client) := cfg.scheduleClients[i];
      EntriesPassStep(old(c.State()), ScheduleNaming, cfg.defaultScheduleClient, entries, i);
      SummariesStep(cfg.scheduleClients, i);
      var options := BuildOptions(client);
      var id := ScheduleClientId(name);
      assert id[0] == 't';
      RegisterClient(c, ScheduleNaming, cfg.defaultScheduleClient,
                     ClientEntry(name, id, ScheduleClientDefinition(client, options, transport)));
      clients := clients + [Dict([("id", Str(id)), ("name", Str(name)), ("options", Inline(options)),
                                  ("dataConverter", Str(client.dataConverter)), ("address", Str(client.address))])];
      i := i + 1;
    }
    assert entries[..i] == entries;
    assert cfg.scheduleClients[..i] == cfg.scheduleClients;
  }

  /** `getDefinition('temporal.collector')` fails unless the collector is registered. */
  method Process(c: ContainerBuilder, cfg: Config, transport: Client -> Definition)
    requires WorkflowPass.CollectorId in c.definitions
    modifies c
    ensures c.State() == ScheduleClientsPass(old(c.State()), cfg, transport)
  {
    ghost var s0 := c.State();
    ghost var entries := ScheduleEntries(cfg.scheduleClients, transport);
    var clients := RegisterScheduleClients(c, cfg, transport);
    c.Register(DebugId, Registered(DebugClass).WithNamed("$clients", List(clients)).AddTag("console.command"));
    LoopLeavesFixedIds(cfg.scheduleClients, transport);
    ScheduleEntriesSeparated(cfg.scheduleClients, transport);
    EntriesFrame(s0, ScheduleNaming, cfg.defaultScheduleClient, entries, WorkflowPass.CollectorId);
    c.SetArgument(WorkflowPass.CollectorId, "$scheduleClients", List(clients));
  }

  /** Every generated id begins with `t`, whatever the names. */
  lemma ScheduleEntriesSeparated(clients: seq<(string, Client)>, transport: Client -> Definition)
    ensures Separated(ScheduleNaming, ScheduleEntries(clients, transport))
  {
    var entries := ScheduleEntries(clients, transport);
    forall i | 0 <= i < |entries| ensures |entries[i].id| > 0 && entries[i].id[0] == 't' {
      assert entries[i].id == ScheduleClientId(clients[i].0);
    }
  }

  // ---------------------------------------------------------------- properties

  /** The pass's last two steps leave every other id as the loop left it. */
  lemma FinishElsewhere(s: Snapshot, summaries: seq<Value>, id: string)
    requires id != DebugId && id != WorkflowPass.CollectorId
    ensures var r := Finish(s, summaries);
      && (id in r.definitions <==> id in s.definitions) && (id in s.definitions ==> r.definitions[id] == s.definitions[id])
      && (id in r.aliases <==> id in s.aliases) && (id in s.aliases ==> r.aliases[id] == s.aliases[id])
  {
  }

  /**
   * A schedule client: a `ScheduleClientInterface` from `ScheduleClient::create`
   * with exactly three named arguments, the entry's `grpcClient` transport,
   * its options and a reference to its data converter.
   */
  lemma ScheduleClientShape(c: Client, options: Definition, transport: Client -> Definition)
    ensures var d := ScheduleClientDefinition(c, options, transport);
      && d.className == Some(ScheduleClientInterface)
      && d.factory == Some(Factory(Str(ScheduleClientClass), "create"))
      && d.args == [] && d.calls == [] && d.tags == [] && !d.public
      && d.named.Keys == {"$serviceClient", "$options", "$converter"}
      && d.named["$serviceClient"] == Inline(transport(c))
      && d.named["$options"] == Inline(options)
      && d.named["$converter"] == Ref(c.dataConverter)
  {
  }

  /** Each entry `<name>` ends up as the service `temporal.<name>.schedule_client`, built from that entry. */
  lemma ScheduleClientRegistered(s: Snapshot, cfg: Config, transport: Client -> Definition, i: nat)
    requires DistinctNames(cfg.scheduleClients) && i < |cfg.scheduleClients|
    ensures var r := ScheduleClientsPass(s, cfg, transport);
      var id := ScheduleClientId(cfg.scheduleClients[i].0);
      var c := cfg.scheduleClients[i].1;
      id in r.definitions && r.definitions[id] == ScheduleClientDefinition(c, ScheduleOptions(c), transport)
  {
    var entries := ScheduleEntries(cfg.scheduleClients, transport);
    var looped := EntriesPass(s, ScheduleNaming, cfg.defaultScheduleClient, entries);
    ScheduleEntriesWellFormed(cfg.scheduleClients, transport);
    EntryRegistered(s, ScheduleNaming, cfg.defaultScheduleClient, entries, i);
    assert entries[i].id[|entries[i].id| - 1] == 't';
    FinishElsewhere(looped, Summaries(cfg.scheduleClients), entries[i].id);
  }

  /**
   * A schedule client's options: `withNamespace` first, `withIdentity` iff the
   * identity is truthy, and `withQueryRejectionCondition` whenever a
   * condition is configured, 0 included.
   */
  lemma ScheduleOptionsChain(c: Client)
    ensures var r := ScheduleOptions(c);
      && |r.calls| > 0 && r.calls[0] == MethodCall("withNamespace", [Str(c.namespace)], true)
      && (forall k :: 0 <= k < |r.calls| ==> r.calls[k].returnsClone && |r.calls[k].args| == 1)
      && (HasCall(r, "withIdentity") <==> Given(c.identity))
      && (HasCall(r, "withQueryRejectionCondition") <==> c.queryRejectionCondition.Some?)
      && (forall k :: 0 <= k < |r.calls| && r.calls[k].name == "withQueryRejectionCondition" ==>
            r.calls[k].args == [c.queryRejectionCondition.GetOr(Null)])
  {
    OptionsChain(c.namespace, c.identity, c.queryRejectionCondition);
  }

  /** Each entry `<name>` gets the argument alias `ScheduleClientInterface $<name>ScheduleClient`. */
  lemma ScheduleClientAliasedForArgument(s: Snapshot, cfg: Config, transport: Client -> Definition, i: nat)
    requires DistinctNames(cfg.scheduleClients) && i < |cfg.scheduleClients|
    ensures var r := ScheduleClientsPass(s, cfg, transport);
      var alias := ArgumentAlias(ScheduleClientInterface, cfg.scheduleClients[i].0 + "ScheduleClient");
      alias in r.aliases && r.aliases[alias] == ScheduleClientId(cfg.scheduleClients[i].0)
  {
    var entries := ScheduleEntries(cfg.scheduleClients, transport);
    var looped := EntriesPass(s, ScheduleNaming, cfg.defaultScheduleClient, entries);
    ScheduleEntriesWellFormed(cfg.scheduleClients, transport);
    EntryAliasedForArgument(s, ScheduleNaming, cfg.defaultScheduleClient, entries, i);
    var alias := ForArgument(ScheduleNaming, entries[i].name);
    assert alias[0] == 'T';
    FinishElsewhere(looped, Summaries(cfg.scheduleClients), alias);
  }

  /**
   * `ScheduleClientInterface` aliases `temporal.<defaultScheduleClient>.schedule_client`
   * when an entry carries that name.
   */
  lemma DefaultScheduleClientAliased(s: Snapshot, cfg: Config, transport: Client -> Definition, i: nat)
    requires DistinctNames(cfg.scheduleClients) && i < |cfg.scheduleClients|
    requires cfg.scheduleClients[i].0 == cfg.defaultScheduleClient
    ensures var r := ScheduleClientsPass(s, cfg, transport);
      ScheduleClientInterface in r.aliases && r.aliases[ScheduleClientInterface] == ScheduleClientId(cfg.defaultScheduleClient)
  {
    var entries := ScheduleEntries(cfg.scheduleClients, transport);
    ScheduleEntriesWellFormed(cfg.scheduleClients, transport);
    DefaultAliasSet(s, ScheduleNaming, cfg.defaultScheduleClient, entries, i);
    FinishElsewhere(EntriesPass(s, ScheduleNaming, cfg.defaultScheduleClient, entries), Summaries(cfg.scheduleClients),
                    ScheduleClientInterface);
  }

  /** When no entry carries the name `defaultScheduleClient`, the interface alias is left as it was. */
  lemma DefaultScheduleClientMissing(s: Snapshot, cfg: Config, transport: Client -> Definition)
    requires forall i :: 0 <= i < |cfg.scheduleClients| ==> cfg.scheduleClients[i].0 != cfg.defaultScheduleClient
    ensures var r := ScheduleClientsPass(s, cfg, transport);
      && (ScheduleClientInterface in r.aliases <==> ScheduleClientInterface in s.aliases)
      && (ScheduleClientInterface in s.aliases ==> r.aliases[ScheduleClientInterface] == s.aliases[ScheduleClientInterface])
  {
    var entries := ScheduleEntries(cfg.scheduleClients, transport);
    ScheduleEntriesSeparated(cfg.scheduleClients, transport);
    assert !NamesDefault(entries, cfg.defaultScheduleClient);
    DefaultAliasKept(s, ScheduleNaming, cfg.defaultScheduleClient, entries);
    FinishElsewhere(EntriesPass(s, ScheduleNaming, cfg.defaultScheduleClient, entries), Summaries(cfg.scheduleClients),
                    ScheduleClientInterface);
  }

  /**
   * The debug command, tagged `console.command`, receives the summary list:
   * one `{id, name, options, dataConverter, address}` record per entry, in
   * configuration order (the contract of `Summaries`).
   */
  lemma DebugCommandRegistered(s: Snapshot, cfg: Config, transport: Client -> Definition)
    ensures var r := ScheduleClientsPass(s, cfg, transport);
      && DebugId in r.definitions
      && r.definitions[DebugId].className == Some(DebugClass)
      && r.definitions[DebugId].named == map["$clients" := List(Summaries(cfg.scheduleClients))]
      && r.definitions[DebugId].HasTag("console.command")
  {
    assert DebugDefinition(Summaries(cfg.scheduleClients)).tags[0].name == "console.command";
  }

  /** The collector's `$scheduleClients` receives that same list, and the collector keeps everything else it had. */
  lemma CollectorReceivesSummaries(s: Snapshot, cfg: Config, transport: Client -> Definition)
    requires WorkflowPass.CollectorId in s.definitions
    ensures var r := ScheduleClientsPass(s, cfg, transport);
      && WorkflowPass.CollectorId in r.definitions
      && r.definitions[WorkflowPass.CollectorId]
         == s.definitions[WorkflowPass.CollectorId].WithNamed("$scheduleClients", List(Summaries(cfg.scheduleClients)))
  {
    var entries := ScheduleEntries(cfg.scheduleClients, transport);
    LoopLeavesFixedIds(cfg.scheduleClients, transport);
    ScheduleEntriesSeparated(cfg.scheduleClients, transport);
    EntriesFrame(s, ScheduleNaming, cfg.defaultScheduleClient, entries, WorkflowPass.CollectorId);
  }
}
