/**
 * The workflow-client compiler pass: one `WorkflowClientInterface` service
 * per configured client, built by `WorkflowClient::create` from a plain gRPC
 * service client, a `ClientOptions` chain and the client's data converter;
 * the default client is aliased by the interface name and every client gets
 * an argument alias `<name>WorkflowClient`.
 */
module ClientPass {
  import opened Wrappers
  import opened Definitions
  import opened Container
  import opened Configuration
  import opened ClientLoop

  const WorkflowClientInterface := "Temporal\\Client\\WorkflowClientInterface"
  const WorkflowClientClass := "Temporal\\Client\\WorkflowClient"
  const ServiceClientInterface := "Temporal\\Client\\GRPC\\ServiceClientInterface"
  const ServiceClientClass := "Temporal\\Client\\GRPC\\ServiceClient"

  function ClientId(name: string): string {
    "temporal." + name + ".client"
  }

  /** Argument aliases read `"WorkflowClientInterface $<name>WorkflowClient"`. */
  const ClientNaming := Naming(WorkflowClientInterface, "WorkflowClient")


  /** `withQueryRejectionCondition` is passed only when the condition is truthy: 0 is dropped. */
  function ClientCondition(c: Client): Option<Value> {
    if Given(c.queryRejectionCondition) then c.queryRejectionCondition else None
  }

  /** The options chain as the loop body builds it, one `addMethodCall` at a time. */
  method BuildOptions(c: Client) returns (options: Definition)
    ensures options == OptionsDefinition(c.namespace, c.identity, ClientCondition(c))
  {
    options := NewDefinition(Some(ClientOptionsClass), []);
    options := options.AddCall(MethodCall("withNamespace", [Str(c.namespace)], true));
    if c.identity.Some? && Truthy(c.identity.value) {
      options := options.AddCall(MethodCall("withIdentity", [c.identity.value], true));
    }
    if c.queryRejectionCondition.Some? && Truthy(c.queryRejectionCondition.value) {
      options := options.AddCall(MethodCall("withQueryRejectionCondition", [c.queryRejectionCondition.value], true));
    }
  }

  /** `ServiceClient::create($address)`: a plain connection. */
  function ServiceClientDefinition(address: string): Definition {
    NewDefinition(Some(ServiceClientInterface), [Str(address)]).WithFactory(Str(ServiceClientClass), "create")
  }

  function ClientDefinition(c: Client, options: Definition): Definition {
    Registered(WorkflowClientInterface)
      .WithFactory(Str(WorkflowClientClass), "create")
      .WithNamed("$serviceClient", Inline(ServiceClientDefinition(c.address)))
      .WithNamed("$options", Inline(options))
      .WithNamed("$converter", Ref(c.dataConverter))
  }

  /** What one entry `<name>` of the `clients` map turns into. */
  function ClientEntryOf(name: string, c: Client): ClientEntry {
    ClientEntry(name, ClientId(name), ClientDefinition(c, OptionsDefinition(c.namespace, c.identity, ClientCondition(c))))
  }

  function ClientEntries(clients: seq<(string, Client)>): (r: seq<ClientEntry>)
    ensures |r| == |clients| && forall i :: 0 <= i < |clients| ==> r[i] == ClientEntryOf(clients[i].0, clients[i].1)
  {
    seq(|clients|, i requires 0 <= i < |clients| => ClientEntryOf(clients[i].0, clients[i].1))
  }

  function ClientsPass(s: Snapshot, cfg: Config): Snapshot {
    EntriesPass(s, ClientNaming, cfg.defaultClient, ClientEntries(cfg.clients))
  }

  method Process(c: ContainerBuilder, cfg: Config)
    modifies c
    ensures c.State() == ClientsPass(old(c.State()), cfg)
  {
    ghost var entries := ClientEntries(cfg.clients);
    var i := 0;
    while i < |cfg.clients|
      invariant 0 <= i <= |cfg.clients|
      invariant c.State() == EntriesPass(old(c.State()), ClientNaming, cfg.defaultClient, entries[..i])
    {
      var (name, client) := cfg.clients[i];
      EntriesPassStep(old(c.State()), ClientNaming, cfg.defaultClient, entries, i);
      var options := BuildOptions(client);
      var id := ClientId(name);
      assert id[0] == 't';
      RegisterClient(c, ClientNaming, cfg.defaultClient, ClientEntry(name, id, ClientDefinition(client, options)));
      i := i + 1;
    }
    assert entries[..i] == entries;
  }

  // ---------------------------------------------------------------- properties

  lemma ClientIdInjective(a: string, b: string)
    ensures ClientId(a) == ClientId(b) ==> a == b
  {
    if ClientId(a) == ClientId(b) {
      assert |a| == |b|;
      assert a == ClientId(a)[9..9 + |a|];
      assert b == ClientId(b)[9..9 + |b|];
    }
  }

  /** Distinct names give distinct ids, all apart from the aliases. */
  lemma ClientEntriesWellFormed(clients: seq<(string, Client)>)
    requires DistinctNames(clients)
    ensures Separated(ClientNaming, ClientEntries(clients)) && DistinctEntries(ClientEntries(clients))
  {
    var entries := ClientEntries(clients);
    forall i | 0 <= i < |entries| ensures |entries[i].id| > 0 && entries[i].id[0] == 't' {
      assert entries[i].id == ClientId(clients[i].0);
    }
    forall i, j | 0 <= i < j < |entries| ensures entries[i].name != entries[j].name && entries[i].id != entries[j].id {
      ClientIdInjective(clients[i].0, clients[j].0);
    }
  }

  /**
   * A workflow client: a `WorkflowClientInterface` from `WorkflowClient::create`
   * with exactly three named arguments: a plain `ServiceClient::create(address)`
   * (no TLS, whatever key or certificate the entry configures), the options and
   * a reference to the entry's data converter.
   */
  lemma ClientShape(c: Client, options: Definition)
    ensures var d := ClientDefinition(c, options);
      && d.className == Some(WorkflowClientInterface)
      && d.factory == Some(Factory(Str(WorkflowClientClass), "create"))
      && d.args == [] && d.calls == [] && d.tags == [] && !d.public
      && d.named.Keys == {"$serviceClient", "$options", "$converter"}
      && d.named["$serviceClient"]
         == Inline(NewDefinition(Some(ServiceClientInterface), [Str(c.address)]).WithFactory(Str(ServiceClientClass), "create"))
      && d.named["$options"] == Inline(options)
      && d.named["$converter"] == Ref(c.dataConverter)
  {
  }

  /** Each entry `<name>` ends up as the service `temporal.<name>.client`, built from that entry. */
  lemma ClientRegistered(s: Snapshot, cfg: Config, i: nat)
    requires DistinctNames(cfg.clients) && i < |cfg.clients|
    ensures var r := ClientsPass(s, cfg);
      var id := ClientId(cfg.clients[i].0);
      var c := cfg.clients[i].1;
      id in r.definitions && r.definitions[id] == ClientDefinition(c, OptionsDefinition(c.namespace, c.identity, ClientCondition(c)))
  {
    ClientEntriesWellFormed(cfg.clients);
    EntryRegistered(s, ClientNaming, cfg.defaultClient, ClientEntries(cfg.clients), i);
  }

  /**
   * A workflow client's options: `withNamespace` first, `withIdentity` iff the
   * identity is truthy, `withQueryRejectionCondition` iff the condition is
   * truthy (so condition 0 is omitted), each a cloning setter with the
   * configured value.
   */
  lemma ClientOptions(c: Client)
    ensures var r := OptionsDefinition(c.namespace, c.identity, ClientCondition(c));
      && r.className == Some(ClientOptionsClass)
      && |r.calls| > 0 && r.calls[0] == MethodCall("withNamespace", [Str(c.namespace)], true)
      && (forall k :: 0 <= k < |r.calls| ==> r.calls[k].returnsClone && |r.calls[k].args| == 1)
      && (HasCall(r, "withIdentity") <==> Given(c.identity))
      && (forall k :: 0 <= k < |r.calls| && r.calls[k].name == "withIdentity" ==> r.calls[k].args == [c.identity.GetOr(Null)])
      && (HasCall(r, "withQueryRejectionCondition") <==> Given(c.queryRejectionCondition))
      && (forall k :: 0 <= k < |r.calls| && r.calls[k].name == "withQueryRejectionCondition" ==>
            r.calls[k].args == [c.queryRejectionCondition.GetOr(Null)])
  {
    OptionsChain(c.namespace, c.identity, ClientCondition(c));
  }

  /** Each entry `<name>` gets the argument alias `WorkflowClientInterface $<name>WorkflowClient`. */
  lemma ClientAliasedForArgument(s: Snapshot, cfg: Config, i: nat)
    requires DistinctNames(cfg.clients) && i < |cfg.clients|
    ensures var r := ClientsPass(s, cfg);
      var alias := ArgumentAlias(WorkflowClientInterface, cfg.clients[i].0 + "WorkflowClient");
      alias in r.aliases && r.aliases[alias] == ClientId(cfg.clients[i].0)
  {
    ClientEntriesWellFormed(cfg.clients);
    EntryAliasedForArgument(s, ClientNaming, cfg.defaultClient, ClientEntries(cfg.clients), i);
  }

  /** `WorkflowClientInterface` aliases `temporal.<defaultClient>.client` when a client carries that name. */
  lemma DefaultClientAliased(s: Snapshot, cfg: Config, i: nat)
    requires DistinctNames(cfg.clients) && i < |cfg.clients| && cfg.clients[i].0 == cfg.defaultClient
    ensures var r := ClientsPass(s, cfg);
      WorkflowClientInterface in r.aliases && r.aliases[WorkflowClientInterface] == ClientId(cfg.defaultClient)
  {
    ClientEntriesWellFormed(cfg.clients);
    DefaultAliasSet(s, ClientNaming, cfg.defaultClient, ClientEntries(cfg.clients), i);
  }

  /** When no client carries the name `defaultClient`, no alias is set and the interface id is left as it was. */
  lemma DefaultClientMissing(s: Snapshot, cfg: Config)
    requires forall i :: 0 <= i < |cfg.clients| ==> cfg.clients[i].0 != cfg.defaultClient
    ensures var r := ClientsPass(s, cfg);
      && (WorkflowClientInterface in r.aliases <==> WorkflowClientInterface in s.aliases)
      && (WorkflowClientInterface in s.aliases ==> r.aliases[WorkflowClientInterface] == s.aliases[WorkflowClientInterface])
      && (WorkflowClientInterface in r.definitions <==> WorkflowClientInterface in s.definitions)
  {
    var entries := ClientEntries(cfg.clients);
    ClientEntriesSeparated(cfg.clients);
    assert !NamesDefault(entries, cfg.defaultClient);
    DefaultAliasKept(s, ClientNaming, cfg.defaultClient, entries);
  }

  /** Every generated id begins with `t`, whatever the names. */
  lemma ClientEntriesSeparated(clients: seq<(string, Client)>)
    ensures Separated(ClientNaming, ClientEntries(clients))
  {
    var entries := ClientEntries(clients);
    forall i | 0 <= i < |entries| ensures |entries[i].id| > 0 && entries[i].id[0] == 't' {
      assert entries[i].id == ClientId(clients[i].0);
    }
  }
}
