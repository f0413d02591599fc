/**
 * What the workflow-client and schedule-client passes share: the
 * `ClientOptions` chain, and the loop step that registers one client, aliases
 * it by its interface when it is the default client, and registers its
 * argument alias `"<interface> $<name><suffix>"`.
 */
module ClientLoop {
  import opened Wrappers
  import opened Definitions
  import opened Container

  const ClientOptionsClass := "Temporal\\Client\\ClientOptions"

  // ------------------------------------------------------------ the options

  /** `$client['identity'] ?? false` used as a condition: present and truthy. */
  predicate Given(v: Option<Value>) {
    v.Some? && Truthy(v.value)
  }

  predicate HasCall(d: Definition, name: string) {
    exists k :: 0 <= k < |d.calls| && d.calls[k].name == name
  }

  /** The position of each `ClientOptions` setter in the chain; 3 for any other name. */
  function Rank(name: string): nat {
    if name == "withNamespace" then 0
    else if name == "withIdentity" then 1
    else if name == "withQueryRejectionCondition" then 2
    else 3
  }

  /**
   * The cloning setters on `ClientOptions`: the namespace, the identity when
   * it is truthy, and the query-rejection condition when the pass decided to
   * pass one (`condition` is that decision).
   */
  function OptionCalls(namespace: string, identity: Option<Value>, condition: Option<Value>): seq<MethodCall> {
    [MethodCall("withNamespace", [Str(namespace)], true)]
    + (if Given(identity) then [MethodCall("withIdentity", [identity.value], true)] else [])
    + (if condition.Some? then [MethodCall("withQueryRejectionCondition", [condition.value], true)] else [])
  }

  function OptionsDefinition(namespace: string, identity: Option<Value>, condition: Option<Value>): Definition {
    NewDefinition(Some(ClientOptionsClass), []).(calls := OptionCalls(namespace, identity, condition))
  }

  /**
   * The chain starts with `withNamespace`, every setter returns a clone and
   * takes the one configured value, the setters come in a fixed order without
   * repetition, and each optional setter is there exactly when its value is.
   */
  lemma OptionsChain(namespace: string, identity: Option<Value>, condition: Option<Value>)
    ensures var r := OptionsDefinition(namespace, identity, condition);
      && r.className == Some(ClientOptionsClass) && r.factory == None && r.args == [] && r.named == map[]
      && |r.calls| > 0 && r.calls[0] == MethodCall("withNamespace", [Str(namespace)], true)
      && (forall k :: 0 <= k < |r.calls| ==> r.calls[k].returnsClone && |r.calls[k].args| == 1)
      && (forall k, l :: 0 <= k < l < |r.calls| ==> Rank(r.calls[k].name) < Rank(r.calls[l].name) < 3)
      && (HasCall(r, "withIdentity") <==> Given(identity))
      && (forall k :: 0 <= k < |r.calls| && r.calls[k].name == "withIdentity" ==> r.calls[k].args == [identity.GetOr(Null)])
      && (HasCall(r, "withQueryRejectionCondition") <==> condition.Some?)
      && (forall k :: 0 <= k < |r.calls| && r.calls[k].name == "withQueryRejectionCondition" ==>
            r.calls[k].args == [condition.GetOr(Null)])
  {
    var r := OptionsDefinition(namespace, identity, condition);
    var ns := MethodCall("withNamespace", [Str(namespace)], true);
    var last := |r.calls| - 1;
    if Given(identity) {
      assert r.calls[1] == MethodCall("withIdentity", [identity.value], true);
    }
    if condition.Some? {
      assert r.calls[last] == MethodCall("withQueryRejectionCondition", [condition.value], true);
    }
    if Given(identity) && condition.Some? {
      assert r.calls == [ns, MethodCall("withIdentity", [identity.value], true),
                         MethodCall("withQueryRejectionCondition", [condition.value], true)];
    } else if Given(identity) {
      assert r.calls == [ns, MethodCall("withIdentity", [identity.value], true)];
    } else if condition.Some? {
      assert r.calls == [ns, MethodCall("withQueryRejectionCondition", [condition.value], true)];
    } else {
      assert r.calls == [ns];
    }
  }

  // ------------------------------------------------------------ the loop step

  /** One configured client: its name, the id it is registered under and its definition. */
  datatype ClientEntry = ClientEntry(name: string, id: string, def: Definition)

  /** How a pass names its aliases: the client interface and the argument-name suffix. */
  datatype Naming = Naming(iface: string, suffix: string)

  /** `registerAliasForArgument($id, $iface, sprintf('%s<suffix>', $name))`'s alias. */
  function ForArgument(n: Naming, name: string): string {
    ArgumentAlias(n.iface, name + n.suffix)
  }

  /** Service ids begin with `t`, the interface (and so every alias) with `T`: the two never meet. */
  predicate Separated(n: Naming, entries: seq<ClientEntry>) {
    && |n.iface| > 0 && n.iface[0] == 'T'
    && forall i :: 0 <= i < |entries| ==> |entries[i].id| > 0 && entries[i].id[0] == 't'
  }

  predicate DistinctEntries(entries: seq<ClientEntry>) {
    forall i, j :: 0 <= i < j < |entries| ==> entries[i].name != entries[j].name && entries[i].id != entries[j].id
  }

  /** One iteration of a client loop. */
  function EntryStep(s: Snapshot, n: Naming, defaultName: string, e: ClientEntry): Snapshot {
    var registered := s.Register(e.id, e.def);
    var aliased := if e.name == defaultName then registered.SetAlias(n.iface, e.id) else registered;
    aliased.SetAlias(ForArgument(n, e.name), e.id)
  }

  function EntriesPass(s: Snapshot, n: Naming, defaultName: string, entries: seq<ClientEntry>): Snapshot {
    if entries == [] then s
    else EntryStep(EntriesPass(s, n, defaultName, entries[..|entries| - 1]), n, defaultName, entries[|entries| - 1])
  }

  lemma EntriesPassStep(s: Snapshot, n: Naming, defaultName: string, entries: seq<ClientEntry>, i: nat)
    requires i < |entries|
    ensures EntriesPass(s, n, defaultName, entries[..i + 1])
         == EntryStep(EntriesPass(s, n, defaultName, entries[..i]), n, defaultName, entries[i])
  {
    assert entries[..i + 1][..i] == entries[..i];
  }

  /** The loop body on the container: register, maybe alias, alias for the argument. */
  method RegisterClient(c: ContainerBuilder, n: Naming, defaultName: string, e: ClientEntry)
    requires |n.iface| > 0 && n.iface[0] == 'T' && |e.id| > 0 && e.id[0] == 't'
    modifies c
    ensures c.State() == EntryStep(old(c.State()), n, defaultName, e)
  {
    c.Register(e.id, e.def);
    if e.name == defaultName {
      c.SetAlias(n.iface, e.id);
    }
    assert ForArgument(n, e.name)[0] == 'T';
    c.RegisterAliasForArgument(e.id, n.iface, e.name + n.suffix);
  }

  /** Argument aliases of different names differ. */
  lemma ForArgumentInjective(n: Naming, a: string, b: string)
    ensures ForArgument(n, a) == ForArgument(n, b) ==> a == b
  {
    var p := n.iface + " $";
    if ForArgument(n, a) == ForArgument(n, b) {
      assert |a| == |b|;
      assert ForArgument(n, a) == p + a + n.suffix;
      assert ForArgument(n, b) == p + b + n.suffix;
      assert a == ForArgument(n, a)[|p|..|p| + |a|];
      assert b == ForArgument(n, b)[|p|..|p| + |b|];
    }
  }

  lemma ForArgumentNotInterface(n: Naming, name: string)
    ensures ForArgument(n, name) != n.iface
  {
    assert |ForArgument(n, name)| > |n.iface|;
  }

  /** What one iteration does to a single id. */
  lemma EntryStepAt(s: Snapshot, n: Naming, defaultName: string, e: ClientEntry, id: string)
    requires |n.iface| > 0 && n.iface[0] == 'T' && |e.id| > 0 && e.id[0] == 't'
    ensures var r := EntryStep(s, n, defaultName, e);
      && (id == e.id ==> id in r.definitions && r.definitions[id] == e.def && id !in r.aliases)
      && (id == ForArgument(n, e.name) ==> id in r.aliases && r.aliases[id] == e.id && id !in r.definitions)
      && (id == n.iface && e.name == defaultName ==> id in r.aliases && r.aliases[id] == e.id && id !in r.definitions)
      && (id != e.id && id != ForArgument(n, e.name) && (id != n.iface || e.name != defaultName) ==>
            (id in r.definitions <==> id in s.definitions) && (id in s.definitions ==> r.definitions[id] == s.definitions[id])
            && (id in r.aliases <==> id in s.aliases) && (id in s.aliases ==> r.aliases[id] == s.aliases[id]))
  {
    assert ForArgument(n, e.name)[0] == 'T';
    ForArgumentNotInterface(n, e.name);
  }

  // ------------------------------------------------------------ properties of the loop

  /** Each entry ends up defined under its id, with its own definition. */
  lemma {:induction false} EntryRegistered(s: Snapshot, n: Naming, defaultName: string, entries: seq<ClientEntry>, i: nat)
    requires Separated(n, entries) && DistinctEntries(entries) && i < |entries|
    ensures var r := EntriesPass(s, n, defaultName, entries);
      entries[i].id in r.definitions && r.definitions[entries[i].id] == entries[i].def
  {
    var init := entries[..|entries| - 1];
    var e := entries[|entries| - 1];
    EntryStepAt(EntriesPass(s, n, defaultName, init), n, defaultName, e, entries[i].id);
    if i < |entries| - 1 {
      EntryRegistered(s, n, defaultName, init, i);
      assert ForArgument(n, e.name)[0] == 'T';
    }
  }

  /** Each entry gets its argument alias, pointing at its id. */
  lemma {:induction false} EntryAliasedForArgument(s: Snapshot, n: Naming, defaultName: string, entries: seq<ClientEntry>, i: nat)
    requires Separated(n, entries) && DistinctEntries(entries) && i < |entries|
    ensures var r := EntriesPass(s, n, defaultName, entries);
      ForArgument(n, entries[i].name) in r.aliases && r.aliases[ForArgument(n, entries[i].name)] == entries[i].id
  {
    var init := entries[..|entries| - 1];
    var e := entries[|entries| - 1];
    var alias := ForArgument(n, entries[i].name);
    EntryStepAt(EntriesPass(s, n, defaultName, init), n, defaultName, e, alias);
    if i < |entries| - 1 {
      EntryAliasedForArgument(s, n, defaultName, init, i);
      ForArgumentInjective(n, entries[i].name, e.name);
      ForArgumentNotInterface(n, entries[i].name);
      assert alias[0] == 'T';
    }
  }

  /** Some entry carries the default name. */
  predicate NamesDefault(entries: seq<ClientEntry>, defaultName: string) {
    exists i :: 0 <= i < |entries| && entries[i].name == defaultName
  }

  /** The interface aliases the id of the entry carrying the default name. */
  lemma {:induction false} DefaultAliasSet(s: Snapshot, n: Naming, defaultName: string, entries: seq<ClientEntry>, i: nat)
    requires Separated(n, entries) && DistinctEntries(entries) && i < |entries| && entries[i].name == defaultName
    ensures var r := EntriesPass(s, n, defaultName, entries);
      n.iface in r.aliases && r.aliases[n.iface] == entries[i].id && n.iface !in r.definitions
  {
    var init := entries[..|entries| - 1];
    var e := entries[|entries| - 1];
    EntryStepAt(EntriesPass(s, n, defaultName, init), n, defaultName, e, n.iface);
    ForArgumentNotInterface(n, e.name);
    if i < |entries| - 1 {
      assert Separated(n, init) by {
        forall k | 0 <= k < |init| ensures |init[k].id| > 0 && init[k].id[0] == 't' {
          assert init[k] == entries[k];
        }
      }
      DefaultAliasSet(s, n, defaultName, init, i);
    }
  }

  /** With no entry carrying the default name, the interface id is left as it was found, and nothing fails. */
  lemma {:induction false} DefaultAliasKept(s: Snapshot, n: Naming, defaultName: string, entries: seq<ClientEntry>)
    requires Separated(n, entries) && !NamesDefault(entries, defaultName)
    ensures var r := EntriesPass(s, n, defaultName, entries);
      && (n.iface in r.aliases <==> n.iface in s.aliases)
      && (n.iface in s.aliases ==> r.aliases[n.iface] == s.aliases[n.iface])
      && (n.iface in r.definitions <==> n.iface in s.definitions)
      && (n.iface in s.definitions ==> r.definitions[n.iface] == s.definitions[n.iface])
  {
    if entries != [] {
      var init := entries[..|entries| - 1];
      var e := entries[|entries| - 1];
      assert Separated(n, init) && !NamesDefault(init, defaultName) by {
        forall k | 0 <= k < |init| ensures |init[k].id| > 0 && init[k].id[0] == 't' && init[k].name != defaultName {
          assert init[k] == entries[k];
        }
      }
      assert e.name != defaultName;
      DefaultAliasKept(s, n, defaultName, init);
      EntryStepAt(EntriesPass(s, n, defaultName, init), n, defaultName, e, n.iface);
      ForArgumentNotInterface(n, e.name);
    }
  }

  /** Ids an entry writes: its id, its argument alias, and the interface. */
  predicate Touched(n: Naming, entries: seq<ClientEntry>, id: string) {
    id == n.iface || exists i :: 0 <= i < |entries| && (id == entries[i].id || id == ForArgument(n, entries[i].name))
  }

  /** Every id no entry writes keeps its definition and its alias. */
  lemma {:induction false} EntriesFrame(s: Snapshot, n: Naming, defaultName: string, entries: seq<ClientEntry>, id: string)
    requires Separated(n, entries) && !Touched(n, entries, id)
    ensures var r := EntriesPass(s, n, defaultName, entries);
      && (id in r.definitions <==> id in s.definitions) && (id in s.definitions ==> r.definitions[id] == s.definitions[id])
      && (id in r.aliases <==> id in s.aliases) && (id in s.aliases ==> r.aliases[id] == s.aliases[id])
  {
    if entries != [] {
      var init := entries[..|entries| - 1];
      var e := entries[|entries| - 1];
      assert Separated(n, init) && !Touched(n, init, id) by {
        forall k | 0 <= k < |init|
          ensures |init[k].id| > 0 && init[k].id[0] == 't'
          ensures id != init[k].id && id != ForArgument(n, init[k].name)
        {
          assert init[k] == entries[k];
        }
      }
      assert id != entries[|entries| - 1].id && id != ForArgument(n, entries[|entries| - 1].name);
      EntriesFrame(s, n, defaultName, init, id);
      EntryStepAt(EntriesPass(s, n, defaultName, init), n, defaultName, e, id);
    }
  }
}
