/**
 * The Doctrine compiler pass: when doctrine/orm is installed, one ping
 * finalizer per entity manager, then, for every worker finalizer that is one
 * of those ping finalizers, an exception-interceptor decorator around the
 * worker's exception interceptor.
 */
module DoctrinePass {
  import opened Wrappers
  import opened Definitions
  import opened Container
  import opened Configuration

  const DoctrineRegistryId := "doctrine"
  const FinalizerTag := "temporal.finalizer"
  const RenamedInner := "temporal.exception_interceptor.inner"
  const PingFinalizerClass := "Vanta\\Integration\\Symfony\\Temporal\\Finalizer\\DoctrinePingConnectionFinalizer"
  const PingInterceptorClass :=
    "Vanta\\Integration\\Symfony\\Temporal\\ExceptionInterceptor\\DoctrinePingConnectionExceptionInterceptor"

  const FinalizerPrefix := "temporal.doctrine_ping_connection_"
  const DecoratorPrefix := "temporal_doctrine_ping_connection_"

  function PingFinalizerId(em: string): string {
    FinalizerPrefix + em + ".finalizer"
  }

  /** Note the `_` after `temporal`: decorator ids never collide with the dotted ids. */
  function DecoratorId(em: string): string {
    DecoratorPrefix + em + ".interceptor"
  }

  function PingFinalizerDefinition(em: string): Definition {
    Registered(PingFinalizerClass).WithArgs([Ref(DoctrineRegistryId), Str(em)]).AddTag(FinalizerTag)
  }

  /**
   * The decorator a worker gets for one of its ping finalizers: the inner
   * argument refers to `<exceptionInterceptor>.inner`, while the decoration
   * renames the decorated service to the fixed `temporal.exception_interceptor.inner`.
   */
  function DecoratorDefinition(w: Worker, finalizer: string): Definition {
    Registered(PingInterceptorClass)
      .WithArgs([Ref(w.exceptionInterceptor + ".inner"), Ref(finalizer)])
      .Decorate(w.exceptionInterceptor, RenamedInner)
  }

  // ------------------------------------------------------------ the ping finalizers

  /** The first loop, over the `doctrine.entity_managers` parameter (name => connection id). */
  function FinalizersPass(s: Snapshot, ems: seq<(string, string)>): Snapshot {
    if ems == [] then s
    else
      var em := ems[|ems| - 1].0;
      FinalizersPass(s, ems[..|ems| - 1]).Register(PingFinalizerId(em), PingFinalizerDefinition(em))
  }

  /** `$finalizerIds`: entity-manager name => finalizer id, in parameter order. */
  function FinalizerIds(ems: seq<(string, string)>): (r: seq<(string, string)>)
    ensures |r| == |ems| && forall i :: 0 <= i < |ems| ==> r[i] == (ems[i].0, PingFinalizerId(ems[i].0))
  {
    seq(|ems|, i requires 0 <= i < |ems| => (ems[i].0, PingFinalizerId(ems[i].0)))
  }

  method RegisterPingFinalizers(c: ContainerBuilder, ems: seq<(string, string)>) returns (finalizerIds: seq<(string, string)>)
    modifies c
    ensures c.State() == FinalizersPass(old(c.State()), ems)
    ensures finalizerIds == FinalizerIds(ems)
  {
    finalizerIds := [];
    var i := 0;
    while i < |ems|
      invariant 0 <= i <= |ems|
      invariant c.State() == FinalizersPass(old(c.State()), ems[..i])
      invariant finalizerIds == FinalizerIds(ems[..i])
    {
      var (entityManager, _) := ems[i];
      assert ems[..i + 1][..i] == ems[..i];
      var finalizerId := PingFinalizerId(entityManager);
      c.Register(finalizerId, PingFinalizerDefinition(entityManager));
      finalizerIds := finalizerIds + [(entityManager, finalizerId)];
      i := i + 1;
    }
    assert ems[..i] == ems;
  }

  // ------------------------------------------------------------ in_array and array_flip

  /** `in_array($v, $ids)`: some entry maps to `v`. */
  predicate InArray(ids: seq<(string, string)>, v: string) {
    exists i :: 0 <= i < |ids| && ids[i].1 == v
  }

  /**
   * `array_flip($ids)`: each value becomes a key mapped to its key; a later
   * entry overwrites an earlier one with the same value.
   */
  function Flip(ids: seq<(string, string)>): (r: map<string, string>)
    ensures forall v :: v in r <==> InArray(ids, v)
    ensures forall v :: v in r ==> exists i :: 0 <= i < |ids| && ids[i] == (r[v], v)
  {
    if ids == [] then map[]
    else
      var init := ids[..|ids| - 1];
      assert forall k :: 0 <= k < |init| ==> init[k] == ids[k];
      Flip(init)[ids[|ids| - 1].1 := ids[|ids| - 1].0]
  }

  /** Every id maps to the ping-finalizer id of its name, as `$finalizerIds` does. */
  predicate Consistent(ids: seq<(string, string)>) {
    forall i :: 0 <= i < |ids| ==> ids[i].1 == PingFinalizerId(ids[i].0)
  }

  lemma PingFinalizerIdInjective(a: string, b: string)
    ensures PingFinalizerId(a) == PingFinalizerId(b) ==> a == b
  {
    if PingFinalizerId(a) == PingFinalizerId(b) {
      var n := |FinalizerPrefix|;
      assert |a| == |b|;
      assert a == PingFinalizerId(a)[n..n + |a|];
      assert b == PingFinalizerId(b)[n..n + |b|];
    }
  }

  lemma DecoratorIdInjective(a: string, b: string)
    ensures DecoratorId(a) == DecoratorId(b) ==> a == b
  {
    if DecoratorId(a) == DecoratorId(b) {
      var n := |DecoratorPrefix|;
      assert |a| == |b|;
      assert a == DecoratorId(a)[n..n + |a|];
      assert b == DecoratorId(b)[n..n + |b|];
    }
  }

  lemma FinalizerNotDecorator(a: string, b: string)
    ensures PingFinalizerId(a) != DecoratorId(b)
  {
    assert PingFinalizerId(a)[8] == '.' && DecoratorId(b)[8] == '_';
  }

  /** Flipping consistent ids gives back, for each listed id, the name it was made from. */
  lemma FlipNames(ids: seq<(string, string)>, v: string)
    requires Consistent(ids) && InArray(ids, v)
    ensures v in Flip(ids) && v == PingFinalizerId(Flip(ids)[v])
  {
  }

  /** The flipped map recovers each entity-manager name from its finalizer id. */
  lemma FlipRecovers(ems: seq<(string, string)>, i: nat)
    requires i < |ems|
    ensures var flipped := Flip(FinalizerIds(ems));
      PingFinalizerId(ems[i].0) in flipped && flipped[PingFinalizerId(ems[i].0)] == ems[i].0
  {
    var ids := FinalizerIds(ems);
    var v := PingFinalizerId(ems[i].0);
    assert ids[i].1 == v;
    FlipNames(ids, v);
    PingFinalizerIdInjective(Flip(ids)[v], ems[i].0);
  }

  // ------------------------------------------------------------ the decorators

  /** One inner iteration: skip a finalizer that is not a ping finalizer, else register its decorator. */
  function FinalizerStep(s: Snapshot, ids: seq<(string, string)>, w: Worker, f: string): Snapshot {
    if InArray(ids, f) then s.Register(DecoratorId(Flip(ids)[f]), DecoratorDefinition(w, f)) else s
  }

  /** The inner loop over one worker's finalizers. */
  function WorkerDecorators(s: Snapshot, ids: seq<(string, string)>, w: Worker, fs: seq<string>): Snapshot {
    if fs == [] then s
    else FinalizerStep(WorkerDecorators(s, ids, w, fs[..|fs| - 1]), ids, w, fs[|fs| - 1])
  }

  /** The outer loop over the configured workers. */
  function DecoratorsPass(s: Snapshot, ids: seq<(string, string)>, workers: seq<(string, Worker)>): Snapshot {
    if workers == [] then s
    else
      var w := workers[|workers| - 1].1;
      WorkerDecorators(DecoratorsPass(s, ids, workers[..|workers| - 1]), ids, w, w.finalizers)
  }

  /** The whole pass; `available` is the answer of `ContainerBuilder::willBeAvailable('doctrine/orm', …)`. */
  function Processed(s: Snapshot, available: bool, ems: seq<(string, string)>, workers: seq<(string, Worker)>): Snapshot {
    if !available then s
    else DecoratorsPass(FinalizersPass(s, ems), FinalizerIds(ems), workers)
  }

  method RegisterWorkerDecorators(c: ContainerBuilder, finalizerIds: seq<(string, string)>, revert: map<string, string>, w: Worker)
    requires revert == Flip(finalizerIds)
    modifies c
    ensures c.State() == WorkerDecorators(old(c.State()), finalizerIds, w, w.finalizers)
  {
    var k := 0;
    while k < |w.finalizers|
      invariant 0 <= k <= |w.finalizers|
      invariant c.State() == WorkerDecorators(old(c.State()), finalizerIds, w, w.finalizers[..k])
    {
      var finalizer := w.finalizers[k];
      assert w.finalizers[..k + 1][..k] == w.finalizers[..k];
      if InArray(finalizerIds, finalizer) {
        c.Register(DecoratorId(revert[finalizer]), DecoratorDefinition(w, finalizer));
      }
      k := k + 1;
    }
    assert w.finalizers[..k] == w.finalizers;
  }

  method Process(c: ContainerBuilder, available: bool, entityManagers: seq<(string, string)>, cfg: Config)
    modifies c
    ensures c.State() == Processed(old(c.State()), available, entityManagers, cfg.workers)
  {
    if !available {
      return;
    }
    var finalizerIds := RegisterPingFinalizers(c, entityManagers);
    ghost var registered := c.State();
    var workers := cfg.workers;
    var revert := Flip(finalizerIds);
    var i := 0;
    while i < |workers|
      invariant 0 <= i <= |workers|
      invariant c.State() == DecoratorsPass(registered, finalizerIds, workers[..i])
    {
      var (_, worker) := workers[i];
      assert workers[..i + 1][..i] == workers[..i];
      RegisterWorkerDecorators(c, finalizerIds, revert, worker);
      i := i + 1;
    }
    assert workers[..i] == workers;
  }

  // ------------------------------------------------------------ properties of the finalizer loop

  /** Each entity manager's finalizer is registered with its own definition; later duplicates agree. */
  lemma {:induction false} FinalizerRegistered(s: Snapshot, ems: seq<(string, string)>, i: nat)
    requires i < |ems|
    ensures var r := FinalizersPass(s, ems);
      PingFinalizerId(ems[i].0) in r.definitions && r.definitions[PingFinalizerId(ems[i].0)] == PingFinalizerDefinition(ems[i].0)
  {
    var last := ems[|ems| - 1].0;
    if i < |ems| - 1 {
      FinalizerRegistered(s, ems[..|ems| - 1], i);
      PingFinalizerIdInjective(ems[i].0, last);
    }
  }

  /** The first loop writes ping-finalizer ids and nothing else. */
  lemma {:induction false} FinalizersFrame(s: Snapshot, ems: seq<(string, string)>, id: string)
    requires forall i :: 0 <= i < |ems| ==> id != PingFinalizerId(ems[i].0)
    ensures var r := FinalizersPass(s, ems);
      && (id in r.definitions <==> id in s.definitions) && (id in s.definitions ==> r.definitions[id] == s.definitions[id])
      && (id in r.aliases <==> id in s.aliases) && (id in s.aliases ==> r.aliases[id] == s.aliases[id])
  {
    if ems != [] {
      var init := ems[..|ems| - 1];
      assert forall k :: 0 <= k < |init| ==> init[k] == ems[k];
      FinalizersFrame(s, init, id);
    }
  }

  // ------------------------------------------------------------ properties of the decorator loops

  /** Some listed finalizer of `fs` makes the inner loop write `id`. */
  predicate Writes(ids: seq<(string, string)>, fs: seq<string>, id: string) {
    exists k :: 0 <= k < |fs| && InArray(ids, fs[k]) && DecoratorId(Flip(ids)[fs[k]]) == id
  }

  predicate WritesAny(ids: seq<(string, string)>, workers: seq<(string, Worker)>, id: string) {
    exists i :: 0 <= i < |workers| && Writes(ids, workers[i].1.finalizers, id)
  }

  lemma {:induction false} WorkerDecoratorsFrame(s: Snapshot, ids: seq<(string, string)>, w: Worker, fs: seq<string>, id: string)
    requires !Writes(ids, fs, id)
    ensures var r := WorkerDecorators(s, ids, w, fs);
      && (id in r.definitions <==> id in s.definitions) && (id in s.definitions ==> r.definitions[id] == s.definitions[id])
      && (id in r.aliases <==> id in s.aliases) && (id in s.aliases ==> r.aliases[id] == s.aliases[id])
  {
    if fs != [] {
      var init := fs[..|fs| - 1];
      assert !Writes(ids, init, id) by {
        forall k | 0 <= k < |init| ensures init[k] == fs[k] { }
      }
      WorkerDecoratorsFrame(s, ids, w, init, id);
      assert !(InArray(ids, fs[|fs| - 1]) && DecoratorId(Flip(ids)[fs[|fs| - 1]]) == id);
    }
  }

  /** No worker finalizer leads to `id`: the decorator loops leave it alone. */
  lemma {:induction false} DecoratorsFrame(s: Snapshot, ids: seq<(string, string)>, workers: seq<(string, Worker)>, id: string)
    requires !WritesAny(ids, workers, id)
    ensures var r := DecoratorsPass(s, ids, workers);
      && (id in r.definitions <==> id in s.definitions) && (id in s.definitions ==> r.definitions[id] == s.definitions[id])
      && (id in r.aliases <==> id in s.aliases) && (id in s.aliases ==> r.aliases[id] == s.aliases[id])
  {
    if workers != [] {
      var init := workers[..|workers| - 1];
      var w := workers[|workers| - 1].1;
      assert !WritesAny(ids, init, id) by {
        forall k | 0 <= k < |init| ensures init[k] == workers[k] { }
      }
      DecoratorsFrame(s, ids, init, id);
      WorkerDecoratorsFrame(DecoratorsPass(s, ids, init), ids, w, w.finalizers, id);
    }
  }

  /** Only the ping finalizer of `em` leads to the decorator id of `em`. */
  lemma WritesOnlyListed(ids: seq<(string, string)>, fs: seq<string>, em: string)
    requires Consistent(ids) && Writes(ids, fs, DecoratorId(em))
    ensures PingFinalizerId(em) in fs
  {
    var k :| 0 <= k < |fs| && InArray(ids, fs[k]) && DecoratorId(Flip(ids)[fs[k]]) == DecoratorId(em);
    FlipNames(ids, fs[k]);
    DecoratorIdInjective(Flip(ids)[fs[k]], em);
  }

  /** A worker listing the ping finalizer of `em` leaves its own decorator under `em`'s id. */
  lemma {:induction false} WorkerDecoratorSet(s: Snapshot, ids: seq<(string, string)>, w: Worker, fs: seq<string>, em: string)
    requires Consistent(ids) && InArray(ids, PingFinalizerId(em)) && PingFinalizerId(em) in fs
    ensures var r := WorkerDecorators(s, ids, w, fs);
      DecoratorId(em) in r.definitions && r.definitions[DecoratorId(em)] == DecoratorDefinition(w, PingFinalizerId(em))
  {
    var init := fs[..|fs| - 1];
    var f := fs[|fs| - 1];
    var id := DecoratorId(em);
    var before := WorkerDecorators(s, ids, w, init);
    FlipNames(ids, PingFinalizerId(em));
    PingFinalizerIdInjective(Flip(ids)[PingFinalizerId(em)], em);
    if f != PingFinalizerId(em) {
      assert PingFinalizerId(em) in init by {
        var k :| 0 <= k < |fs| && fs[k] == PingFinalizerId(em);
        assert init[k] == fs[k];
      }
      WorkerDecoratorSet(s, ids, w, init, em);
      if InArray(ids, f) {
        FlipNames(ids, f);
        DecoratorIdInjective(Flip(ids)[f], em);
      }
    }
  }

  /**
   * The decorator id depends on the entity-manager name only, so when several
   * workers list the same ping finalizer the last of them wins: its decorator
   * overwrites those of the earlier workers.
   */
  lemma {:induction false} DecoratorsLastWins(s: Snapshot, ids: seq<(string, string)>, workers: seq<(string, Worker)>, em: string, i: nat)
    requires Consistent(ids) && InArray(ids, PingFinalizerId(em))
    requires i < |workers| && PingFinalizerId(em) in workers[i].1.finalizers
    requires forall j :: i < j < |workers| ==> PingFinalizerId(em) !in workers[j].1.finalizers
    ensures var r := DecoratorsPass(s, ids, workers);
      DecoratorId(em) in r.definitions && r.definitions[DecoratorId(em)] == DecoratorDefinition(workers[i].1, PingFinalizerId(em))
  {
    var init := workers[..|workers| - 1];
    var w := workers[|workers| - 1].1;
    if i == |workers| - 1 {
      WorkerDecoratorSet(DecoratorsPass(s, ids, init), ids, w, w.finalizers, em);
    } else {
      assert init[i] == workers[i];
      DecoratorsLastWins(s, ids, init, em, i);
      if Writes(ids, w.finalizers, DecoratorId(em)) {
        WritesOnlyListed(ids, w.finalizers, em);
      }
      WorkerDecoratorsFrame(DecoratorsPass(s, ids, init), ids, w, w.finalizers, DecoratorId(em));
    }
  }

  /** Decorator ids are the only ids the decorator loops write. */
  lemma NothingButDecorators(ids: seq<(string, string)>, workers: seq<(string, Worker)>, id: string)
    requires forall em :: id != DecoratorId(em)
    ensures !WritesAny(ids, workers, id)
  {
  }

  /** Without a worker listing the ping finalizer of `em`, nothing is written under `em`'s decorator id. */
  lemma NoDecoratorUnlisted(ids: seq<(string, string)>, workers: seq<(string, Worker)>, em: string)
    requires Consistent(ids)
    requires forall i :: 0 <= i < |workers| ==> PingFinalizerId(em) !in workers[i].1.finalizers
    ensures !WritesAny(ids, workers, DecoratorId(em))
  {
    if WritesAny(ids, workers, DecoratorId(em)) {
      var i :| 0 <= i < |workers| && Writes(ids, workers[i].1.finalizers, DecoratorId(em));
      WritesOnlyListed(ids, workers[i].1.finalizers, em);
    }
  }

  /**
   * A decorator wraps the worker's exception interceptor and is handed the
   * finalizer; its inner argument `<exceptionInterceptor>.inner` names the
   * renamed decorated service exactly when the worker keeps the default
   * interceptor `temporal.exception_interceptor`.
   */
  lemma DecoratorShape(w: Worker, finalizer: string)
    ensures var d := DecoratorDefinition(w, finalizer);
      && d.className == Some(PingInterceptorClass) && d.factory == None
      && |d.args| == 2 && d.args[1] == Ref(finalizer)
      && d.decorates == Some(Decoration(w.exceptionInterceptor, RenamedInner))
      && d.named == map[] && d.calls == [] && d.tags == []
      && (d.args[0] == Ref(RenamedInner) <==> w.exceptionInterceptor == DefaultExceptionInterceptor)
  {
    var x := w.exceptionInterceptor;
    if x + ".inner" == RenamedInner {
      assert RenamedInner == DefaultExceptionInterceptor + ".inner";
      assert |x| == |DefaultExceptionInterceptor|;
      assert x == (x + ".inner")[..|x|];
      assert DefaultExceptionInterceptor == RenamedInner[..|x|];
    }
  }

  // ------------------------------------------------------------ the whole pass

  /** Doctrine not installed: the container is left as it was. */
  lemma UnavailableChangesNothing(s: Snapshot, ems: seq<(string, string)>, workers: seq<(string, Worker)>)
    ensures Processed(s, false, ems, workers) == s
  {
  }

  lemma FinalizerIdsConsistent(ems: seq<(string, string)>)
    ensures Consistent(FinalizerIds(ems))
  {
  }

  /**
   * Each entity manager `<em>` ends up with the finalizer
   * `temporal.doctrine_ping_connection_<em>.finalizer`: a
   * DoctrinePingConnectionFinalizer given the `doctrine` registry and the
   * name, tagged `temporal.finalizer`.
   */
  lemma PingFinalizerRegistered(s: Snapshot, ems: seq<(string, string)>, workers: seq<(string, Worker)>, i: nat)
    requires i < |ems|
    ensures var r := Processed(s, true, ems, workers);
      && PingFinalizerId(ems[i].0) in r.definitions
      && var d := r.definitions[PingFinalizerId(ems[i].0)];
      && d.className == Some(PingFinalizerClass)
      && d.args == [Ref(DoctrineRegistryId), Str(ems[i].0)]
      && d.tags == [Tag(FinalizerTag, [])] && d.decorates == None
  {
    var id := PingFinalizerId(ems[i].0);
    FinalizerRegistered(s, ems, i);
    forall em ensures id != DecoratorId(em) {
      FinalizerNotDecorator(ems[i].0, em);
    }
    NothingButDecorators(FinalizerIds(ems), workers, id);
    DecoratorsFrame(FinalizersPass(s, ems), FinalizerIds(ems), workers, id);
  }

  /**
   * When worker `i` lists the ping finalizer of entity manager `em` and no
   * later worker does, `temporal_doctrine_ping_connection_<em>.interceptor`
   * is worker `i`'s decorator.
   */
  lemma DecoratorRegistered(s: Snapshot, ems: seq<(string, string)>, workers: seq<(string, Worker)>, e: nat, i: nat)
    requires e < |ems| && i < |workers|
    requires PingFinalizerId(ems[e].0) in workers[i].1.finalizers
    requires forall j :: i < j < |workers| ==> PingFinalizerId(ems[e].0) !in workers[j].1.finalizers
    ensures var r := Processed(s, true, ems, workers);
      var id := DecoratorId(ems[e].0);
      id in r.definitions && r.definitions[id] == DecoratorDefinition(workers[i].1, PingFinalizerId(ems[e].0))
  {
    var ids := FinalizerIds(ems);
    assert ids[e].1 == PingFinalizerId(ems[e].0);
    DecoratorsLastWins(FinalizersPass(s, ems), ids, workers, ems[e].0, i);
  }

  /**
   * A name no worker lists the ping finalizer of gets no decorator: its
   * decorator id is left as it was found. In particular a worker finalizer
   * that is not a ping finalizer produces nothing.
   */
  lemma NoDecoratorWithoutListing(s: Snapshot, ems: seq<(string, string)>, workers: seq<(string, Worker)>, em: string)
    requires forall i :: 0 <= i < |workers| ==> PingFinalizerId(em) !in workers[i].1.finalizers
    ensures var r := Processed(s, true, ems, workers);
      var id := DecoratorId(em);
      && (id in r.definitions <==> id in s.definitions) && (id in s.definitions ==> r.definitions[id] == s.definitions[id])
  {
    var id := DecoratorId(em);
    forall k | 0 <= k < |ems| ensures id != PingFinalizerId(ems[k].0) {
      FinalizerNotDecorator(ems[k].0, em);
    }
    FinalizersFrame(s, ems, id);
    NoDecoratorUnlisted(FinalizerIds(ems), workers, em);
    DecoratorsFrame(FinalizersPass(s, ems), FinalizerIds(ems), workers, id);
  }

  /** Ids that are neither ping finalizers nor decorators keep their definition and alias. */
  lemma OtherIdsUnchanged(s: Snapshot, available: bool, ems: seq<(string, string)>, workers: seq<(string, Worker)>, id: string)
    requires forall em :: id != DecoratorId(em) && id != PingFinalizerId(em)
    ensures var r := Processed(s, available, ems, workers);
      && (id in r.definitions <==> id in s.definitions) && (id in s.definitions ==> r.definitions[id] == s.definitions[id])
      && (id in r.aliases <==> id in s.aliases) && (id in s.aliases ==> r.aliases[id] == s.aliases[id])
  {
    if available {
      FinalizersFrame(s, ems, id);
      NothingButDecorators(FinalizerIds(ems), workers, id);
      DecoratorsFrame(FinalizersPass(s, ems), FinalizerIds(ems), workers, id);
    }
  }
}
