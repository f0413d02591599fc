/**
 * `Environment::create($with)`: the RoadRunner environment built from
 * `[...$_ENV, ...$_SERVER, ...$with]`. A PHP array with string keys is an
 * ordered list of entries; spreading one into another overwrites an existing
 * key in place and appends a new key at the end.
 */
module Environment {
  import opened Wrappers

  /** A PHP array with string keys, in insertion order. */
  type PhpArray = seq<(string, string)>

  function Keys(a: PhpArray): set<string> {
    set i | 0 <= i < |a| :: a[i].0
  }

  /** PHP array keys are unique. */
  predicate UniqueKeys(a: PhpArray) {
    forall i, j :: 0 <= i < j < |a| ==> a[i].0 != a[j].0
  }

  /** `$a[$k] ?? null`; with repeated keys the last entry would win. */
  function Lookup(a: PhpArray, k: string): Option<string> {
    if a == [] then None
    else if a[|a| - 1].0 == k then Some(a[|a| - 1].1)
    else Lookup(a[..|a| - 1], k)
  }

  /** `$a[$k] = $v`: overwrite in place, or append. */
  function Put(a: PhpArray, k: string, v: string): PhpArray {
    if k in Keys(a) then seq(|a|, i requires 0 <= i < |a| => if a[i].0 == k then (k, v) else a[i])
    else a + [(k, v)]
  }

  /** `[...$acc, ...$a]`: the entries of `a` put into `acc` one by one. */
  function Spread(acc: PhpArray, a: PhpArray): PhpArray {
    if a == [] then acc else Put(Spread(acc, a[..|a| - 1]), a[|a| - 1].0, a[|a| - 1].1)
  }

  /** `create($with)`; `env` and `server` stand for `$_ENV` and `$_SERVER`. */
  function Create(env: PhpArray, server: PhpArray, with: PhpArray): PhpArray {
    Spread(Spread(Spread([], env), server), with)
  }

  // ---------------------------------------------------------------- properties

  lemma {:induction false} LookupNone(a: PhpArray, k: string)
    ensures Lookup(a, k).None? <==> k !in Keys(a)
  {
    if a != [] {
      var init := a[..|a| - 1];
      LookupNone(init, k);
      assert Keys(a) == Keys(init) + {a[|a| - 1].0} by {
        forall x | x in Keys(a) ensures x in Keys(init) + {a[|a| - 1].0} {
          var i :| 0 <= i < |a| && a[i].0 == x;
          if i < |a| - 1 { assert init[i] == a[i]; }
        }
        forall x | x in Keys(init) ensures x in Keys(a) {
          var i :| 0 <= i < |init| && init[i].0 == x;
          assert a[i] == init[i];
        }
      }
    }
  }

  /** Overwriting in place changes the looked-up value of that key only. */
  lemma {:induction false} ReplaceAt(a: PhpArray, k: string, v: string, x: string)
    ensures var r := seq(|a|, i requires 0 <= i < |a| => if a[i].0 == k then (k, v) else a[i]);
      Lookup(r, x) == if x == k && k in Keys(a) then Some(v) else Lookup(a, x)
  {
    if a != [] {
      var r := seq(|a|, i requires 0 <= i < |a| => if a[i].0 == k then (k, v) else a[i]);
      var init := a[..|a| - 1];
      var ri := seq(|init|, i requires 0 <= i < |init| => if init[i].0 == k then (k, v) else init[i]);
      assert r[..|r| - 1] == ri;
      ReplaceAt(init, k, v, x);
      LookupNone(a, k);
      LookupNone(init, k);
    }
  }

  /** `$a[$k] = $v` sets `k` to `v`, keeps every other key's value, and adds `k` to the keys. */
  lemma PutAt(a: PhpArray, k: string, v: string, x: string)
    ensures Lookup(Put(a, k, v), x) == if x == k then Some(v) else Lookup(a, x)
  {
    if k in Keys(a) {
      ReplaceAt(a, k, v, x);
    } else {
      assert (a + [(k, v)])[..|a|] == a;
    }
  }

  /** Spreading `a` into `acc`: a key of `a` takes its value from `a`, any other key keeps its value in `acc`. */
  lemma {:induction false} SpreadAt(acc: PhpArray, a: PhpArray, x: string)
    ensures Lookup(Spread(acc, a), x) == if x in Keys(a) then Lookup(a, x) else Lookup(acc, x)
  {
    if a != [] {
      var init := a[..|a| - 1];
      var last := a[|a| - 1];
      SpreadAt(acc, init, x);
      PutAt(Spread(acc, init), last.0, last.1, x);
      LookupNone(a, x);
      LookupNone(init, x);
    }
  }

  /**
   * The merged environment has exactly the keys of the three arrays; `with`
   * wins over both others, `$_SERVER` over `$_ENV`, and a key found in one
   * array only keeps its value.
   */
  lemma CreatePrecedence(env: PhpArray, server: PhpArray, with: PhpArray, x: string)
    ensures var r := Create(env, server, with);
      && (Lookup(r, x).Some? <==> x in Keys(env) || x in Keys(server) || x in Keys(with))
      && Lookup(r, x) == if x in Keys(with) then Lookup(with, x)
                         else if x in Keys(server) then Lookup(server, x)
                         else Lookup(env, x)
  {
    SpreadAt([], env, x);
    SpreadAt(Spread([], env), server, x);
    SpreadAt(Spread(Spread([], env), server), with, x);
    LookupNone(env, x);
    LookupNone(server, x);
    LookupNone(with, x);
    LookupNone(Create(env, server, with), x);
  }

  lemma PutUnique(a: PhpArray, k: string, v: string)
    requires UniqueKeys(a)
    ensures UniqueKeys(Put(a, k, v))
  {
    if k !in Keys(a) {
      var r := a + [(k, v)];
      forall i, j | 0 <= i < j < |r| ensures r[i].0 != r[j].0 {
        if j == |a| {
          assert r[i].0 == a[i].0 && a[i].0 in Keys(a);
        }
      }
    }
  }

  lemma {:induction false} SpreadUnique(acc: PhpArray, a: PhpArray)
    requires UniqueKeys(acc)
    ensures UniqueKeys(Spread(acc, a))
  {
    if a != [] {
      SpreadUnique(acc, a[..|a| - 1]);
      PutUnique(Spread(acc, a[..|a| - 1]), a[|a| - 1].0, a[|a| - 1].1);
    }
  }

  /** Whatever `$_ENV` and `$_SERVER` hold, the merged environment lists each key once. */
  lemma CreateUnique(env: PhpArray, server: PhpArray, with: PhpArray)
    ensures UniqueKeys(Create(env, server, with))
  {
    SpreadUnique([], env);
    SpreadUnique(Spread([], env), server);
    SpreadUnique(Spread(Spread([], env), server), with);
  }

  /** The pool's `RR_RPC` override always reaches the RoadRunner environment. */
  lemma RoadRunnerRpcWins(env: PhpArray, server: PhpArray, rpc: string)
    ensures Lookup(Create(env, server, [("RR_RPC", rpc)]), "RR_RPC") == Some(rpc)
  {
    CreatePrecedence(env, server, [("RR_RPC", rpc)], "RR_RPC");
    assert "RR_RPC" in Keys([("RR_RPC", rpc)]);
  }
}
