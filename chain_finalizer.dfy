/**
 * `ChainFinalizer`: runs the wrapped finalizers one after the other. It
 * catches nothing, so the first finalizer that throws ends the chain and its
 * exception reaches the caller.
 */
module ChainFinalizer {
  import opened Wrappers
  import opened Effects

  /**
   * The position of the first finalizer that throws, or the length of the
   * chain when none does; `outcome(f)` is what `f->finalize()` does.
   */
  function FirstFailure(finalizers: seq<string>, outcome: string -> Option<Failure>): (k: nat)
    ensures k <= |finalizers|
    ensures forall j :: 0 <= j < k ==> outcome(finalizers[j]) == None
    ensures k < |finalizers| ==> outcome(finalizers[k]).Some?
  {
    if finalizers == [] then 0
    else if outcome(finalizers[0]).Some? then 0
    else 1 + FirstFailure(finalizers[1..], outcome)
  }

  /** How many finalizers a run calls: up to and including the first that throws. */
  function Reached(finalizers: seq<string>, outcome: string -> Option<Failure>): nat {
    var k := FirstFailure(finalizers, outcome);
    if k < |finalizers| then k + 1 else k
  }

  class ChainFinalizer {
    /** The finalizer services, in iteration order; fixed at construction (readonly). */
    const finalizers: seq<string>

    constructor (finalizers: seq<string>)
      ensures this.finalizers == finalizers
    {
      this.finalizers := finalizers;
    }

    /**
     * `finalize()`: `called` is the log of `finalize` calls in order. Each
     * finalizer before the first failure is called exactly once, nothing
     * after it is called, and that failure is what the chain throws.
     */
    method Finalize(outcome: string -> Option<Failure>) returns (called: seq<string>, thrown: Option<Failure>)
      ensures var k := FirstFailure(finalizers, outcome);
        && called == finalizers[..Reached(finalizers, outcome)]
        && thrown == (if k < |finalizers| then outcome(finalizers[k]) else None)
    {
      called := [];
      var i := 0;
      while i < |finalizers|
        invariant 0 <= i <= |finalizers|
        invariant called == finalizers[..i]
        invariant forall j :: 0 <= j < i ==> outcome(finalizers[j]) == None
      {
        var finalizer := finalizers[i];
        called := called + [finalizer];
        var result := outcome(finalizer);
        if result.Some? {
          FirstFailureAt(finalizers, outcome, i);
          return called, result;
        }
        i := i + 1;
      }
      FirstFailureAt(finalizers, outcome, i);
      thrown := None;
    }
  }

  /** The first failure is at `i` when everything before `i` succeeds and `i` fails (or is the end). */
  lemma {:induction false} FirstFailureAt(finalizers: seq<string>, outcome: string -> Option<Failure>, i: nat)
    requires i <= |finalizers|
    requires forall j :: 0 <= j < i ==> outcome(finalizers[j]) == None
    requires i < |finalizers| ==> outcome(finalizers[i]).Some?
    ensures FirstFailure(finalizers, outcome) == i
  {
    if finalizers != [] && i > 0 {
      FirstFailureAt(finalizers[1..], outcome, i - 1);
    }
  }

  /** When no finalizer throws, every one is called exactly once, in order, and nothing is thrown. */
  lemma AllSucceed(finalizers: seq<string>, outcome: string -> Option<Failure>)
    requires forall j :: 0 <= j < |finalizers| ==> outcome(finalizers[j]) == None
    ensures Reached(finalizers, outcome) == |finalizers|
  {
    FirstFailureAt(finalizers, outcome, |finalizers|);
  }

  /** When finalizer `i` is the first to throw, the calls stop right after it. */
  lemma StopsAtFailure(finalizers: seq<string>, outcome: string -> Option<Failure>, i: nat)
    requires i < |finalizers| && outcome(finalizers[i]).Some?
    requires forall j :: 0 <= j < i ==> outcome(finalizers[j]) == None
    ensures Reached(finalizers, outcome) == i + 1
  {
    FirstFailureAt(finalizers, outcome, i);
  }
}
