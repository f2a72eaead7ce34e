/** The shape every `foreach` of the import takes: a left-to-right walk
    that updates some state per element and stops at the first element
    whose step throws. */
module Folds {
  import opened Wrappers

  /** The state after walking `xs` from `s0`, or the first failure. */
  function FoldSteps<A, S, E>(xs: seq<A>, s0: S, step: (S, A) -> Result<S, E>): Result<S, E>
  {
    if |xs| == 0 then Success(s0)
    else
      var s :- FoldSteps(xs[..|xs| - 1], s0, step);
      step(s, xs[|xs| - 1])
  }

  /** One more element: the step applied to the state so far; and when that
      step fails, the whole walk fails with it. */
  lemma FoldAt<A, S, E>(xs: seq<A>, s0: S, step: (S, A) -> Result<S, E>, i: nat)
    requires i < |xs|
    requires FoldSteps(xs[..i], s0, step).Success?
    ensures FoldSteps(xs[..i + 1], s0, step) == step(FoldSteps(xs[..i], s0, step).value, xs[i])
    ensures step(FoldSteps(xs[..i], s0, step).value, xs[i]).Failure? ==>
              FoldSteps(xs, s0, step) == step(FoldSteps(xs[..i], s0, step).value, xs[i])
  {
    assert xs[..i + 1][..i] == xs[..i];
    if step(FoldSteps(xs[..i], s0, step).value, xs[i]).Failure? {
      FoldFailureSticks(xs, s0, step, i + 1);
    }
  }

  /** A successful walk of a non-empty sequence: the walk of all but the
      last element succeeded, and the last step took it to the end. */
  lemma FoldLast<A, S, E>(xs: seq<A>, s0: S, step: (S, A) -> Result<S, E>)
    requires |xs| > 0
    requires FoldSteps(xs, s0, step).Success?
    ensures FoldSteps(xs[..|xs| - 1], s0, step).Success?
    ensures FoldSteps(xs, s0, step) == step(FoldSteps(xs[..|xs| - 1], s0, step).value, xs[|xs| - 1])
  {
  }

  /** Once a step has failed, the walk fails with that failure. */
  lemma {:induction false} FoldFailureSticks<A, S, E>(xs: seq<A>, s0: S, step: (S, A) -> Result<S, E>, i: nat)
    requires i <= |xs|
    requires FoldSteps(xs[..i], s0, step).Failure?
    ensures FoldSteps(xs, s0, step) == FoldSteps(xs[..i], s0, step)
  {
    if i < |xs| {
      var init := xs[..|xs| - 1];
      assert init[..i] == xs[..i];
      FoldFailureSticks(init, s0, step, i);
    } else {
      assert xs[..i] == xs;
    }
  }

  /** A walk fails only with an error some step can fail with. */
  lemma {:induction false} FoldErrors<A, S, E>(xs: seq<A>, s0: S, step: (S, A) -> Result<S, E>, allowed: E -> bool)
    requires forall s, x :: step(s, x).Failure? ==> allowed(step(s, x).error)
    ensures FoldSteps(xs, s0, step).Failure? ==> allowed(FoldSteps(xs, s0, step).error)
  {
    if |xs| > 0 {
      FoldErrors(xs[..|xs| - 1], s0, step, allowed);
    }
  }

  /** Walking a concatenation walks the second part from the state the first part reached. */
  lemma {:induction false} FoldAppend<A, S, E>(xs: seq<A>, ys: seq<A>, s0: S, step: (S, A) -> Result<S, E>)
    requires FoldSteps(xs, s0, step).Success?
    ensures FoldSteps(xs + ys, s0, step) == FoldSteps(ys, FoldSteps(xs, s0, step).value, step)
  {
    if |ys| == 0 {
      assert xs + ys == xs;
    } else {
      var ys' := ys[..|ys| - 1];
      assert (xs + ys)[..|xs + ys| - 1] == xs + ys';
      FoldAppend(xs, ys', s0, step);
    }
  }

  // ---------------------------------------------------------------------
  // A loop that replaces every element by what a throwing call returns

  function MapOne<A, B, E>(f: A -> Result<B, E>, done: seq<B>, x: A): Result<seq<B>, E> {
    var y :- f(x);
    Success(done + [y])
  }

  function MapStep<A, B, E>(f: A -> Result<B, E>): (seq<B>, A) -> Result<seq<B>, E> {
    (done: seq<B>, x: A) => MapOne(f, done, x)
  }

  /** A completed walk appended each element's own result to `s0`, in order. */
  lemma {:induction false} MapStepsPointwise<A, B, E>(xs: seq<A>, s0: seq<B>, f: A -> Result<B, E>)
    requires FoldSteps(xs, s0, MapStep(f)).Success?
    ensures |FoldSteps(xs, s0, MapStep(f)).value| == |s0| + |xs|
    ensures FoldSteps(xs, s0, MapStep(f)).value[..|s0|] == s0
    ensures forall k :: 0 <= k < |xs| ==> f(xs[k]) == Success(FoldSteps(xs, s0, MapStep(f)).value[|s0| + k])
  {
    if |xs| > 0 {
      var init := xs[..|xs| - 1];
      FoldLast(xs, s0, MapStep(f));
      MapStepsPointwise(init, s0, f);
      var prev := FoldSteps(init, s0, MapStep(f)).value;
      var r := FoldSteps(xs, s0, MapStep(f)).value;
      assert r == prev + [f(xs[|xs| - 1]).value];
      assert r[..|s0|] == prev[..|s0|];
      forall k | 0 <= k < |xs|
        ensures f(xs[k]) == Success(r[|s0| + k])
      {
        if k < |init| {
          assert xs[k] == init[k];
          assert r[|s0| + k] == prev[|s0| + k];
        }
      }
    }
  }

  /** When no element's call fails, the walk completes. */
  lemma {:induction false} MapStepsSucceed<A, B, E>(xs: seq<A>, s0: seq<B>, f: A -> Result<B, E>)
    requires forall k :: 0 <= k < |xs| ==> f(xs[k]).Success?
    ensures FoldSteps(xs, s0, MapStep(f)).Success?
  {
    if |xs| > 0 {
      var init := xs[..|xs| - 1];
      assert forall k :: 0 <= k < |init| ==> init[k] == xs[k];
      MapStepsSucceed(init, s0, f);
    }
  }

  /** When one element's call fails, the walk fails. */
  lemma {:induction false} MapStepsFail<A, B, E>(xs: seq<A>, s0: seq<B>, f: A -> Result<B, E>, k: nat)
    requires k < |xs| && f(xs[k]).Failure?
    ensures FoldSteps(xs, s0, MapStep(f)).Failure?
  {
    var init := xs[..|xs| - 1];
    if k < |init| {
      assert init[k] == xs[k];
      MapStepsFail(init, s0, f, k);
    }
  }

  // ---------------------------------------------------------------------
  // The same, where every call also writes warnings to the log

  function LogOne<A, B, W, E>(f: A -> Result<(B, seq<W>), E>, done: (seq<B>, seq<W>), x: A)
    : Result<(seq<B>, seq<W>), E>
  {
    var y :- f(x);
    Success((done.0 + [y.0], done.1 + y.1))
  }

  function LogStep<A, B, W, E>(f: A -> Result<(B, seq<W>), E>): ((seq<B>, seq<W>), A) -> Result<(seq<B>, seq<W>), E> {
    (done: (seq<B>, seq<W>), x: A) => LogOne(f, done, x)
  }

  lemma {:induction false} LogStepsPointwise<A, B, W, E>(xs: seq<A>, f: A -> Result<(B, seq<W>), E>)
    requires FoldSteps(xs, ([], []), LogStep(f)).Success?
    ensures |FoldSteps(xs, ([], []), LogStep(f)).value.0| == |xs|
    ensures forall k :: 0 <= k < |xs| ==>
              f(xs[k]).Success? && f(xs[k]).value.0 == FoldSteps(xs, ([], []), LogStep(f)).value.0[k]
  {
    if |xs| > 0 {
      var init := xs[..|xs| - 1];
      FoldLast(xs, ([], []), LogStep(f));
      LogStepsPointwise(init, f);
      var prev := FoldSteps(init, ([], []), LogStep(f)).value;
      assert FoldSteps(xs, ([], []), LogStep(f)).value.0 == prev.0 + [f(xs[|xs| - 1]).value.0];
    }
  }

  lemma {:induction false} LogStepsSucceed<A, B, W, E>(xs: seq<A>, f: A -> Result<(B, seq<W>), E>)
    requires forall k :: 0 <= k < |xs| ==> f(xs[k]).Success?
    ensures FoldSteps(xs, ([], []), LogStep(f)).Success?
  {
    if |xs| > 0 {
      var init := xs[..|xs| - 1];
      assert forall k :: 0 <= k < |init| ==> init[k] == xs[k];
      LogStepsSucceed(init, f);
    }
  }
}
