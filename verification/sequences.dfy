/** Generic sequence plumbing behind the export loops: mapping a fallible
    step over a list in order, and concatenating lists (`list.extend`). */
module Sequences {
  import opened Wrappers

  /** Applies `f` to each element in order and collects the results; the
      first failure aborts the whole pass, as an uncaught exception would. */
  function MapUntilFailure<A, B, E>(xs: seq<A>, f: A -> Result<B, E>): (r: Result<seq<B>, E>)
    ensures r.Success? ==> |r.value| == |xs|
    decreases |xs|
  {
    if |xs| == 0 then Success([])
    else
      var done :- MapUntilFailure(xs[..|xs| - 1], f);
      var last :- f(xs[|xs| - 1]);
      Success(done + [last])
  }

  /** The pass succeeds exactly when the step succeeds on every element. */
  lemma {:induction false} MapSucceeds<A, B, E>(xs: seq<A>, f: A -> Result<B, E>)
    ensures MapUntilFailure(xs, f).Success? <==> forall i :: 0 <= i < |xs| ==> f(xs[i]).Success?
    decreases |xs|
  {
    if |xs| > 0 {
      var init := xs[..|xs| - 1];
      MapSucceeds(init, f);
      assert forall i :: 0 <= i < |init| ==> init[i] == xs[i];
    }
  }

  /** On success, result `i` is the step's value on element `i`. */
  lemma {:induction false} MapValues<A, B, E>(xs: seq<A>, f: A -> Result<B, E>)
    requires forall i :: 0 <= i < |xs| ==> f(xs[i]).Success?
    ensures MapUntilFailure(xs, f).Success?
    ensures forall i :: 0 <= i < |xs| ==> MapUntilFailure(xs, f).value[i] == f(xs[i]).value
    decreases |xs|
  {
    MapSucceeds(xs, f);
    if |xs| > 0 {
      var init := xs[..|xs| - 1];
      assert forall i :: 0 <= i < |init| ==> init[i] == xs[i];
      MapValues(init, f);
    }
  }

  /** A failed pass reports the failure of the first failing element. */
  lemma {:induction false} MapFirstFailure<A, B, E>(xs: seq<A>, f: A -> Result<B, E>, i: nat)
    requires i < |xs| && f(xs[i]).Failure?
    requires forall j :: 0 <= j < i ==> f(xs[j]).Success?
    ensures MapUntilFailure(xs, f) == Failure(f(xs[i]).error)
    decreases |xs|
  {
    var init := xs[..|xs| - 1];
    if i < |init| {
      assert init[i] == xs[i];
      MapFirstFailure(init, f, i);
    } else {
      assert forall j :: 0 <= j < |init| ==> init[j] == xs[j];
      MapSucceeds(init, f);
    }
  }

  /** Every failure of the pass is the failure of some element. */
  lemma {:induction false} MapFailureCause<A, B, E>(xs: seq<A>, f: A -> Result<B, E>)
    ensures MapUntilFailure(xs, f).Failure? ==>
      exists i :: 0 <= i < |xs| && f(xs[i]) == Failure(MapUntilFailure(xs, f).error)
    decreases |xs|
  {
    if MapUntilFailure(xs, f).Success? {
      return;
    }
    var init := xs[..|xs| - 1];
    if MapUntilFailure(init, f).Failure? {
      MapFailureCause(init, f);
      var i :| 0 <= i < |init| && f(init[i]) == Failure(MapUntilFailure(init, f).error);
      assert init[i] == xs[i];
    } else {
      assert f(xs[|xs| - 1]).Failure?;
    }
  }

  /** Sum of the lengths of a sequence of lists. */
  function SumLengths<T>(xss: seq<seq<T>>): nat {
    if |xss| == 0 then 0 else SumLengths(xss[..|xss| - 1]) + |xss[|xss| - 1]|
  }

  /** Lists of pairwise equal lengths have equal total length. */
  lemma {:induction false} SumLengthsPointwise<T, U>(a: seq<seq<T>>, b: seq<seq<U>>)
    requires |a| == |b| && forall k :: 0 <= k < |a| ==> |a[k]| == |b[k]|
    ensures SumLengths(a) == SumLengths(b)
    decreases |a|
  {
    if |a| > 0 {
      var aInit, bInit := a[..|a| - 1], b[..|b| - 1];
      assert forall k :: 0 <= k < |aInit| ==> aInit[k] == a[k] && bInit[k] == b[k];
      SumLengthsPointwise(aInit, bInit);
    }
  }

  /** `extend` applied to each list in turn, starting from an empty list. */
  function Flatten<T>(xss: seq<seq<T>>): (r: seq<T>)
    ensures |r| == SumLengths(xss)
    decreases |xss|
  {
    if |xss| == 0 then [] else Flatten(xss[..|xss| - 1]) + xss[|xss| - 1]
  }

  /** Flattening distributes over concatenation of the outer sequence. */
  lemma {:induction false} FlattenAppend<T>(a: seq<seq<T>>, b: seq<seq<T>>)
    ensures Flatten(a + b) == Flatten(a) + Flatten(b)
    decreases |b|
  {
    if |b| == 0 {
      assert a + b == a;
    } else {
      var bInit := b[..|b| - 1];
      assert (a + b)[..|a + b| - 1] == a + bInit;
      FlattenAppend(a, bInit);
    }
  }

  /** List `k` occupies the slice starting at the total length of the lists
      before it: order across and within lists is preserved. */
  lemma {:induction false} FlattenPlacesEachList<T>(xss: seq<seq<T>>, k: nat)
    requires k < |xss|
    ensures SumLengths(xss[..k]) + |xss[k]| <= |Flatten(xss)|
    ensures Flatten(xss)[SumLengths(xss[..k]) .. SumLengths(xss[..k]) + |xss[k]|] == xss[k]
  {
    assert xss == xss[..k + 1] + xss[k + 1..];
    FlattenAppend(xss[..k + 1], xss[k + 1..]);
    assert xss[..k + 1][..k] == xss[..k];
  }

  /** An element of the flattened list comes from one of the lists, and
      every element of every list is in the flattened list. */
  lemma {:induction false} FlattenMembers<T>(xss: seq<seq<T>>, x: T)
    ensures x in Flatten(xss) <==> exists k :: 0 <= k < |xss| && x in xss[k]
    decreases |xss|
  {
    if |xss| > 0 {
      var init := xss[..|xss| - 1];
      FlattenMembers(init, x);
      assert forall k :: 0 <= k < |init| ==> init[k] == xss[k];
    }
  }

  /** Flattening lists of one element each gives those elements in order. */
  lemma {:induction false} FlattenSingletons<T>(xss: seq<seq<T>>)
    requires forall k :: 0 <= k < |xss| ==> |xss[k]| == 1
    ensures |Flatten(xss)| == |xss|
    ensures forall k :: 0 <= k < |xss| ==> Flatten(xss)[k] == xss[k][0]
    decreases |xss|
  {
    if |xss| > 0 {
      var init := xss[..|xss| - 1];
      assert forall k :: 0 <= k < |init| ==> init[k] == xss[k];
      FlattenSingletons(init);
    }
  }
}
