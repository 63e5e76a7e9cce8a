/**
 * The loops of the nested write builders process the elements of their
 * input in order, each element appending nodes and edges to the graph and
 * possibly stopping with an error.  Each element's contribution is a
 * `Growth`, and a whole loop is specified by `Steps`: the growths of the
 * elements appended one after the other, up to the first error.
 *
 * `step(m, v)` is what element `v` appends when the graph already holds
 * `m` nodes (the node references it creates are numbered from `m`).
 */
module Growths {
  import opened Wrappers
  import opened QueryGraph

  /** What one step appends to the graph, and the error it stops with. */
  datatype Growth = Growth(nodes: seq<Node>, edges: seq<Edge>, error: Option<GraphError>)

  /** Every element can be processed, whatever the size of the graph. */
  ghost predicate StepsDefined<V>(step: (nat, V) --> Growth, vs: seq<V>) {
    forall m: nat, i :: 0 <= i < |vs| ==> step.requires(m, vs[i])
  }

  /** The elements in order, each numbered after the nodes before it, stopping at the first error. */
  function Steps<V>(step: (nat, V) --> Growth, n: nat, vs: seq<V>): Growth
    requires StepsDefined(step, vs)
  {
    if vs == [] then Growth([], [], None)
    else
      var before := Steps(step, n, vs[..|vs| - 1]);
      if before.error.Some? then before
      else
        var s := step(n + |before.nodes|, vs[|vs| - 1]);
        Growth(before.nodes + s.nodes, before.edges + s.edges, s.error)
  }

  /** Processing one more element, when the elements before it succeeded. */
  lemma StepsSnoc<V>(step: (nat, V) --> Growth, n: nat, vs: seq<V>, i: nat)
    requires StepsDefined(step, vs) && i < |vs|
    requires Steps(step, n, vs[..i]).error.None?
    ensures var b := Steps(step, n, vs[..i]);
      var s := step(n + |b.nodes|, vs[i]);
      Steps(step, n, vs[..i + 1]) == Growth(b.nodes + s.nodes, b.edges + s.edges, s.error)
  {
    assert vs[..i + 1][..i] == vs[..i];
  }

  /** Once a prefix has failed, the remaining elements add nothing. */
  lemma {:induction false} StepsStopAtFirstError<V>(step: (nat, V) --> Growth, n: nat, vs: seq<V>, k: nat)
    requires StepsDefined(step, vs) && k <= |vs|
    requires Steps(step, n, vs[..k]).error.Some?
    ensures Steps(step, n, vs) == Steps(step, n, vs[..k])
  {
    if k < |vs| {
      assert vs[..|vs| - 1][..k] == vs[..k];
      StepsStopAtFirstError(step, n, vs[..|vs| - 1], k);
    } else {
      assert vs[..k] == vs;
    }
  }

  /** The growth of a prefix is a prefix of the growth, and succeeds when the whole does. */
  lemma {:induction false} StepsPrefix<V>(step: (nat, V) --> Growth, n: nat, vs: seq<V>, i: nat)
    requires StepsDefined(step, vs) && i <= |vs|
    ensures Steps(step, n, vs[..i]).nodes <= Steps(step, n, vs).nodes
    ensures Steps(step, n, vs[..i]).edges <= Steps(step, n, vs).edges
    ensures Steps(step, n, vs).error.None? ==> Steps(step, n, vs[..i]).error.None?
  {
    if i < |vs| {
      var init := vs[..|vs| - 1];
      assert init[..i] == vs[..i];
      StepsPrefix(step, n, init, i);
    } else {
      assert vs[..i] == vs;
    }
  }

  /** The loop succeeds iff every element is accepted, when acceptance does not depend on the graph's size. */
  lemma {:induction false} StepsOk<V>(step: (nat, V) --> Growth, ok: V -> bool, n: nat, vs: seq<V>)
    requires StepsDefined(step, vs)
    requires forall m: nat, i :: 0 <= i < |vs| ==> (step(m, vs[i]).error.None? <==> ok(vs[i]))
    ensures Steps(step, n, vs).error.None? <==> forall i :: 0 <= i < |vs| ==> ok(vs[i])
  {
    if vs != [] {
      var init := vs[..|vs| - 1];
      StepsOk(step, ok, n, init);
      assert forall i :: 0 <= i < |init| ==> init[i] == vs[i];
    }
  }

  /** Every element that succeeds appends `k` nodes and `e` edges. */
  ghost predicate FixedSize<V>(step: (nat, V) --> Growth, vs: seq<V>, k: nat, e: nat) {
    forall m: nat, i :: 0 <= i < |vs| && step.requires(m, vs[i]) && step(m, vs[i]).error.None? ==>
      |step(m, vs[i]).nodes| == k && |step(m, vs[i]).edges| == e
  }

  /** When every successful step has a fixed size, a successful loop appends that size per element. */
  lemma {:induction false} StepsCount<V>(step: (nat, V) --> Growth, n: nat, vs: seq<V>, k: nat, e: nat)
    requires StepsDefined(step, vs) && FixedSize(step, vs, k, e)
    requires Steps(step, n, vs).error.None?
    ensures |Steps(step, n, vs).nodes| == k * |vs|
    ensures |Steps(step, n, vs).edges| == e * |vs|
  {
    if vs != [] {
      var init := vs[..|vs| - 1];
      assert forall j :: 0 <= j < |init| ==> init[j] == vs[j];
      StepsCount(step, n, init, k, e);
      assert k * |vs| == k * |init| + k && e * |vs| == e * |init| + e;
    }
  }

  /**
   * In a successful loop, element `i` succeeded after the elements before
   * it, and its nodes and edges directly follow theirs.
   */
  lemma StepsPlacement<V>(step: (nat, V) --> Growth, n: nat, vs: seq<V>, i: nat)
    requires StepsDefined(step, vs) && i < |vs|
    requires Steps(step, n, vs).error.None?
    ensures var b := Steps(step, n, vs[..i]);
      var s := step(n + |b.nodes|, vs[i]);
      && b.error.None? && s.error.None?
      && b.nodes + s.nodes <= Steps(step, n, vs).nodes
      && b.edges + s.edges <= Steps(step, n, vs).edges
  {
    StepsPrefix(step, n, vs, i + 1);
    StepsPrefix(step, n, vs, i);
    StepsSnoc(step, n, vs, i);
  }

  /**
   * With fixed sizes, element `i` of a successful loop sits at `k i` among
   * the nodes and at `e i` among the edges, numbered from `n + k i`.
   */
  lemma StepsAt<V>(step: (nat, V) --> Growth, n: nat, vs: seq<V>, k: nat, e: nat, i: nat)
    requires StepsDefined(step, vs) && FixedSize(step, vs, k, e) && i < |vs|
    requires Steps(step, n, vs).error.None?
    ensures var g := Steps(step, n, vs);
      var s := step(n + k * i, vs[i]);
      && s.error.None?
      && k * i + k <= |g.nodes| && g.nodes[k * i..k * i + k] == s.nodes
      && e * i + e <= |g.edges| && g.edges[e * i..e * i + e] == s.edges
  {
    var g := Steps(step, n, vs);
    StepsPlacement(step, n, vs, i);
    var b := Steps(step, n, vs[..i]);
    assert forall j :: 0 <= j < i ==> vs[..i][j] == vs[j];
    StepsCount(step, n, vs[..i], k, e);
    var s := step(n + |b.nodes|, vs[i]);
    assert (b.nodes + s.nodes)[k * i..k * i + k] == s.nodes;
    assert (b.edges + s.edges)[e * i..e * i + e] == s.edges;
  }
}
