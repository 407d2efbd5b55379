/** Topological order of a dependency graph, and why it exists exactly when there is no cycle. */
module Graphs {
  import opened Lists

  /** For each node the nodes that must come before it. */
  type Graph = map<string, set<string>>

  ghost predicate Edge(g: Graph, u: string, v: string) {
    v in g && u in g[v]
  }

  /** A closed walk with at least one step. */
  ghost predicate IsCycle(g: Graph, p: seq<string>) {
    && |p| >= 2 && p[0] == p[|p| - 1]
    && forall k :: 0 <= k < |p| - 1 ==> Edge(g, p[k], p[k + 1])
  }

  ghost predicate Cyclic(g: Graph) {
    exists p :: IsCycle(g, p)
  }

  ghost predicate WellFormed(g: Graph) {
    forall v :: v in g ==> g[v] <= g.Keys
  }

  /** Every node comes after all the nodes it depends on. */
  ghost predicate Topological(g: Graph, order: seq<string>) {
    forall k :: 0 <= k < |order| ==> order[k] in g && g[order[k]] <= Elems(order[..k])
  }

  // ---------- an order rules out cycles ----------

  lemma EdgeGoesForward(g: Graph, order: seq<string>, i: nat, j: nat)
    requires NoDup(order) && Topological(g, order)
    requires i < |order| && j < |order| && Edge(g, order[i], order[j])
    ensures i < j
  {
    assert order[i] in Elems(order[..j]);
  }

  lemma {:induction false} WalkGoesForward(g: Graph, order: seq<string>, p: seq<string>, n: nat)
      returns (i: nat, j: nat)
    requires NoDup(order) && Topological(g, order) && Elems(order) == g.Keys
    requires 1 <= n < |p|
    requires forall k :: 0 <= k < |p| - 1 ==> Edge(g, p[k], p[k + 1])
    requires WellFormed(g)
    ensures i < j < |order| && order[i] == p[0] && order[j] == p[n]
  {
    assert Edge(g, p[n - 1], p[n]);
    assert p[n - 1] in Elems(order) && p[n] in Elems(order);
    j :| 0 <= j < |order| && order[j] == p[n];
    if n == 1 {
      i :| 0 <= i < |order| && order[i] == p[0];
      EdgeGoesForward(g, order, i, j);
    } else {
      var k;
      i, k := WalkGoesForward(g, order, p, n - 1);
      EdgeGoesForward(g, order, k, j);
    }
  }

  lemma OrderedIsAcyclic(g: Graph, order: seq<string>)
    requires NoDup(order) && Topological(g, order) && Elems(order) == g.Keys && WellFormed(g)
    ensures !Cyclic(g)
  {
    forall p | IsCycle(g, p) ensures false {
      var i, j := WalkGoesForward(g, order, p, |p| - 1);
    }
  }

  lemma TopologicalBefore(g: Graph, order: seq<string>, u: string, v: string)
    requires Topological(g, order) && Elems(order) == g.Keys && Edge(g, u, v)
    ensures Before(order, u, v)
  {
    assert v in Elems(order);
    var j :| 0 <= j < |order| && order[j] == v;
    assert u in Elems(order[..j]);
    var i :| 0 <= i < j && order[i] == u;
  }

  // ---------- being stuck means there is a cycle ----------

  /** No node of the non-empty set `rest` is free of dependencies on `rest`. */
  ghost predicate Stuck(g: Graph, rest: set<string>) {
    && rest != {} && rest <= g.Keys
    && forall v :: v in rest ==> g[v] * rest != {}
  }

  /** A backward walk of `n` steps inside `rest`. */
  ghost function Descend(g: Graph, rest: set<string>, v: string, n: nat): (p: seq<string>)
    requires Stuck(g, rest) && v in rest
    ensures |p| == n + 1 && p[0] == v
    ensures forall k :: 0 <= k <= n ==> p[k] in rest
    ensures forall k :: 0 <= k < n ==> Edge(g, p[k + 1], p[k])
    decreases n
  {
    if n == 0 then [v]
    else
      var u :| u in g[v] * rest;
      [v] + Descend(g, rest, u, n - 1)
  }

  lemma {:induction false} Pigeonhole(p: seq<string>, s: set<string>)
    requires |p| > |s| && forall x :: x in p ==> x in s
    ensures !NoDup(p)
  {
    if NoDup(p) {
      NoDupCard(p);
      SubsetCard(Elems(p), s);
    }
  }

  ghost function Reverse<T>(p: seq<T>): seq<T> {
    seq(|p|, k requires 0 <= k < |p| => p[|p| - 1 - k])
  }

  /** A stretch of a backward walk between two visits of one node, read forwards, is a cycle. */
  lemma RepeatIsCycle(g: Graph, p: seq<string>, i: nat, j: nat)
    requires i < j < |p| && p[i] == p[j]
    requires forall k :: 0 <= k < |p| - 1 ==> Edge(g, p[k + 1], p[k])
    ensures Cyclic(g)
  {
    hide Edge;
    var q := Reverse(p[i..j + 1]);
    forall k | 0 <= k < |q| - 1 ensures Edge(g, q[k], q[k + 1]) {
      assert q[k] == p[j - k] && q[k + 1] == p[j - k - 1];
      assert Edge(g, p[j - k - 1 + 1], p[j - k - 1]);
    }
    assert IsCycle(g, q);
  }

  lemma StuckIsCyclic(g: Graph, rest: set<string>)
    requires Stuck(g, rest)
    ensures Cyclic(g)
  {
    var v :| v in rest;
    var p := Descend(g, rest, v, |rest|);
    hide Edge, Stuck, Descend, Cyclic;
    Pigeonhole(p, rest);
    var i, j :| 0 <= i < j < |p| && p[i] == p[j];
    RepeatIsCycle(g, p, i, j);
  }

  // ---------- the sort ----------

  /** Nodes that wait for nothing, in an order the caller cannot rely on. */
  method ReadyNodes(g: Graph) returns (ready: seq<string>)
    ensures NoDup(ready)
    ensures forall v :: v in ready <==> v in g && g[v] == {}
  {
    ready := [];
    var todo := set v | v in g && g[v] == {};
    while todo != {}
      invariant NoDup(ready)
      invariant forall v :: v in g && g[v] == {} <==> v in todo || v in ready
      invariant forall v :: v in todo ==> v !in ready
      decreases |todo|
    {
      var v :| v in todo;
      todo := todo - {v};
      ready := ready + [v];
    }
  }

  /** A node is queued as soon as all it depends on has been emitted. */
  ghost predicate Queued(g: Graph, order: seq<string>, done: set<string>) {
    forall v :: v in g ==> (v in order <==> g[v] <= done)
  }

  /**
   * Kahn's sort with a first-in first-out queue: `order[..i]` has been emitted, `order[i..]` is the queue. It fails
   * exactly on a graph with a cycle.
   */
  method StaticOrder(nodes: seq<string>, g: Graph) returns (r: Option<seq<string>>)
    requires NoDup(nodes) && Elems(nodes) == g.Keys && WellFormed(g)
    ensures r.None? <==> Cyclic(g)
    ensures r.Some? ==> NoDup(r.value) && Elems(r.value) == g.Keys && Topological(g, r.value)
  {
    hide Topological, Queued, Waits, NoDup, Elems, Cyclic, WellFormed;
    var waiting := g;
    var order := ReadyNodes(g);
    var i := 0;
    StartsTopological(g, order);
    while i < |order|
      invariant 0 <= i <= |order| && NoDup(order) && Topological(g, order)
      invariant Queued(g, order, Elems(order[..i]))
      invariant Waits(g, waiting, Elems(order[..i]))
      decreases |nodes| - i
    {
      Fits(nodes, g, order, i);
      order, waiting := Release(nodes, g, order, waiting, i);
      i := i + 1;
    }
    assert order[..i] == order;
    Exhausted(nodes, g, order);
    r := if |order| == |nodes| then Some(order) else None;
  }

  /** What each node still waits for once `done` has been emitted. */
  ghost predicate Waits(g: Graph, waiting: Graph, done: set<string>) {
    waiting.Keys == g.Keys && forall v :: v in g ==> waiting[v] == g[v] - done
  }

  lemma StartsTopological(g: Graph, order: seq<string>)
    requires forall v :: v in order <==> v in g && g[v] == {}
    ensures Topological(g, order) && Queued(g, order, Elems(order[..0])) && Waits(g, g, Elems(order[..0]))
  {
    assert order[..0] == [];
    forall k | 0 <= k < |order| ensures order[k] in g && g[order[k]] == {} {
      assert order[k] in order;
    }
  }

  /** With the queue empty, either every node was emitted, or those left over block each other. */
  lemma Exhausted(nodes: seq<string>, g: Graph, order: seq<string>)
    requires NoDup(nodes) && Elems(nodes) == g.Keys && WellFormed(g)
    requires NoDup(order) && Topological(g, order) && Queued(g, order, Elems(order))
    ensures |order| == |nodes| <==> !Cyclic(g)
    ensures |order| == |nodes| ==> Elems(order) == g.Keys
  {
    var done := Elems(order);
    TopologicalNodes(g, order);
    NoDupCard(order);
    NoDupCard(nodes);
    SubsetCard(done, g.Keys);
    if |order| == |nodes| {
      OrderedIsAcyclic(g, order);
    } else {
      BlockedRest(g, order);
      StuckIsCyclic(g, g.Keys - done);
    }
  }

  lemma TopologicalNodes(g: Graph, order: seq<string>)
    requires Topological(g, order)
    ensures Elems(order) <= g.Keys
  {
  }

  lemma BlockedRest(g: Graph, order: seq<string>)
    requires Queued(g, order, Elems(order)) && WellFormed(g)
    requires Elems(order) <= g.Keys && Elems(order) != g.Keys
    ensures Stuck(g, g.Keys - Elems(order))
  {
    var rest := g.Keys - Elems(order);
    assert rest != {} by {
      var v :| v in g.Keys && v !in Elems(order);
      assert v in rest;
    }
    forall v | v in rest ensures g[v] * rest != {} {
      assert !(g[v] <= Elems(order));
      var u :| u in g[v] && u !in Elems(order);
      assert u in g[v] * rest;
    }
  }

  lemma Fits(nodes: seq<string>, g: Graph, order: seq<string>, i: nat)
    requires NoDup(nodes) && Elems(nodes) == g.Keys
    requires NoDup(order) && Topological(g, order) && i < |order|
    ensures i < |nodes|
  {
    NoDupCard(order);
    NoDupCard(nodes);
    TopologicalNodes(g, order);
    SubsetCard(Elems(order), g.Keys);
  }

  /** Emit `order[i]` and queue the nodes that waited for it alone. */
  method Release(nodes: seq<string>, g: Graph, order: seq<string>, waiting: Graph, i: nat)
      returns (next: seq<string>, left: Graph)
    requires NoDup(nodes) && Elems(nodes) == g.Keys
    requires i < |order| && NoDup(order) && Topological(g, order)
    requires Queued(g, order, Elems(order[..i]))
    requires Waits(g, waiting, Elems(order[..i]))
    ensures order <= next && NoDup(next) && Topological(g, next)
    ensures Queued(g, next, Elems(next[..i + 1]))
    ensures Waits(g, left, Elems(next[..i + 1]))
  {
    var n := order[i];
    next, left := order, waiting;
    ghost var done, more := Elems(order[..i]), Elems(order[..i + 1]);
    assert more == done + {n} && n !in done;
    hide Topological, NoDup;
    for k := 0 to |nodes|
      invariant order <= next && NoDup(next) && Topological(g, next)
      invariant Progress(nodes, g, left, next, k, done, more)
    {
      assert next[..i + 1] == order[..i + 1];
      next, left := ReleaseOne(nodes, g, next, left, i, k, done, more);
    }
    assert next[..i + 1] == order[..i + 1];
    forall v | v in g ensures left[v] == g[v] - more && (v in next <==> g[v] <= more) {
      assert v in Elems(nodes);
      var j :| 0 <= j < |nodes| && nodes[j] == v;
    }
  }

  /** The first `k` nodes have been told that `more` has been emitted, the others know of `done`. */
  ghost predicate Progress(nodes: seq<string>, g: Graph, left: Graph, order: seq<string>, k: nat,
                           done: set<string>, more: set<string>) {
    && Elems(nodes) == g.Keys == left.Keys
    && forall j :: 0 <= j < |nodes| ==>
         var known := if j < k then more else done;
         nodes[j] in g && left[nodes[j]] == g[nodes[j]] - known && (nodes[j] in order <==> g[nodes[j]] <= known)
  }

  method ReleaseOne(nodes: seq<string>, g: Graph, order: seq<string>, waiting: Graph, i: nat, k: nat,
                    ghost done: set<string>, ghost more: set<string>)
      returns (next: seq<string>, left: Graph)
    requires NoDup(nodes) && k < |nodes| && i < |order|
    requires NoDup(order) && Topological(g, order)
    requires more == done + {order[i]} && order[i] !in done && more == Elems(order[..i + 1])
    requires Progress(nodes, g, waiting, order, k, done, more)
    ensures order <= next && NoDup(next) && Topological(g, next)
    ensures Progress(nodes, g, left, next, k + 1, done, more)
  {
    var n, v := order[i], nodes[k];
    next, left := order, waiting;
    assert v in Elems(nodes);
    if n in left[v] {
      left := left[v := left[v] - {n}];
      if left[v] == {} {
        QueueBehind(g, order, i, v);
        next := order + [v];
      }
    }
  }

  lemma QueueBehind(g: Graph, order: seq<string>, i: nat, v: string)
    requires NoDup(order) && Topological(g, order) && i < |order|
    requires v in g && v !in order && g[v] <= Elems(order[..i + 1])
    ensures NoDup(order + [v]) && Topological(g, order + [v])
  {
    var more := order + [v];
    forall k | 0 <= k < |more| ensures more[k] in g && g[more[k]] <= Elems(more[..k]) {
      if k < |order| {
        assert more[..k] == order[..k];
      } else {
        assert more[..k] == order;
        assert Elems(order[..i + 1]) <= Elems(order);
      }
    }
  }
}
