/**
 * Forests given by parent links: node i hangs under `parents[i]`, or is a root. A depth that grows along every link
 * makes the links acyclic, and walking down from the roots then visits each node once.
 */
module Forest {
  import opened Lists

  type Links = seq<Option<nat>>

  ghost predicate IsForest(parents: Links, depth: seq<nat>) {
    && |parents| == |depth|
    && forall i {:trigger parents[i]} :: 0 <= i < |parents| && parents[i].Some? ==>
         parents[i].value < |parents| && depth[parents[i].value] < depth[i]
  }

  /** The nodes among the first `n` that hang directly under `p` (None: the roots), in order. */
  function Below(parents: Links, p: Option<nat>, n: nat): (r: seq<nat>)
    requires n <= |parents|
    ensures forall j: nat :: j in r <==> j < n && parents[j] == p
    ensures NoDup(r)
  {
    if n == 0 then []
    else
      var rest := Below(parents, p, n - 1);
      if parents[n - 1] == p then rest + [n - 1] else rest
  }

  ghost predicate AllAtLeast(list: seq<nat>, depth: seq<nat>, lo: nat) {
    forall c :: c in list ==> c < |depth| && depth[c] >= lo
  }

  ghost predicate Bounded(depth: seq<nat>, bound: nat) {
    forall i :: 0 <= i < |depth| ==> depth[i] < bound
  }

  /** Depth-first walk through the trees below the listed nodes. */
  ghost function Walk(parents: Links, depth: seq<nat>, bound: nat, list: seq<nat>, lo: nat): seq<nat>
    requires IsForest(parents, depth) && Bounded(depth, bound) && AllAtLeast(list, depth, lo)
    decreases bound - lo, |list|
  {
    if list == [] then []
    else
      var c := list[0];
      assert c in list;
      assert AllAtLeast(list[1..], depth, lo) by {
        forall d | d in list[1..] ensures d in list {}
      }
      [c] + Walk(parents, depth, bound, Below(parents, Some(c), |parents|), depth[c] + 1)
          + Walk(parents, depth, bound, list[1..], lo)
  }

  /** `a` is `j` or one of its ancestors. */
  ghost predicate Ancestor(parents: Links, depth: seq<nat>, a: nat, j: nat)
    requires IsForest(parents, depth) && j < |parents|
    decreases depth[j]
  {
    a == j || (parents[j].Some? && Ancestor(parents, depth, a, parents[j].value))
  }

  ghost function Visits(walk: seq<nat>, j: nat): nat {
    multiset(walk)[j]
  }

  /** How many listed nodes have `j` in their tree. */
  ghost function Trees(parents: Links, depth: seq<nat>, list: seq<nat>, j: nat): nat
    requires IsForest(parents, depth) && j < |parents|
  {
    if list == [] then 0
    else (if Ancestor(parents, depth, list[0], j) then 1 else 0) + Trees(parents, depth, list[1..], j)
  }

  lemma {:induction false} AncestorDepth(parents: Links, depth: seq<nat>, a: nat, j: nat)
    requires IsForest(parents, depth) && j < |parents| && Ancestor(parents, depth, a, j)
    ensures a < |parents| && depth[a] <= depth[j]
    decreases depth[j]
  {
    if a != j {
      AncestorDepth(parents, depth, a, parents[j].value);
    }
  }

  /** Two ancestors of one node lie on one path. */
  lemma {:induction false} AncestorsComparable(parents: Links, depth: seq<nat>, x: nat, y: nat, j: nat)
    requires IsForest(parents, depth) && j < |parents| && x < |parents| && y < |parents|
    requires Ancestor(parents, depth, x, j) && Ancestor(parents, depth, y, j)
    ensures Ancestor(parents, depth, x, y) || Ancestor(parents, depth, y, x)
    decreases depth[j]
  {
    if x != j && y != j {
      AncestorsComparable(parents, depth, x, y, parents[j].value);
    }
  }

  /** Siblings have no node in common. */
  lemma SiblingsDisjoint(parents: Links, depth: seq<nat>, x: nat, y: nat, j: nat)
    requires IsForest(parents, depth) && j < |parents| && x < |parents| && y < |parents|
    requires x != y && parents[x] == parents[y]
    ensures !(Ancestor(parents, depth, x, j) && Ancestor(parents, depth, y, j))
  {
    if Ancestor(parents, depth, x, j) && Ancestor(parents, depth, y, j) {
      AncestorsComparable(parents, depth, x, y, j);
      var p := parents[x];
      if p.Some? {
        AncestorDepth(parents, depth, if Ancestor(parents, depth, x, y) then x else y, p.value);
      }
      assert false;
    }
  }

  lemma {:induction false} NoTree(parents: Links, depth: seq<nat>, list: seq<nat>, j: nat)
    requires IsForest(parents, depth) && j < |parents|
    requires forall c :: c in list ==> !Ancestor(parents, depth, c, j)
    ensures Trees(parents, depth, list, j) == 0
  {
    if list != [] {
      NoTree(parents, depth, list[1..], j);
    }
  }

  lemma {:induction false} OneTree(parents: Links, depth: seq<nat>, list: seq<nat>, x: nat, j: nat)
    requires IsForest(parents, depth) && j < |parents|
    requires NoDup(list) && x in list && Ancestor(parents, depth, x, j)
    requires forall c :: c in list && c != x ==> !Ancestor(parents, depth, c, j)
    ensures Trees(parents, depth, list, j) == 1
  {
    if list[0] == x {
      NoTree(parents, depth, list[1..], j);
    } else {
      OneTree(parents, depth, list[1..], x, j);
    }
  }

  lemma SiblingTrees(parents: Links, depth: seq<nat>, x: nat, j: nat)
    requires IsForest(parents, depth) && j < |parents| && x < |parents| && Ancestor(parents, depth, x, j)
    ensures Trees(parents, depth, Below(parents, parents[x], |parents|), j) == 1
  {
    var list := Below(parents, parents[x], |parents|);
    forall c | c in list && c != x ensures !Ancestor(parents, depth, c, j) {
      SiblingsDisjoint(parents, depth, x, c, j);
    }
    OneTree(parents, depth, list, x, j);
  }

  /** The child of `c` on the way to its proper descendant `j`. */
  lemma {:induction false} ChildTowards(parents: Links, depth: seq<nat>, c: nat, j: nat) returns (x: nat)
    requires IsForest(parents, depth) && j < |parents| && c != j && Ancestor(parents, depth, c, j)
    ensures x < |parents| && parents[x] == Some(c) && Ancestor(parents, depth, x, j)
    decreases depth[j]
  {
    if parents[j].value == c {
      x := j;
    } else {
      x := ChildTowards(parents, depth, c, parents[j].value);
    }
  }

  lemma {:induction false} RootOf(parents: Links, depth: seq<nat>, j: nat) returns (x: nat)
    requires IsForest(parents, depth) && j < |parents|
    ensures x < |parents| && parents[x] == None && Ancestor(parents, depth, x, j)
    decreases depth[j]
  {
    if parents[j].None? {
      x := j;
    } else {
      x := RootOf(parents, depth, parents[j].value);
    }
  }

  /** A node's tree is the node itself and the trees of its children. */
  lemma TreeSplits(parents: Links, depth: seq<nat>, c: nat, j: nat)
    requires IsForest(parents, depth) && c < |parents| && j < |parents|
    ensures (if c == j then 1 else 0) + Trees(parents, depth, Below(parents, Some(c), |parents|), j) ==
            if Ancestor(parents, depth, c, j) then 1 else 0
  {
    if c != j && Ancestor(parents, depth, c, j) {
      var x := ChildTowards(parents, depth, c, j);
      SiblingTrees(parents, depth, x, j);
    } else {
      forall x | x in Below(parents, Some(c), |parents|) ensures !Ancestor(parents, depth, x, j) {
        if Ancestor(parents, depth, x, j) {
          ParentOfAncestor(parents, depth, x, j);
          AncestorDepth(parents, depth, x, j);
        }
      }
      NoTree(parents, depth, Below(parents, Some(c), |parents|), j);
    }
  }

  lemma {:induction false} ParentOfAncestor(parents: Links, depth: seq<nat>, x: nat, j: nat)
    requires IsForest(parents, depth) && j < |parents| && x < |parents| && parents[x].Some?
    requires Ancestor(parents, depth, x, j)
    ensures Ancestor(parents, depth, parents[x].value, j)
    decreases depth[j]
  {
    if x != j {
      ParentOfAncestor(parents, depth, x, parents[j].value);
    } else {
      assert Ancestor(parents, depth, parents[x].value, parents[x].value);
    }
  }

  lemma VisitsConcat(a: seq<nat>, b: seq<nat>, j: nat)
    ensures Visits(a + b, j) == Visits(a, j) + Visits(b, j)
  {
  }

  /** Both parts of a walk are walks over deeper, or fewer, nodes. */
  lemma WalkParts(parents: Links, depth: seq<nat>, bound: nat, list: seq<nat>, lo: nat)
    requires IsForest(parents, depth) && Bounded(depth, bound) && AllAtLeast(list, depth, lo) && list != []
    ensures list[0] < |parents| == |depth| && lo <= depth[list[0]] < bound
    ensures AllAtLeast(Below(parents, Some(list[0]), |parents|), depth, depth[list[0]] + 1)
    ensures AllAtLeast(list[1..], depth, lo)
  {
    assert list[0] in list;
    forall c | c in list[1..] ensures c in list {}
  }

  lemma WalkVisits(parents: Links, depth: seq<nat>, bound: nat, list: seq<nat>, lo: nat, j: nat)
    requires IsForest(parents, depth) && Bounded(depth, bound) && AllAtLeast(list, depth, lo) && list != []
    ensures list[0] < |parents| == |depth| && lo <= depth[list[0]] < bound
    ensures AllAtLeast(Below(parents, Some(list[0]), |parents|), depth, depth[list[0]] + 1)
    ensures AllAtLeast(list[1..], depth, lo)
    ensures Visits(Walk(parents, depth, bound, list, lo), j) ==
            (if list[0] == j then 1 else 0) +
            Visits(Walk(parents, depth, bound, Below(parents, Some(list[0]), |parents|), depth[list[0]] + 1), j) +
            Visits(Walk(parents, depth, bound, list[1..], lo), j)
  {
    WalkParts(parents, depth, bound, list, lo);
    var c := list[0];
    assert depth[c] < bound;
    hide Below, AllAtLeast, Bounded, IsForest;
    var inner := Walk(parents, depth, bound, Below(parents, Some(c), |parents|), depth[c] + 1);
    var outer := Walk(parents, depth, bound, list[1..], lo);
    VisitsConcat([c], inner, j);
    VisitsConcat([c] + inner, outer, j);
  }

  lemma TreesStep(parents: Links, depth: seq<nat>, list: seq<nat>, j: nat)
    requires IsForest(parents, depth) && j < |parents| && list != []
    ensures Trees(parents, depth, list, j) ==
            (if Ancestor(parents, depth, list[0], j) then 1 else 0) + Trees(parents, depth, list[1..], j)
  {
    hide Ancestor, IsForest;
  }

  lemma {:induction false} WalkCounts(parents: Links, depth: seq<nat>, bound: nat, list: seq<nat>, lo: nat, j: nat)
    requires IsForest(parents, depth) && Bounded(depth, bound) && AllAtLeast(list, depth, lo)
    requires j < |parents|
    ensures Visits(Walk(parents, depth, bound, list, lo), j) == Trees(parents, depth, list, j)
    decreases bound - lo, |list|
  {
    hide *;
    if list == [] {
      WalkEmpty(parents, depth, bound, lo, j);
    } else {
      WalkParts(parents, depth, bound, list, lo);
      WalkCounts(parents, depth, bound, Below(parents, Some(list[0]), |parents|), depth[list[0]] + 1, j);
      WalkCounts(parents, depth, bound, list[1..], lo, j);
      WalkCountsUp(parents, depth, bound, list, lo, j);
    }
  }

  lemma WalkEmpty(parents: Links, depth: seq<nat>, bound: nat, lo: nat, j: nat)
    requires IsForest(parents, depth) && Bounded(depth, bound) && AllAtLeast([], depth, lo)
    ensures Visits(Walk(parents, depth, bound, [], lo), j) == 0
    ensures j < |parents| ==> Trees(parents, depth, [], j) == 0
  {
  }

  lemma WalkCountsUp(parents: Links, depth: seq<nat>, bound: nat, list: seq<nat>, lo: nat, j: nat)
    requires IsForest(parents, depth) && Bounded(depth, bound) && AllAtLeast(list, depth, lo) && list != []
    requires list[0] < |parents| && j < |parents|
    requires AllAtLeast(Below(parents, Some(list[0]), |parents|), depth, depth[list[0]] + 1)
    requires AllAtLeast(list[1..], depth, lo)
    requires var below := Below(parents, Some(list[0]), |parents|);
             Visits(Walk(parents, depth, bound, below, depth[list[0]] + 1), j) == Trees(parents, depth, below, j)
    requires Visits(Walk(parents, depth, bound, list[1..], lo), j) == Trees(parents, depth, list[1..], j)
    ensures Visits(Walk(parents, depth, bound, list, lo), j) == Trees(parents, depth, list, j)
  {
    hide *;
    WalkVisits(parents, depth, bound, list, lo, j);
    TreesStep(parents, depth, list, j);
    TreeSplits(parents, depth, list[0], j);
  }

  lemma {:induction false} WalkStaysInside(parents: Links, depth: seq<nat>, bound: nat, list: seq<nat>, lo: nat, j: nat)
    requires IsForest(parents, depth) && Bounded(depth, bound) && AllAtLeast(list, depth, lo)
    requires j >= |parents|
    ensures Visits(Walk(parents, depth, bound, list, lo), j) == 0
    decreases bound - lo, |list|
  {
    hide *;
    if list == [] {
      WalkEmpty(parents, depth, bound, lo, j);
    } else {
      WalkVisits(parents, depth, bound, list, lo, j);
      WalkStaysInside(parents, depth, bound, Below(parents, Some(list[0]), |parents|), depth[list[0]] + 1, j);
      WalkStaysInside(parents, depth, bound, list[1..], lo, j);
    }
  }

  /** The walk from the roots meets every node exactly once, and nothing else. */
  ghost predicate VisitsEachOnce(parents: Links, depth: seq<nat>, bound: nat)
    requires IsForest(parents, depth) && Bounded(depth, bound)
  {
    var walk := Walk(parents, depth, bound, Below(parents, None, |parents|), 0);
    forall j: nat :: Visits(walk, j) == if j < |parents| then 1 else 0
  }

  lemma WalkVisitsEachOnce(parents: Links, depth: seq<nat>, bound: nat)
    requires IsForest(parents, depth) && Bounded(depth, bound)
    ensures VisitsEachOnce(parents, depth, bound)
  {
    var roots := Below(parents, None, |parents|);
    var walk := Walk(parents, depth, bound, roots, 0);
    hide Walk, Visits, Below;
    forall j: nat ensures Visits(walk, j) == if j < |parents| then 1 else 0 {
      if j < |parents| {
        WalkCounts(parents, depth, bound, roots, 0, j);
        var x := RootOf(parents, depth, j);
        SiblingTrees(parents, depth, x, j);
      } else {
        WalkStaysInside(parents, depth, bound, roots, 0, j);
      }
    }
  }

  // ---------- collecting the nodes below a parent one by one ----------

  lemma BelowStart(links: Links)
    ensures forall p :: Below(links, p, 0) == []
  {
  }

  lemma BelowNext(links: Links, k: nat)
    requires k < |links|
    ensures forall p :: Below(links, p, k + 1) == Below(links, p, k) + if links[k] == p then [k] else []
  {
  }
}
