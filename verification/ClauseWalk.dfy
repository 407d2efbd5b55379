/** Walking the clause tree by its own lists of roots and children. */
module ClauseWalk {
  import opened Lists
  import opened Sorting
  import opened Forest
  import opened ClauseIds
  import opened ClauseTree

  /** Depth-first, at most `levels` levels down. */
  ghost function IdWalk(children: map<string, seq<string>>, levels: nat, list: seq<string>): seq<string>
    decreases levels, |list|
  {
    if list == [] || levels == 0 then []
    else
      var below := if list[0] in children then children[list[0]] else [];
      [list[0]] + IdWalk(children, levels - 1, below) + IdWalk(children, levels, list[1..])
  }

  ghost function Ids(nodes: seq<Node>): (r: seq<string>)
    ensures |r| == |nodes| && forall i :: 0 <= i < |nodes| ==> r[i] == nodes[i].id
  {
    seq(|nodes|, i requires 0 <= i < |nodes| => nodes[i].id)
  }

  // ---------- the same walk by positions ----------

  /** A forest of named positions whose children lists are given by name. */
  ghost predicate Linked(ids: seq<string>, parents: Links, depth: seq<nat>, children: map<string, seq<string>>) {
    && IsForest(parents, depth) && |parents| == |depth| == |ids|
    && forall i: nat :: i < |ids| ==>
         ids[i] in children && children[ids[i]] == Names(ids, Below(parents, Some(i), |ids|))
  }

  ghost predicate Inside(list: seq<nat>, n: nat) {
    forall k :: k in list ==> k < n
  }

  lemma NamesConcat(ids: seq<string>, a: seq<nat>, b: seq<nat>)
    requires Inside(a, |ids|) && Inside(b, |ids|)
    ensures Inside(a + b, |ids|) && Names(ids, a + b) == Names(ids, a) + Names(ids, b)
  {
    assert forall k :: k in a + b ==> k in a || k in b;
  }

  lemma ListInside(depth: seq<nat>, list: seq<nat>, lo: nat)
    requires AllAtLeast(list, depth, lo)
    ensures Inside(list, |depth|)
  {
  }

  lemma WalkUnfolds(parents: Links, depth: seq<nat>, bound: nat, list: seq<nat>, lo: nat)
    requires IsForest(parents, depth) && Bounded(depth, bound) && AllAtLeast(list, depth, lo) && list != []
    ensures list[0] < |parents| == |depth| && lo <= depth[list[0]] < bound
    ensures AllAtLeast(Below(parents, Some(list[0]), |parents|), depth, depth[list[0]] + 1)
    ensures AllAtLeast(list[1..], depth, lo)
    ensures Walk(parents, depth, bound, list, lo) ==
            [list[0]] + Walk(parents, depth, bound, Below(parents, Some(list[0]), |parents|), depth[list[0]] + 1)
                      + Walk(parents, depth, bound, list[1..], lo)
  {
    WalkParts(parents, depth, bound, list, lo);
    hide Below;
  }

  lemma IdWalkUnfolds(children: map<string, seq<string>>, levels: nat, list: seq<string>)
    requires list != [] && levels > 0 && list[0] in children
    ensures IdWalk(children, levels, list) ==
            [list[0]] + IdWalk(children, levels - 1, children[list[0]]) + IdWalk(children, levels, list[1..])
  {
  }

  lemma NamesHead(ids: seq<string>, list: seq<nat>)
    requires Inside(list, |ids|) && list != []
    ensures Inside(list[1..], |ids|) && list[0] < |ids| && Inside([list[0]], |ids|)
    ensures Names(ids, list) != [] && Names(ids, list)[0] == ids[list[0]]
    ensures Names(ids, list)[1..] == Names(ids, list[1..]) && Names(ids, [list[0]]) == [ids[list[0]]]
  {
    assert forall k :: k in list[1..] ==> k in list;
    assert list[0] in list;
  }

  /** One node, its tree and the rest of the list: if both parts agree, the walks agree. */
  lemma WalksAgreeStep(ids: seq<string>, children: map<string, seq<string>>, levels: nat, list: seq<nat>,
                       below: seq<nat>, down: seq<nat>, on: seq<nat>)
    requires list != [] && levels > 0 && Inside(list, |ids|) && Inside(below, |ids|)
    requires Inside(down, |ids|) && Inside(on, |ids|)
    requires list[0] < |ids| && ids[list[0]] in children && children[ids[list[0]]] == Names(ids, below)
    requires IdWalk(children, levels - 1, Names(ids, below)) == Names(ids, down)
    requires Inside(list[1..], |ids|) && IdWalk(children, levels, Names(ids, list[1..])) == Names(ids, on)
    ensures var walk := [list[0]] + down + on;
            Inside(walk, |ids|) && IdWalk(children, levels, Names(ids, list)) == Names(ids, walk)
  {
    hide IdWalk, Names;
    NamesHead(ids, list);
    IdWalkUnfolds(children, levels, Names(ids, list));
    NamesConcat(ids, [list[0]], down);
    NamesConcat(ids, [list[0]] + down, on);
  }

  /** With enough levels the walk by names is the walk by positions. */
  lemma {:induction false} WalksAgree(ids: seq<string>, parents: Links, depth: seq<nat>,
                                      children: map<string, seq<string>>, bound: nat, list: seq<nat>, lo: nat,
                                      levels: nat)
    requires Linked(ids, parents, depth, children) && Bounded(depth, bound) && AllAtLeast(list, depth, lo)
    requires lo + levels >= bound
    ensures var walk := Walk(parents, depth, bound, list, lo);
            Inside(list, |ids|) && Inside(walk, |ids|) && IdWalk(children, levels, Names(ids, list)) == Names(ids, walk)
    decreases bound - lo, |list|
  {
    hide Linked, Walk, IdWalk, Names, Below, IsForest, Bounded, AllAtLeast;
    LinkedSizes(ids, parents, depth, children);
    ListInside(depth, list, lo);
    if list == [] {
      NothingToWalk(ids, parents, depth, children, bound, lo, levels);
    } else {
      hide Inside;
      LinkedAt(ids, parents, depth, children, list);
      WalkUnfolds(parents, depth, bound, list, lo);
      var c := list[0];
      var below := Below(parents, Some(c), |parents|);
      WalksAgree(ids, parents, depth, children, bound, below, depth[c] + 1, levels - 1);
      WalksAgree(ids, parents, depth, children, bound, list[1..], lo, levels);
      WalksAgreeStep(ids, children, levels, list, below, Walk(parents, depth, bound, below, depth[c] + 1),
                     Walk(parents, depth, bound, list[1..], lo));
    }
  }

  lemma LinkedSizes(ids: seq<string>, parents: Links, depth: seq<nat>, children: map<string, seq<string>>)
    requires Linked(ids, parents, depth, children)
    ensures IsForest(parents, depth) && |parents| == |depth| == |ids|
  {
  }

  lemma LinkedAt(ids: seq<string>, parents: Links, depth: seq<nat>, children: map<string, seq<string>>, list: seq<nat>)
    requires Linked(ids, parents, depth, children) && |parents| == |ids| && list != [] && Inside(list, |ids|)
    ensures list[0] < |ids| && ids[list[0]] in children
    ensures Inside(Below(parents, Some(list[0]), |parents|), |ids|)
    ensures children[ids[list[0]]] == Names(ids, Below(parents, Some(list[0]), |parents|))
  {
    assert list[0] in list;
  }

  lemma NothingToWalk(ids: seq<string>, parents: Links, depth: seq<nat>, children: map<string, seq<string>>,
                      bound: nat, lo: nat, levels: nat)
    requires Linked(ids, parents, depth, children) && Bounded(depth, bound) && AllAtLeast([], depth, lo)
    ensures Walk(parents, depth, bound, [], lo) == [] && Names(ids, []) == [] && IdWalk(children, levels, []) == []
  {
  }

  // ---------- every id once ----------

  lemma {:induction false} NamesCount(ids: seq<string>, list: seq<nat>, j: nat)
    requires NoDup(ids) && Inside(list, |ids|) && j < |ids|
    ensures multiset(Names(ids, list))[ids[j]] == multiset(list)[j]
  {
    if list != [] {
      hide Names, Inside;
      NamesHead(ids, list);
      NamesCount(ids, list[1..], j);
      assert list == [list[0]] + list[1..];
      assert Names(ids, list) == [ids[list[0]]] + Names(ids, list[1..]);
      assert ids[list[0]] == ids[j] <==> list[0] == j;
    }
  }

  lemma NamesAreIds(ids: seq<string>, list: seq<nat>, id: string)
    requires Inside(list, |ids|) && id !in ids
    ensures multiset(Names(ids, list))[id] == 0
  {
    var names := Names(ids, list);
    forall k | 0 <= k < |names| ensures names[k] != id {
      assert list[k] in list && names[k] == ids[list[k]];
    }
  }

  /** Every id of the nodes once, and nothing else. */
  ghost predicate MeetsEachOnce(walk: seq<string>, ids: seq<string>) {
    forall id :: multiset(walk)[id] == if id in ids then 1 else 0
  }

  lemma DepthsLength(ids: seq<string>)
    ensures |Depths(ids)| == |ids|
  {
  }

  lemma HeldLists(tree: Tree, ids: seq<string>, nodes: map<string, Node>)
    requires Holds(tree, ids, nodes)
    ensures forall id :: id in ids ==> id in nodes
    ensures tree.roots == Hanging(ids, nodes, None)
    ensures forall i :: 0 <= i < |ids| ==>
              ids[i] in tree.children && tree.children[ids[i]] == Hanging(ids, nodes, Some(ids[i]))
  {
    hide Hanging;
    forall i | 0 <= i < |ids| ensures ids[i] in nodes {
      assert ids[i] in ids;
    }
  }

  lemma TreeIsLinked(ordered: seq<Section>, tree: Tree, ids: seq<string>, nodes: map<string, Node>)
    requires NodesOk(ordered, ids, nodes) && NoDup(ids) && Holds(tree, ids, nodes)
    ensures ParentsKnown(ids, nodes) && Linked(ids, Parents(ids, nodes), Depths(ids), tree.children)
    ensures tree.roots == Names(ids, Below(Parents(ids, nodes), None, |ids|))
  {
    hide NodesOk, IsForest, Parents, Depths, Below, Names, Hanging, NoDup, Holds;
    HeldLists(tree, ids, nodes);
    NodesFormForest(ordered, ids, nodes);
    DepthsLength(ids);
    ChildrenAreLinked(ids, nodes);
  }

  lemma NodeIds(ordered: seq<Section>, tree: Tree, ids: seq<string>, nodes: map<string, Node>)
    requires NodesOk(ordered, ids, nodes) && Holds(tree, ids, nodes)
    ensures Ids(tree.nodes) == ids
    ensures forall i :: 0 <= i < |ids| ==> tree.nodes[i].depth == Depths(ids)[i]
  {
    hide Introduces, ParentOf, Depth, Hanging;
    forall i: nat | i < |ids| ensures tree.nodes[i].id == ids[i] && tree.nodes[i].depth == Depths(ids)[i] {
      assert NodeOk(ordered, ids, i, nodes[ids[i]]);
    }
  }

  lemma NamedWalk(ids: seq<string>, walk: seq<nat>)
    requires NoDup(ids) && Inside(walk, |ids|) && forall j: nat :: Visits(walk, j) == if j < |ids| then 1 else 0
    ensures MeetsEachOnce(Names(ids, walk), ids)
  {
    hide Names, NoDup;
    forall id ensures multiset(Names(ids, walk))[id] == if id in ids then 1 else 0 {
      if id in ids {
        var j: nat :| j < |ids| && ids[j] == id;
        NamesCount(ids, walk, j);
        assert Visits(walk, j) == 1;
      } else {
        NamesAreIds(ids, walk, id);
      }
    }
  }

  lemma ForestWalk(ids: seq<string>, parents: Links, depth: seq<nat>, children: map<string, seq<string>>, levels: nat)
    requires Linked(ids, parents, depth, children) && NoDup(ids) && Bounded(depth, levels)
    ensures |parents| == |ids| && Inside(Below(parents, None, |ids|), |ids|)
    ensures MeetsEachOnce(IdWalk(children, levels, Names(ids, Below(parents, None, |ids|))), ids)
  {
    LinkedSizes(ids, parents, depth, children);
    var roots := Below(parents, None, |ids|);
    WalkVisitsEachOnce(parents, depth, levels);
    hide Linked, Walk, IdWalk, Names, Below, IsForest, Bounded, NoDup, Visits, MeetsEachOnce, Inside;
    WalksAgree(ids, parents, depth, children, levels, roots, 0, levels);
    NamedWalk(ids, Walk(parents, depth, levels, roots, 0));
  }

  lemma WalkOfNodes(ordered: seq<Section>, tree: Tree, ids: seq<string>, nodes: map<string, Node>, levels: nat)
    requires NodesOk(ordered, ids, nodes) && NoDup(ids) && Holds(tree, ids, nodes) && Bounded(Depths(ids), levels)
    ensures MeetsEachOnce(IdWalk(tree.children, levels, tree.roots), ids)
  {
    hide NodesOk, Holds, Linked, IdWalk, Parents, Depths, Names, Below, Bounded, NoDup, MeetsEachOnce, Inside;
    TreeIsLinked(ordered, tree, ids, nodes);
    ForestWalk(ids, Parents(ids, nodes), Depths(ids), tree.children, levels);
  }

  /**
   * Walking down the tree by its own roots and children meets every id of its node list exactly once and no other, and
   * it needs no more levels than the reported greatest depth, plus one.
   */
  lemma WalkingTheTree(sections: seq<Section>, tree: Tree, levels: nat)
    requires IsTreeOf(Sort(sections, SectionLeq()), tree) && Tallest(tree.nodes, tree.stats.maxDepth)
    requires levels > tree.stats.maxDepth
    ensures MeetsEachOnce(IdWalk(tree.children, levels, tree.roots), Ids(tree.nodes)) && NoDup(Ids(tree.nodes))
  {
    var ordered := Sort(sections, SectionLeq());
    hide Sort, SectionLeq, SectionIds, Holds, NodesOk, Dedup, MeetsEachOnce, IdWalk;
    var ids, nodes :| ids == Dedup(SectionIds(ordered)) && NodesOk(ordered, ids, nodes) && Holds(tree, ids, nodes);
    NodeIds(ordered, tree, ids, nodes);
    DepthsLength(ids);
    forall i | 0 <= i < |ids| ensures Depths(ids)[i] < levels {
      assert tree.nodes[i] in tree.nodes;
    }
    WalkOfNodes(ordered, tree, ids, nodes, levels);
  }
}
