/**
 * The clause tree of a norm: section headings become nodes, and each node finds its parent among the earlier ones. The
 * builder keeps dictionaries (nodes, the last Chinese unit of each kind, a stack by depth); the specification scans the
 * earlier ids backwards.
 */
module ClauseTree {
  import opened Lists
  import opened Text
  import opened Sorting
  import opened Forest
  import opened ClauseIds

  datatype Section = Section(sectionNo: string, title: string, page: int, line: int)

  datatype Node = Node(id: string, title: string, depth: nat, parent: Option<string>, page: int, line: int)

  datatype Stats = Stats(nodeCount: nat, rootCount: nat, maxDepth: nat, orphanCount: nat)

  // ---------- the specification: backward scans ----------

  /** The last earlier Chinese clause of a unit. */
  function LastOfUnit(ids: seq<string>, unit: char): (r: Option<string>)
    ensures r.Some? ==> r.value in ids && CnUnit(r.value) == Some(unit)
    ensures r.None? ==> forall id :: id in ids ==> CnUnit(id) != Some(unit)
  {
    if ids == [] then None
    else
      var n := |ids| - 1;
      if CnUnit(ids[n]) == Some(unit) then Some(ids[n]) else LastOfUnit(ids[..n], unit)
  }

  /** Position of the nearest earlier id of smaller depth. */
  function NearestAt(ids: seq<string>, depth: nat): (r: Option<nat>)
    ensures r.Some? ==> r.value < |ids|
  {
    if ids == [] then None
    else
      var n := |ids| - 1;
      if Depth(ids[n]) < depth then Some(n) else NearestAt(ids[..n], depth)
  }

  lemma {:induction false} NearestMeans(ids: seq<string>, depth: nat)
    ensures var p := NearestAt(ids, depth);
            && (p.Some? ==> Depth(ids[p.value]) < depth && forall q :: p.value < q < |ids| ==> Depth(ids[q]) >= depth)
            && (p.None? ==> forall q :: 0 <= q < |ids| ==> Depth(ids[q]) >= depth)
  {
    hide Depth;
    if ids != [] {
      var n := |ids| - 1;
      NearestMeans(ids[..n], depth);
      assert forall q :: 0 <= q < n ==> ids[q] == ids[..n][q];
    }
  }

  function Nearest(ids: seq<string>, depth: nat): Option<string> {
    var at := NearestAt(ids, depth);
    if at.Some? then Some(ids[at.value]) else None
  }

  function OrElse(a: Option<string>, b: Option<string>): Option<string> {
    if a.Some? then a else b
  }

  /** A section looks for its chapter, an article for its section or chapter, a paragraph for any of these. */
  function CnParent(ids: seq<string>, unit: Option<char>): Option<string> {
    if unit == Some(SECTION) then LastOfUnit(ids, CHAPTER)
    else if unit == Some(ARTICLE) then OrElse(LastOfUnit(ids, SECTION), LastOfUnit(ids, CHAPTER))
    else if unit == Some(PARAGRAPH) then
      OrElse(LastOfUnit(ids, ARTICLE), OrElse(LastOfUnit(ids, SECTION), LastOfUnit(ids, CHAPTER)))
    else None
  }

  /** The three rules in order: longest prefix, Chinese unit, nearest earlier id of smaller depth. */
  function ParentOf(earlier: seq<string>, id: string): Option<string> {
    var prefix := FindNumericParent(id, set x | x in earlier);
    OrElse(prefix, OrElse(CnParent(earlier, CnUnit(id)), Nearest(earlier, Depth(id))))
  }

  lemma CnDepth(id: string)
    requires CnUnit(id).Some?
    ensures Depth(id) == UnitDepth(CnUnit(id).value)
  {
    assert Split(id) != [];
    CnIsNothingElse(id);
  }

  lemma CnIsNothingElse(id: string)
    requires IsCnClause(id)
    ensures !IsNumeric(id) && !IsAnnex(id) && !IsAppendix(id)
  {
    FirstPart(id);
    var head := Split(id)[0];
    assert head in Split(id);
    assert head[0] in head;
    if head[0] != ANNEX_MARK && AnnexHead(head) {
      assert head[0] in head;
    }
  }

  /** The first part starts with the first character, unless that is a dot. */
  lemma FirstPart(s: string)
    requires s != "" && s[0] != '.'
    ensures Split(s)[0] != "" && Split(s)[0][0] == s[0]
  {
  }

  /** Whichever rule supplies the parent, it is an earlier id of strictly smaller depth. */
  lemma ParentIsEarlierAndHigher(earlier: seq<string>, id: string)
    ensures var p := ParentOf(earlier, id);
            p.Some? ==> p.value in earlier && Depth(p.value) < Depth(id)
  {
    hide Depth, LastOfUnit, FindNumericParent, CnUnit, NearestAt, CnParent;
    PrefixIsHigher(earlier, id);
    CnParentIsHigher(earlier, id);
    NearestMeans(earlier, Depth(id));
  }

  lemma PrefixIsHigher(earlier: seq<string>, id: string)
    ensures var p := FindNumericParent(id, set x | x in earlier);
            p.Some? ==> p.value in earlier && Depth(p.value) < Depth(id)
  {
    hide Depth, Prefix, Split;
    var prefix := FindNumericParent(id, set x | x in earlier);
    if prefix.Some? {
      var k :| 1 <= k <= |Split(id)| - 1 && prefix.value == Prefix(id, k);
      PrefixDepth(id, k);
    }
  }

  lemma CnParentIsHigher(earlier: seq<string>, id: string)
    ensures var p := CnParent(earlier, CnUnit(id));
            p.Some? ==> p.value in earlier && Depth(p.value) < Depth(id)
  {
    hide Depth, LastOfUnit, CnUnit;
    var cn := CnParent(earlier, CnUnit(id));
    if cn.Some? {
      CnDepth(id);
      CnDepth(cn.value);
    }
  }

  lemma {:induction false} LongestPrefixIs(id: string, n: nat, existing: set<string>, k: nat)
    requires 1 <= k <= n < |Split(id)| && Prefix(id, k) in existing
    requires forall j :: k < j <= n ==> Prefix(id, j) !in existing
    ensures LongestPrefix(id, n, existing) == Some(Prefix(id, k))
  {
    hide Prefix, Split;
    if k < n {
      LongestPrefixIs(id, n - 1, existing, k);
    }
  }

  /** A node with dotted prefixes hangs under the longest one seen so far, if there is any. */
  lemma PrefixRule(earlier: seq<string>, id: string, k: nat)
    requires HasPrefixes(id) && 1 <= k < |Split(id)| && Prefix(id, k) in earlier
    requires forall j :: k < j < |Split(id)| ==> Prefix(id, j) !in earlier
    ensures ParentOf(earlier, id) == Some(Prefix(id, k))
  {
    hide HasPrefixes, LongestPrefix, Prefix, Split, CnParent, Nearest, Depth, CnUnit;
    LongestPrefixIs(id, |Split(id)| - 1, (set x | x in earlier), k);
  }

  // ---------- the stack by depth ----------

  /** Nothing after position `p` is as high as the id there. */
  ghost predicate Exposed(ids: seq<string>, p: nat) {
    p < |ids| && forall q :: p < q < |ids| ==> Depth(ids[q]) > Depth(ids[p])
  }

  /** Every exposed id is remembered at its depth. */
  ghost predicate Remembered(ids: seq<string>, at: map<nat, nat>) {
    forall p: nat :: Exposed(ids, p) ==> Depth(ids[p]) in at && at[Depth(ids[p])] == p
  }

  /** The stack holds exactly the exposed ids; `at` remembers where they stand. */
  ghost predicate StackOk(ids: seq<string>, stack: map<nat, string>, at: map<nat, nat>) {
    && stack.Keys == at.Keys
    && (forall d :: d in at ==> Exposed(ids, at[d]) && Depth(ids[at[d]]) == d && stack[d] == ids[at[d]])
    && Remembered(ids, at)
  }

  /** Deeper stack entries stand later. */
  lemma KeysAndPositionsRise(ids: seq<string>, stack: map<nat, string>, at: map<nat, nat>, d: nat, e: nat)
    requires StackOk(ids, stack, at) && d in at && e in at
    ensures d < e <==> at[d] < at[e]
  {
    hide Depth;
  }

  /** The largest key below `depth` belongs to the nearest earlier id of smaller depth. */
  lemma StackFindsNearest(ids: seq<string>, stack: map<nat, string>, at: map<nat, nat>, depth: nat)
    requires StackOk(ids, stack, at)
    ensures var p := NearestAt(ids, depth);
            && (p.None? ==> forall k :: k in stack ==> k >= depth)
            && (p.Some? ==> var d := Depth(ids[p.value]);
                            d in stack && stack[d] == ids[p.value] && forall k :: d < k < depth ==> k !in stack)
  {
    hide Depth, NearestAt;
    NearestMeans(ids, depth);
    var p := NearestAt(ids, depth);
    if p.Some? {
      assert Exposed(ids, p.value);
      var d := Depth(ids[p.value]);
      forall k | d < k < depth ensures k !in stack {
        if k in stack {
          KeysAndPositionsRise(ids, stack, at, d, k);
        }
      }
    }
  }

  /** The depth at which a probe from below `depth` upwards first hits the stack, 0 if it never does. */
  lemma FirstHit(ids: seq<string>, stack: map<nat, string>, at: map<nat, nat>, depth: nat) returns (d: nat)
    requires StackOk(ids, stack, at)
    ensures d == 0 ==> Nearest(ids, depth) == None && forall k :: 1 <= k < depth ==> k !in stack
    ensures d > 0 ==>
              && d < depth && d in stack && Nearest(ids, depth) == Some(stack[d])
              && forall k :: d < k < depth ==> k !in stack
  {
    hide StackOk, Depth, NearestAt;
    StackFindsNearest(ids, stack, at, depth);
    NearestMeans(ids, depth);
    DepthPositive(ids);
    var p := NearestAt(ids, depth);
    d := if p.Some? then Depth(ids[p.value]) else 0;
  }

  method ProbeStack(ghost ids: seq<string>, stack: map<nat, string>, ghost at: map<nat, nat>, depth: nat)
      returns (parent: Option<string>)
    requires StackOk(ids, stack, at)
    ensures parent == Nearest(ids, depth)
  {
    hide StackOk, Nearest;
    ghost var d := FirstHit(ids, stack, at, depth);
    var probe := depth;
    while probe > 1
      invariant d < probe <= depth || probe == depth
      invariant forall k :: probe <= k < depth ==> k !in stack
    {
      probe := probe - 1;
      if probe in stack {
        return Some(stack[probe]);
      }
    }
    return None;
  }

  lemma DepthPositive(ids: seq<string>)
    ensures forall q :: 0 <= q < |ids| ==> Depth(ids[q]) >= 1
  {
  }

  /** Remember `id` at its depth and forget everything deeper. */
  function PushStack(stack: map<nat, string>, depth: nat, id: string): map<nat, string> {
    var more := stack[depth := id];
    map k | k in more && !(k > depth) :: more[k]
  }

  ghost function PushAt(at: map<nat, nat>, depth: nat, p: nat): map<nat, nat> {
    map k | k in at.Keys + {depth} && k <= depth :: if k == depth then p else at[k]
  }

  lemma PushRemembers(ids: seq<string>, at: map<nat, nat>, id: string)
    requires Remembered(ids, at)
    ensures Remembered(ids + [id], PushAt(at, Depth(id), |ids|))
  {
    hide Depth;
    var more := ids + [id];
    forall p: nat | Exposed(more, p)
      ensures Depth(more[p]) in PushAt(at, Depth(id), |ids|) && PushAt(at, Depth(id), |ids|)[Depth(more[p])] == p
    {
      ExposedSnoc(ids, id, p);
      if p < |ids| { assert Exposed(ids, p) && more[p] == ids[p]; }
    }
  }

  lemma PushKeepsStack(ids: seq<string>, stack: map<nat, string>, at: map<nat, nat>, id: string)
    requires StackOk(ids, stack, at)
    ensures StackOk(ids + [id], PushStack(stack, Depth(id), id), PushAt(at, Depth(id), |ids|))
  {
    hide Depth, Remembered;
    PushRemembers(ids, at, id);
    var more, d := ids + [id], Depth(id);
    var at' := PushAt(at, d, |ids|);
    forall e | e in at' ensures Exposed(more, at'[e]) && Depth(more[at'[e]]) == e
        && PushStack(stack, d, id)[e] == more[at'[e]] {
      ExposedSnoc(ids, id, at'[e]);
      if e < d { assert Exposed(ids, at[e]); }
    }
  }

  lemma ExposedSnoc(ids: seq<string>, id: string, p: nat)
    ensures Exposed(ids + [id], p) <==> p == |ids| || (Exposed(ids, p) && Depth(ids[p]) < Depth(id))
  {
    hide Depth;
    var more := ids + [id];
    if Exposed(more, p) && p < |ids| {
      assert more[|ids|] == id;
      forall q | p < q < |ids| ensures Depth(ids[q]) > Depth(ids[p]) { assert more[q] == ids[q]; }
    }
  }

  // ---------- the last Chinese unit of each kind ----------

  function Get(m: map<char, string>, c: char): Option<string> {
    if c in m then Some(m[c]) else None
  }

  ghost predicate LastCnOk(ids: seq<string>, lastCn: map<char, string>) {
    forall u :: IsUnit(u) ==> Get(lastCn, u) == LastOfUnit(ids, u)
  }

  method CnParentFrom(ghost ids: seq<string>, lastCn: map<char, string>, unit: Option<char>)
      returns (parent: Option<string>)
    requires LastCnOk(ids, lastCn)
    ensures parent == CnParent(ids, unit)
  {
    assert IsUnit(CHAPTER) && IsUnit(SECTION) && IsUnit(ARTICLE);
    hide LastOfUnit;
    if unit == Some(SECTION) {
      parent := Get(lastCn, CHAPTER);
    } else if unit == Some(ARTICLE) {
      parent := OrElse(Get(lastCn, SECTION), Get(lastCn, CHAPTER));
    } else if unit == Some(PARAGRAPH) {
      parent := OrElse(Get(lastCn, ARTICLE), OrElse(Get(lastCn, SECTION), Get(lastCn, CHAPTER)));
    } else {
      parent := None;
    }
  }

  lemma LastCnStep(ids: seq<string>, id: string, lastCn: map<char, string>)
    requires LastCnOk(ids, lastCn)
    ensures LastCnOk(ids + [id], if CnUnit(id).Some? then lastCn[CnUnit(id).value := id] else lastCn)
  {
    hide CnUnit;
    assert (ids + [id])[..|ids|] == ids;
  }

  // ---------- collecting the nodes ----------

  function SectionId(ordered: seq<Section>, k: nat): string
    requires k < |ordered|
  {
    NormalizeClauseId(ordered[k].sectionNo, k + 1)
  }

  function SectionIds(ordered: seq<Section>): seq<string> {
    seq(|ordered|, k requires 0 <= k < |ordered| => SectionId(ordered, k))
  }

  /** The node of an id: title and place come from the section `s` that introduced it. */
  function NodeFor(s: Section, id: string, parent: Option<string>): Node {
    var title := Strip(s.title);
    Node(id, if title == "" then id else title, Depth(id), parent, s.page, s.line)
  }

  /** `s` is the first section that carries the id. */
  ghost predicate Introduces(ordered: seq<Section>, s: Section, id: string) {
    exists k: nat :: k < |ordered| && ordered[k] == s && SectionIds(ordered)[k] == id &&
      forall j :: 0 <= j < k ==> SectionIds(ordered)[j] != id
  }

  /** The node of `ids[i]`, with the parent the backward scans over the earlier ids find. */
  ghost predicate NodeOk(ordered: seq<Section>, ids: seq<string>, i: nat, node: Node)
    requires i < |ids|
  {
    exists s :: Introduces(ordered, s, ids[i]) && node == NodeFor(s, ids[i], ParentOf(ids[..i], ids[i]))
  }

  /** Every kept id has its node. */
  ghost predicate NodesOk(ordered: seq<Section>, ids: seq<string>, nodes: map<string, Node>) {
    && nodes.Keys == Elems(ids)
    && forall i: nat :: i < |ids| ==> ids[i] in nodes && NodeOk(ordered, ids, i, nodes[ids[i]])
  }

  lemma IntroducedEarlier(ordered: seq<Section>, n: nat, s: Section, id: string)
    requires n < |ordered| && Introduces(ordered[..n], s, id)
    ensures Introduces(ordered[..n + 1], s, id)
  {
    var k: nat :| k < n && ordered[..n][k] == s && SectionIds(ordered[..n])[k] == id &&
      forall j :: 0 <= j < k ==> SectionIds(ordered[..n])[j] != id;
    SectionIdsPrefix(ordered, n);
    hide NormalizeClauseId;
    assert ordered[..n + 1][k] == s;
  }

  lemma SectionIdsPrefix(ordered: seq<Section>, n: nat)
    requires n < |ordered|
    ensures SectionIds(ordered[..n + 1]) == SectionIds(ordered[..n]) + [SectionId(ordered, n)]
  {
    hide NormalizeClauseId;
  }

  lemma IntroducedNow(ordered: seq<Section>, n: nat)
    requires n < |ordered| && SectionId(ordered, n) !in SectionIds(ordered[..n])
    ensures Introduces(ordered[..n + 1], ordered[n], SectionId(ordered, n))
  {
    SectionIdsPrefix(ordered, n);
    hide NormalizeClauseId, SectionId;
    var all := SectionIds(ordered[..n + 1]);
    assert all[n] == SectionId(ordered, n);
    forall j | 0 <= j < n ensures all[j] != SectionId(ordered, n) {
      assert all[j] == SectionIds(ordered[..n])[j];
    }
    assert ordered[..n + 1][n] == ordered[n];
  }

  lemma NodesOkKept(ordered: seq<Section>, n: nat, ids: seq<string>, nodes: map<string, Node>)
    requires n < |ordered| && NodesOk(ordered[..n], ids, nodes)
    ensures NodesOk(ordered[..n + 1], ids, nodes)
  {
    hide Introduces, NodeFor, ParentOf;
    forall i: nat | i < |ids| ensures NodeOk(ordered[..n + 1], ids, i, nodes[ids[i]]) {
      assert NodeOk(ordered[..n], ids, i, nodes[ids[i]]);
      var s :| Introduces(ordered[..n], s, ids[i]) && nodes[ids[i]] == NodeFor(s, ids[i], ParentOf(ids[..i], ids[i]));
      IntroducedEarlier(ordered, n, s, ids[i]);
    }
  }

  lemma NodesOkGrown(ordered: seq<Section>, ids: seq<string>, nodes: map<string, Node>, s: Section, id: string)
    requires NodesOk(ordered, ids, nodes) && id !in ids && Introduces(ordered, s, id)
    ensures NodesOk(ordered, ids + [id], nodes[id := NodeFor(s, id, ParentOf(ids, id))])
  {
    hide Introduces, NodeFor, ParentOf;
    var more := ids + [id];
    var nodes' := nodes[id := NodeFor(s, id, ParentOf(ids, id))];
    assert Elems(more) == Elems(ids) + {id};
    forall i: nat | i < |more| ensures more[i] in nodes' && NodeOk(ordered, more, i, nodes'[more[i]]) {
      if i < |ids| {
        assert more[..i] == ids[..i] && more[i] == ids[i] && ids[i] in ids;
        assert NodeOk(ordered, ids, i, nodes[ids[i]]);
      } else {
        assert more[..i] == ids;
      }
    }
  }

  /** The builder's first loop: dictionaries and stack give each node the parent the plain scans would find. */
  method CollectNodes(ordered: seq<Section>) returns (ids: seq<string>, nodes: map<string, Node>)
    ensures ids == Dedup(SectionIds(ordered))
    ensures NodesOk(ordered, ids, nodes)
  {
    hide StackOk, LastCnOk, NodesOk, SectionIds, SectionId, ParentOf, NodeFor, Introduces, Depth, CnUnit,
         FindNumericParent, NormalizeClauseId;
    ids, nodes := [], map[];
    var lastCn: map<char, string> := map[];
    var stack: map<nat, string> := map[];
    ghost var at: map<nat, nat> := map[];
    NothingCollected(ordered);
    for k := 0 to |ordered|
      invariant ids == Dedup(SectionIds(ordered[..k]))
      invariant NodesOk(ordered[..k], ids, nodes) && nodes.Keys == Elems(ids)
      invariant StackOk(ids, stack, at) && LastCnOk(ids, lastCn)
    {
      var id := SectionId(ordered, k);
      SectionIdsPrefix(ordered, k);
      DedupSnoc(SectionIds(ordered[..k]), id);
      NodesOkKept(ordered, k, ids, nodes);
      if id in nodes {
        continue;
      }
      var unit := CnUnit(id);
      assert nodes.Keys == (set x | x in ids);
      var parent := FindNumericParent(id, nodes.Keys);
      if parent.None? {
        parent := CnParentFrom(ids, lastCn, unit);
      }
      if parent.None? {
        parent := ProbeStack(ids, stack, at, Depth(id));
      }
      ParentAgrees(ids, id, parent);
      IntroducedNow(ordered, k);
      NodesOkGrown(ordered[..k + 1], ids, nodes, ordered[k], id);
      PushKeepsStack(ids, stack, at, id);
      LastCnStep(ids, id, lastCn);
      nodes := nodes[id := NodeFor(ordered[k], id, parent)];
      stack, at := PushStack(stack, Depth(id), id), PushAt(at, Depth(id), |ids|);
      ids := ids + [id];
      if unit.Some? {
        lastCn := lastCn[unit.value := id];
      }
      NodesOkKeys(ordered[..k + 1], ids, nodes);
    }
    assert ordered[..|ordered|] == ordered;
  }

  lemma NothingCollected(ordered: seq<Section>)
    ensures SectionIds(ordered[..0]) == [] && NodesOk(ordered[..0], [], map[])
    ensures StackOk([], map[], map[]) && LastCnOk([], map[])
  {
  }

  lemma NodesOkKeys(ordered: seq<Section>, ids: seq<string>, nodes: map<string, Node>)
    requires NodesOk(ordered, ids, nodes)
    ensures nodes.Keys == Elems(ids)
  {
  }

  lemma ParentAgrees(ids: seq<string>, id: string, parent: Option<string>)
    requires var prefix := FindNumericParent(id, set x | x in ids);
             parent == OrElse(prefix, OrElse(CnParent(ids, CnUnit(id)), Nearest(ids, Depth(id))))
    ensures parent == ParentOf(ids, id)
  {
  }

  // ---------- children and roots ----------

  /** The ids whose node names `p` as its parent (None: no parent), in order. */
  function Hanging(ids: seq<string>, nodes: map<string, Node>, p: Option<string>): (r: seq<string>)
    requires forall id :: id in ids ==> id in nodes
  {
    if ids == [] then []
    else
      var n := |ids| - 1;
      assert ids[n] in ids;
      Hanging(ids[..n], nodes, p) + if nodes[ids[n]].parent == p then [ids[n]] else []
  }

  lemma HangingStep(ids: seq<string>, nodes: map<string, Node>, p: Option<string>, n: nat)
    requires (forall id :: id in ids ==> id in nodes) && n < |ids|
    ensures Hanging(ids[..n + 1], nodes, p) ==
            Hanging(ids[..n], nodes, p) + if nodes[ids[n]].parent == p then [ids[n]] else []
  {
    assert ids[..n + 1][..n] == ids[..n];
  }

  /** The builder's second loop. */
  method LinkChildren(ids: seq<string>, nodes: map<string, Node>)
      returns (roots: seq<string>, children: map<string, seq<string>>)
    requires nodes.Keys == Elems(ids)
    requires forall id :: id in nodes && nodes[id].parent.Some? ==> nodes[id].parent.value in nodes
    ensures roots == Hanging(ids, nodes, None)
    ensures children.Keys == nodes.Keys && forall id :: id in nodes ==> children[id] == Hanging(ids, nodes, Some(id))
  {
    roots := [];
    children := map id | id in nodes :: [];
    for k := 0 to |ids|
      invariant roots == Hanging(ids[..k], nodes, None)
      invariant children.Keys == nodes.Keys
      invariant forall id :: id in nodes ==> children[id] == Hanging(ids[..k], nodes, Some(id))
    {
      var id := ids[k];
      assert id in nodes;
      var p := nodes[id].parent;
      forall q ensures Hanging(ids[..k + 1], nodes, q) == Hanging(ids[..k], nodes, q) + if p == q then [id] else [] {
        HangingStep(ids, nodes, q, k);
      }
      hide Hanging;
      if p.Some? && p.value in nodes {
        children := children[p.value := children[p.value] + [id]];
      } else {
        roots := roots + [id];
      }
    }
    assert ids[..|ids|] == ids;
  }

  // ---------- the nodes form a forest ----------

  ghost function IndexOf(ids: seq<string>, id: string): (k: nat)
    requires id in ids
    ensures k < |ids| && ids[k] == id
  {
    var k :| 0 <= k < |ids| && ids[k] == id; k
  }

  ghost predicate ParentsKnown(ids: seq<string>, nodes: map<string, Node>) {
    forall id :: id in ids ==> id in nodes && (nodes[id].parent.Some? ==> nodes[id].parent.value in ids)
  }

  /** The parents as positions. */
  ghost function Parents(ids: seq<string>, nodes: map<string, Node>): (r: Links)
    requires ParentsKnown(ids, nodes)
    ensures |r| == |ids|
  {
    seq(|ids|, i requires 0 <= i < |ids| =>
      assert ids[i] in ids;
      var p := nodes[ids[i]].parent;
      if p.Some? then Some(IndexOf(ids, p.value)) else None)
  }

  ghost function Depths(ids: seq<string>): seq<nat> {
    seq(|ids|, i requires 0 <= i < |ids| => Depth(ids[i]))
  }

  /** Every parent is an earlier node of strictly smaller depth. */
  lemma ParentsAreEarlier(ordered: seq<Section>, ids: seq<string>, nodes: map<string, Node>)
    requires NodesOk(ordered, ids, nodes)
    ensures ParentsKnown(ids, nodes)
    ensures forall i: nat :: i < |ids| && nodes[ids[i]].parent.Some? ==>
              nodes[ids[i]].parent.value in ids[..i] && Depth(nodes[ids[i]].parent.value) < Depth(ids[i])
  {
    forall i: nat | i < |ids| && nodes[ids[i]].parent.Some?
      ensures nodes[ids[i]].parent.value in ids[..i] && Depth(nodes[ids[i]].parent.value) < Depth(ids[i])
    {
      assert NodeOk(ordered, ids, i, nodes[ids[i]]);
      hide Introduces, ParentOf, Depth;
      ParentIsEarlierAndHigher(ids[..i], ids[i]);
    }
    hide NodeOk, Depth;
    forall id | id in ids ensures id in nodes && (nodes[id].parent.Some? ==> nodes[id].parent.value in ids) {
      var i: nat :| i < |ids| && ids[i] == id;
      if nodes[id].parent.Some? { assert nodes[ids[i]].parent.value in ids[..i]; }
    }
  }

  lemma EarlierPosition(ids: seq<string>, i: nat, p: string)
    requires i < |ids| && NoDup(ids) && p in ids[..i] && p in ids
    ensures IndexOf(ids, p) < i
  {
    var j: nat :| j < i && ids[..i][j] == p;
    assert ids[j] == ids[IndexOf(ids, p)];
  }

  /** Whichever rule chose the parents, the links point to earlier positions and never form a cycle. */
  lemma NodesFormForest(ordered: seq<Section>, ids: seq<string>, nodes: map<string, Node>)
    requires NodesOk(ordered, ids, nodes) && NoDup(ids)
    ensures ParentsKnown(ids, nodes) && IsForest(Parents(ids, nodes), Depths(ids))
    ensures forall i: nat :: i < |ids| && Parents(ids, nodes)[i].Some? ==> Parents(ids, nodes)[i].value < i
  {
    ParentsAreEarlier(ordered, ids, nodes);
    hide NodesOk, Depth;
    var links := Parents(ids, nodes);
    forall i: nat | i < |ids| && links[i].Some? ensures links[i].value < i
        && Depth(ids[links[i].value]) < Depth(ids[i]) {
      assert ids[i] in ids;
      EarlierPosition(ids, i, nodes[ids[i]].parent.value);
    }
  }

  ghost function Names(ids: seq<string>, list: seq<nat>): seq<string>
    requires forall k :: k in list ==> k < |ids|
  {
    seq(|list|, k requires 0 <= k < |list| => assert list[k] in list; ids[list[k]])
  }

  lemma NamesSnoc(ids: seq<string>, list: seq<nat>, k: nat)
    requires k < |ids| && forall j :: j in list ==> j < |ids|
    ensures Names(ids, list + [k]) == Names(ids, list) + [ids[k]]
  {
    assert forall j :: j in list + [k] ==> j in list || j == k;
    var more := list + [k];
    forall j | 0 <= j < |more| ensures more[j] in more {}
  }

  lemma SameParent(ids: seq<string>, nodes: map<string, Node>, p: Option<string>, at: Option<nat>, k: nat)
    requires ParentsKnown(ids, nodes) && NoDup(ids) && k < |ids|
    requires p.Some? == at.Some? && (at.Some? ==> at.value < |ids| && ids[at.value] == p.value)
    ensures ids[k] in nodes && (nodes[ids[k]].parent == p <==> Parents(ids, nodes)[k] == at)
  {
    assert ids[k] in ids;
    var q := nodes[ids[k]].parent;
    if q.Some? && p.Some? {
      assert ids[IndexOf(ids, q.value)] == q.value;
    }
  }

  lemma NothingHangs(ids: seq<string>, nodes: map<string, Node>, p: Option<string>, at: Option<nat>)
    requires ParentsKnown(ids, nodes)
    ensures Hanging(ids[..0], nodes, p) == Names(ids, Below(Parents(ids, nodes), at, 0)) == []
  {
    hide Parents;
    BelowStart(Parents(ids, nodes));
    assert ids[..0] == [];
  }

  lemma HangingNext(ids: seq<string>, nodes: map<string, Node>, p: Option<string>, at: Option<nat>, n: nat)
    requires ParentsKnown(ids, nodes) && NoDup(ids) && n < |ids|
    requires p.Some? == at.Some? && (at.Some? ==> at.value < |ids| && ids[at.value] == p.value)
    requires Hanging(ids[..n], nodes, p) == Names(ids, Below(Parents(ids, nodes), at, n))
    ensures Hanging(ids[..n + 1], nodes, p) == Names(ids, Below(Parents(ids, nodes), at, n + 1))
  {
    AllKnown(ids, nodes);
    hide Parents, Hanging, Names, Below, ParentsKnown, NoDup;
    HangingStep(ids, nodes, p, n);
    SameParent(ids, nodes, p, at, n);
    BelowNext(Parents(ids, nodes), n);
    NamesSnoc(ids, Below(Parents(ids, nodes), at, n), n);
  }

  /** The children lists are the positions below a node, by name. */
  lemma {:induction false} HangingIsBelow(ids: seq<string>, nodes: map<string, Node>, p: Option<string>,
                                          at: Option<nat>, n: nat)
    requires ParentsKnown(ids, nodes) && NoDup(ids) && n <= |ids|
    requires p.Some? == at.Some? && (at.Some? ==> at.value < |ids| && ids[at.value] == p.value)
    ensures Hanging(ids[..n], nodes, p) == Names(ids, Below(Parents(ids, nodes), at, n))
  {
    hide Parents, Hanging, Names, Below, ParentsKnown, NoDup;
    if n == 0 {
      NothingHangs(ids, nodes, p, at);
    } else {
      HangingIsBelow(ids, nodes, p, at, n - 1);
      HangingNext(ids, nodes, p, at, n - 1);
    }
  }

  lemma AllKnown(ids: seq<string>, nodes: map<string, Node>)
    requires ParentsKnown(ids, nodes)
    ensures forall id :: id in ids ==> id in nodes
  {
  }

  /** Roots and children lists are exactly the positions without, and with, that parent. */
  lemma ChildrenAreLinked(ids: seq<string>, nodes: map<string, Node>)
    requires ParentsKnown(ids, nodes) && NoDup(ids)
    ensures Hanging(ids, nodes, None) == Names(ids, Below(Parents(ids, nodes), None, |ids|))
    ensures forall i: nat :: i < |ids| ==>
              Hanging(ids, nodes, Some(ids[i])) == Names(ids, Below(Parents(ids, nodes), Some(i), |ids|))
  {
    hide Hanging, Below, Parents, Names;
    assert ids[..|ids|] == ids;
    HangingIsBelow(ids, nodes, None, None, |ids|);
    forall i: nat | i < |ids|
      ensures Hanging(ids, nodes, Some(ids[i])) == Names(ids, Below(Parents(ids, nodes), Some(i), |ids|))
    {
      HangingIsBelow(ids, nodes, Some(ids[i]), Some(i), |ids|);
    }
  }

  /** Walking down from the roots visits every node exactly once. */
  lemma WalkingVisitsEachNodeOnce(ordered: seq<Section>, ids: seq<string>, nodes: map<string, Node>, bound: nat)
    requires NodesOk(ordered, ids, nodes) && NoDup(ids) && Bounded(Depths(ids), bound)
    ensures ParentsKnown(ids, nodes) && IsForest(Parents(ids, nodes), Depths(ids))
    ensures VisitsEachOnce(Parents(ids, nodes), Depths(ids), bound)
  {
    hide NodesOk, Depths, Parents;
    NodesFormForest(ordered, ids, nodes);
    WalkVisitsEachOnce(Parents(ids, nodes), Depths(ids), bound);
  }

  // ---------- the whole builder ----------

  function StringLeq(a: string, b: string): bool {
    if a == "" then true else if b == "" then false
    else if a[0] == b[0] then StringLeq(a[1..], b[1..]) else a[0] < b[0]
  }

  /** Sections in document order: page, line, section number. */
  function SectionLeq(): (Section, Section) -> bool {
    (a: Section, b: Section) =>
      if a.page != b.page then a.page < b.page
      else if a.line != b.line then a.line < b.line
      else StringLeq(a.sectionNo, b.sectionNo)
  }

  lemma {:induction false} StringsAreOrdered(a: string, b: string, c: string)
    ensures StringLeq(a, b) || StringLeq(b, a)
    ensures StringLeq(a, b) && StringLeq(b, c) ==> StringLeq(a, c)
    decreases |a| + |b| + |c|
  {
    if a != "" && b != "" && a[0] == b[0] {
      StringsAreOrdered(a[1..], b[1..], if c == "" then c else c[1..]);
    }
  }

  /** Character by character: the first difference decides, and a text stands before its continuations. */
  ghost predicate Lexicographic(a: string, b: string) {
    exists k: nat :: k <= |a| && k <= |b| && a[..k] == b[..k] && (k == |a| || (k < |b| && a[k] < b[k]))
  }

  lemma {:induction false} StringsAreCompared(a: string, b: string)
    ensures StringLeq(a, b) <==> Lexicographic(a, b)
  {
    if a == "" {
      assert a[..0] == b[..0];
    } else if b != "" {
      StringsAreCompared(a[1..], b[1..]);
      SameHead(a, b);
    }
  }

  lemma SameHead(a: string, b: string)
    requires a != "" && b != ""
    ensures Lexicographic(a, b) <==> if a[0] == b[0] then Lexicographic(a[1..], b[1..]) else a[0] < b[0]
  {
    if k: nat :| k <= |a| && k <= |b| && a[..k] == b[..k] && (k == |a| || (k < |b| && a[k] < b[k])) {
      if k > 0 {
        assert a[..k][0] == b[..k][0];
        assert a[1..][..k - 1] == a[..k][1..] && b[1..][..k - 1] == b[..k][1..];
      }
    }
    if a[0] != b[0] {
      assert a[..0] == b[..0];
    } else if k: nat :|
        && k < |a| && k < |b| && a[1..][..k] == b[1..][..k]
        && (k == |a| - 1 || (k < |b| - 1 && a[1..][k] < b[1..][k])) {
      assert a[..k + 1] == [a[0]] + a[1..][..k] && b[..k + 1] == [b[0]] + b[1..][..k];
    }
  }

  lemma SectionOrder()
    ensures TotalPreorder(SectionLeq())
  {
    hide StringLeq;
    forall a: Section, b: Section ensures SectionLeq()(a, b) || SectionLeq()(b, a) {
      StringsAreOrdered(a.sectionNo, b.sectionNo, "");
    }
    forall a: Section, b: Section, c: Section | SectionLeq()(a, b) && SectionLeq()(b, c) ensures SectionLeq()(a, c) {
      StringsAreOrdered(a.sectionNo, b.sectionNo, c.sectionNo);
    }
  }

  predicate SamePlace(a: Section, b: Section) {
    a.page == b.page && a.line == b.line && a.sectionNo == b.sectionNo
  }

  /**
   * The builder works through the sections in document order: rising pages, lines within a page and numbers within a
   * line. No section is lost, and sections that agree in all three stay as they came.
   */
  lemma SectionsInDocumentOrder(sections: seq<Section>)
    ensures var ordered := Sort(sections, SectionLeq());
            && SortedBy(ordered, SectionLeq()) && multiset(ordered) == multiset(sections)
            && (forall i, j :: 0 <= i < j < |ordered| ==>
                  && ordered[i].page <= ordered[j].page
                  && (ordered[i].page == ordered[j].page ==> ordered[i].line <= ordered[j].line)
                  && (ordered[i].page == ordered[j].page && ordered[i].line == ordered[j].line ==>
                        Lexicographic(ordered[i].sectionNo, ordered[j].sectionNo)))
            && (forall a, b :: Before(sections, a, b) && SamePlace(a, b) ==> Before(ordered, a, b))
  {
    hide Sort, Before, StringLeq, TotalPreorder;
    SectionOrder();
    SortSorted(sections, SectionLeq());
    forall a: string, b: string ensures StringLeq(a, b) <==> Lexicographic(a, b) {
      StringsAreCompared(a, b);
    }
    hide Lexicographic;
    forall a, b | Before(sections, a, b) && SamePlace(a, b)
      ensures Before(Sort(sections, SectionLeq()), a, b)
    {
      StringsAreOrdered(a.sectionNo, a.sectionNo, "");
      SortStable(sections, SectionLeq(), a, b);
    }
  }

  datatype Tree = Tree(nodes: seq<Node>, roots: seq<string>, children: map<string, seq<string>>, stats: Stats)

  ghost predicate Tallest(nodes: seq<Node>, maxDepth: nat) {
    && (forall n :: n in nodes ==> n.depth <= maxDepth)
    && (if nodes == [] then maxDepth == 0 else exists n :: n in nodes && n.depth == maxDepth)
  }

  /** The flat list of nodes, in the order of the ids. */
  function Flat(ids: seq<string>, nodes: map<string, Node>): (r: seq<Node>)
    requires forall id :: id in ids ==> id in nodes
    ensures |r| == |ids| && forall i :: 0 <= i < |ids| ==> ids[i] in nodes && r[i] == nodes[ids[i]]
  {
    seq(|ids|, i requires 0 <= i < |ids| => assert ids[i] in ids; nodes[ids[i]])
  }

  /** The tree holds these nodes in this order, its roots are the nodes without a parent, and its lists the children. */
  ghost predicate Holds(tree: Tree, ids: seq<string>, nodes: map<string, Node>) {
    && |tree.nodes| == |ids| && (forall i :: 0 <= i < |ids| ==> ids[i] in nodes && tree.nodes[i] == nodes[ids[i]])
    && (forall id :: id in ids ==> id in nodes)
    && tree.roots == Hanging(ids, nodes, None)
    && tree.children.Keys == nodes.Keys
    && (forall id :: id in nodes ==> tree.children[id] == Hanging(ids, nodes, Some(id)))
  }

  /** The tree of the ordered sections: one node for each id, with the parent the backward scan finds. */
  ghost predicate IsTreeOf(ordered: seq<Section>, tree: Tree) {
    exists ids, nodes ::
      ids == Dedup(SectionIds(ordered)) && NodesOk(ordered, ids, nodes) && Holds(tree, ids, nodes)
  }

  lemma MakesTree(ordered: seq<Section>, ids: seq<string>, nodes: map<string, Node>, tree: Tree)
    requires ids == Dedup(SectionIds(ordered)) && NodesOk(ordered, ids, nodes) && nodes.Keys == Elems(ids)
    requires (forall id :: id in ids ==> id in nodes) && tree.nodes == Flat(ids, nodes)
    requires tree.roots == Hanging(ids, nodes, None) && tree.children.Keys == nodes.Keys
    requires forall id :: id in nodes ==> tree.children[id] == Hanging(ids, nodes, Some(id))
    ensures IsTreeOf(ordered, tree)
  {
    hide NodesOk, SectionIds, Hanging, Dedup;
    assert Holds(tree, ids, nodes);
  }

  method BuildClauseTree(sections: seq<Section>) returns (tree: Tree)
    ensures IsTreeOf(Sort(sections, SectionLeq()), tree)
    ensures tree.stats.nodeCount == |tree.nodes| && Tallest(tree.nodes, tree.stats.maxDepth)
    ensures tree.stats.rootCount == |tree.roots| == tree.stats.orphanCount
  {
    hide NodesOk, SectionIds, SectionLeq, Sort, Hanging, ParentsKnown, Dedup, IsTreeOf;
    var ordered := Sort(sections, SectionLeq());
    var ids, nodes := CollectNodes(ordered);
    NodesOkKeys(ordered, ids, nodes);
    ParentsAreEarlier(ordered, ids, nodes);
    KnownParents(ids, nodes);
    var roots, children := LinkChildren(ids, nodes);
    var flat := Flat(ids, nodes);
    var maxDepth := MaxDepth(flat);
    var orphanCount := Orphans(flat);
    OrphansAreRoots(ids, nodes);
    tree := Tree(flat, roots, children, Stats(|flat|, |roots|, maxDepth, orphanCount));
    MakesTree(ordered, ids, nodes, tree);
  }

  lemma KnownParents(ids: seq<string>, nodes: map<string, Node>)
    requires ParentsKnown(ids, nodes) && nodes.Keys == Elems(ids)
    ensures forall id :: id in nodes && nodes[id].parent.Some? ==> nodes[id].parent.value in nodes
  {
    forall id | id in nodes && nodes[id].parent.Some? ensures nodes[id].parent.value in nodes {
      assert id in ids && nodes[id].parent.value in Elems(ids);
    }
  }

  function MaxDepth(nodes: seq<Node>): (d: nat)
    ensures Tallest(nodes, d)
  {
    if nodes == [] then 0
    else
      var n := |nodes| - 1;
      assert nodes == nodes[..n] + [nodes[n]];
      var d := MaxDepth(nodes[..n]);
      if nodes[n].depth > d then nodes[n].depth else (if n == 0 then nodes[n].depth else d)
  }

  /** The number of nodes without a parent. */
  function Orphans(nodes: seq<Node>): nat {
    if nodes == [] then 0
    else
      var n := |nodes| - 1;
      Orphans(nodes[..n]) + if nodes[n].parent.None? then 1 else 0
  }

  lemma {:induction false} OrphansAreRoots(ids: seq<string>, nodes: map<string, Node>)
    requires forall id :: id in ids ==> id in nodes
    ensures Orphans(Flat(ids, nodes)) == |Hanging(ids, nodes, None)|
  {
    if ids != [] {
      var n := |ids| - 1;
      assert Flat(ids, nodes)[..n] == Flat(ids[..n], nodes);
      OrphansAreRoots(ids[..n], nodes);
    }
  }
}
