/** Execution order of the specs of a norm, and the tasks handed to the construction scheduler. */
module Scheduler {
  import opened Lists
  import opened Text
  import opened Sorting
  import opened Graphs

  datatype SpecEntry = SpecEntry(spuId: string, priority: int)

  datatype OrderRule = OrderRule(before: string, after: string, reason: string)

  datatype NormRef = NormRef(catalog: seq<SpecEntry>, rules: seq<OrderRule>)

  datatype SpecStatus = SpecPending | SpecBlocked | SpecRunning | SpecPass | SpecFail

  datatype ApplicableSpec = ApplicableSpec(spuId: string, status: SpecStatus, dependsOn: seq<string>)

  datatype Task = Task(spuId: string, status: SpecStatus, priority: int,
                       mustBefore: seq<string>, mustAfter: seq<string>)

  // ---------- identifiers ----------

  /** The trimmed texts that are not blank. */
  function Clean(values: seq<string>): (r: seq<string>)
  {
    if values == [] then []
    else
      var n := |values| - 1;
      var item := Strip(values[n]);
      Clean(values[..n]) + if item == "" then [] else [item]
  }

  function Distinct(values: seq<string>): seq<string> {
    Dedup(Clean(values))
  }

  ghost predicate Mentions(values: seq<string>, x: string) {
    exists v :: v in values && Strip(v) == x
  }

  lemma MentionsSplit(values: seq<string>, more: seq<string>, x: string)
    ensures Mentions(values + more, x) <==> Mentions(values, x) || Mentions(more, x)
  {
    hide Strip;
    forall v | v in values || v in more ensures v in values + more {}
  }

  lemma {:induction false} CleanElems(values: seq<string>, x: string)
    ensures x in Clean(values) <==> x != "" && Mentions(values, x)
  {
    if values != [] {
      var n := |values| - 1;
      assert values == values[..n] + [values[n]];
      CleanElems(values[..n], x);
      MentionsSplit(values[..n], [values[n]], x);
      hide Strip;
      assert Mentions([values[n]], x) <==> Strip(values[n]) == x by {
        assert values[n] in [values[n]];
      }
    }
  }

  lemma DistinctStep(values: seq<string>, i: nat)
    requires i < |values|
    ensures var item, before := Strip(values[i]), Distinct(values[..i]);
            Distinct(values[..i + 1]) == if item == "" || item in before then before else before + [item]
  {
    TakeNext(values, i);
    var item := Strip(values[i]);
    if item != "" {
      DedupSnoc(Clean(values[..i]), item);
    } else {
      assert Clean(values[..i + 1]) == Clean(values[..i]);
    }
  }

  method Unique(values: seq<string>) returns (result: seq<string>)
    ensures result == Distinct(values)
  {
    result := [];
    var seen: set<string> := {};
    for i := 0 to |values|
      invariant result == Distinct(values[..i])
      invariant forall x :: x in seen <==> x in result
    {
      var item := Strip(values[i]);
      DistinctStep(values, i);
      if item == "" || item in seen {
        continue;
      }
      seen := seen + {item};
      result := result + [item];
    }
    assert values[..|values|] == values;
  }

  function LookupPriority(catalog: seq<SpecEntry>, spuId: string): int {
    if catalog == [] then 0
    else if catalog[0].spuId == spuId then catalog[0].priority
    else LookupPriority(catalog[1..], spuId)
  }

  /** The priority of an id is that of the first entry that carries it; an id no entry carries has priority 0. */
  ghost predicate HasPriority(catalog: seq<SpecEntry>, x: string, p: int) {
    || FirstEntry(catalog, x, p)
    || (p == 0 && Unlisted(catalog, x))
  }

  ghost predicate Unlisted(catalog: seq<SpecEntry>, x: string) {
    forall k :: 0 <= k < |catalog| ==> catalog[k].spuId != x
  }

  ghost predicate FirstEntry(catalog: seq<SpecEntry>, x: string, p: int) {
    exists k :: 0 <= k < |catalog| && catalog[k] == SpecEntry(x, p) && forall j :: 0 <= j < k ==> catalog[j].spuId != x
  }

  lemma {:induction false} LookupIsPriority(catalog: seq<SpecEntry>, x: string)
    ensures forall p :: HasPriority(catalog, x, p) <==> p == LookupPriority(catalog, x)
  {
    if catalog != [] && catalog[0].spuId != x {
      LookupIsPriority(catalog[1..], x);
      forall p ensures HasPriority(catalog, x, p) <==> HasPriority(catalog[1..], x, p) {
        EntryBehind(catalog, x, p);
        hide FirstEntry, Unlisted;
      }
    } else if catalog != [] {
      assert FirstEntry(catalog, x, catalog[0].priority);
    }
  }

  lemma EntryBehind(catalog: seq<SpecEntry>, x: string, p: int)
    requires catalog != [] && catalog[0].spuId != x
    ensures FirstEntry(catalog, x, p) <==> FirstEntry(catalog[1..], x, p)
    ensures Unlisted(catalog, x) <==> Unlisted(catalog[1..], x)
  {
    var rest := catalog[1..];
    assert forall k :: 0 < k < |catalog| ==> catalog[k] == rest[k - 1];
    assert forall k :: 0 <= k < |rest| ==> rest[k] == catalog[k + 1];
    if k :| 0 <= k < |catalog| && catalog[k] == SpecEntry(x, p) && forall j :: 0 <= j < k ==> catalog[j].spuId != x {
      assert rest[k - 1] == SpecEntry(x, p);
    }
    if k :| 0 <= k < |rest| && rest[k] == SpecEntry(x, p) && forall j :: 0 <= j < k ==> rest[j].spuId != x {
      assert catalog[k + 1] == SpecEntry(x, p);
    }
  }

  function CatalogIds(catalog: seq<SpecEntry>): seq<string> {
    seq(|catalog|, i requires 0 <= i < |catalog| => catalog[i].spuId)
  }

  function RuleIds(rules: seq<OrderRule>): seq<string> {
    if rules == [] then []
    else
      var n := |rules| - 1;
      RuleIds(rules[..n]) + [rules[n].before, rules[n].after]
  }

  /** Catalog first, then nodes only rules mention, each once. */
  function AllNodes(ref: NormRef): seq<string> {
    Distinct(Distinct(CatalogIds(ref.catalog)) + Distinct(RuleIds(ref.rules)))
  }

  /** A node of the norm: a non-blank id from the catalog or from either side of a rule. */
  ghost predicate IsNode(ref: NormRef, x: string) {
    && x != ""
    && ((exists e :: e in ref.catalog && Strip(e.spuId) == x) ||
        (exists r :: r in ref.rules && (Strip(r.before) == x || Strip(r.after) == x)))
  }

  lemma DistinctElems(values: seq<string>, x: string)
    ensures x in Distinct(values) <==> x != "" && Mentions(values, x)
  {
    CleanElems(values, x);
  }

  /** Cleaning keeps what is already clean. */
  lemma DistinctIsClean(values: seq<string>, x: string)
    ensures Mentions(Distinct(values), x) <==> x in Distinct(values)
  {
    forall v | v in Distinct(values) ensures Strip(v) == v {
      DistinctElems(values, v);
      var w :| w in values && Strip(w) == v;
      StripTrims(w);
      StripOfTrimmed(v);
    }
  }

  lemma {:induction false} RuleIdsMention(rules: seq<OrderRule>, x: string)
    ensures Mentions(RuleIds(rules), x) <==> exists r :: r in rules && (Strip(r.before) == x || Strip(r.after) == x)
  {
    if rules != [] {
      var n := |rules| - 1;
      assert rules == rules[..n] + [rules[n]];
      RuleIdsMention(rules[..n], x);
      MentionsSplit(RuleIds(rules[..n]), [rules[n].before, rules[n].after], x);
      assert rules[n].before in [rules[n].before, rules[n].after]
          && rules[n].after in [rules[n].before, rules[n].after];
    }
  }

  lemma CatalogMentions(catalog: seq<SpecEntry>, x: string)
    ensures Mentions(CatalogIds(catalog), x) <==> exists e :: e in catalog && Strip(e.spuId) == x
  {
    hide Strip;
    var ids := CatalogIds(catalog);
    forall e | e in catalog ensures e.spuId in ids {
      var k :| 0 <= k < |catalog| && catalog[k] == e;
      assert ids[k] == e.spuId;
    }
    forall v | v in ids ensures exists e :: e in catalog && e.spuId == v {
      var k :| 0 <= k < |ids| && ids[k] == v;
      assert catalog[k] in catalog;
    }
  }

  lemma NodesAreNodes(ref: NormRef)
    ensures forall x :: x in AllNodes(ref) <==> IsNode(ref, x)
    ensures NoDup(AllNodes(ref))
  {
    var ids, rs := CatalogIds(ref.catalog), RuleIds(ref.rules);
    forall x ensures x in AllNodes(ref) <==> IsNode(ref, x) {
      hide Mentions, Strip, Clean;
      DistinctElems(Distinct(ids) + Distinct(rs), x);
      MentionsSplit(Distinct(ids), Distinct(rs), x);
      DistinctIsClean(ids, x);
      DistinctIsClean(rs, x);
      DistinctElems(ids, x);
      DistinctElems(rs, x);
      CatalogMentions(ref.catalog, x);
      RuleIdsMention(ref.rules, x);
    }
  }

  // ---------- the order ----------

  /** A rule orders `u` before `v`; blank sides and rules about a single node order nothing. */
  ghost predicate RuleEdge(rules: seq<OrderRule>, u: string, v: string) {
    && u != "" && v != "" && u != v
    && exists r :: r in rules && Strip(r.before) == u && Strip(r.after) == v
  }

  /** The rules contradict each other: following them leads back to where one started. */
  ghost predicate CyclicRules(rules: seq<OrderRule>) {
    exists p: seq<string> ::
      |p| >= 2 && p[0] == p[|p| - 1] && forall k :: 0 <= k < |p| - 1 ==> RuleEdge(rules, p[k], p[k + 1])
  }

  function Priority(ref: NormRef): string -> int {
    (s: string) => LookupPriority(ref.catalog, s)
  }

  function ByPriority(ref: NormRef): (string, string) -> bool {
    (a: string, b: string) => LookupPriority(ref.catalog, a) >= LookupPriority(ref.catalog, b)
  }

  /** What the derived order promises, rule by rule. */
  ghost predicate IsExecutionOrder(ref: NormRef, order: seq<string>) {
    && NoDup(order)
    && (forall x :: x in order <==> IsNode(ref, x))
    && (forall i, j :: 0 <= i < j < |order| ==> Priority(ref)(order[i]) >= Priority(ref)(order[j]))
    && (!CyclicRules(ref.rules) ==>
          forall u, v :: RuleEdge(ref.rules, u, v) ==> (Before(order, u, v) <==> Priority(ref)(u) >= Priority(ref)(v)))
    && (CyclicRules(ref.rules) ==> order == Sort(AllNodes(ref), ByPriority(ref)))
  }

  /**
   * The order told by the catalog and the rules alone: each node once, priorities never rise, and as long as the rules
   * do not contradict each other one of them is kept exactly where the priority does not rise along it.
   */
  ghost predicate FollowsPriorities(ref: NormRef, order: seq<string>) {
    && NoDup(order)
    && (forall x :: x in order <==> IsNode(ref, x))
    && (forall i, j, p, q ::
          0 <= i < j < |order| && HasPriority(ref.catalog, order[i], p) && HasPriority(ref.catalog, order[j], q) ==>
          p >= q)
    && (!CyclicRules(ref.rules) ==>
          forall u, v, p, q ::
            RuleEdge(ref.rules, u, v) && HasPriority(ref.catalog, u, p) && HasPriority(ref.catalog, v, q) ==>
            (Before(order, u, v) <==> p >= q))
  }

  lemma OrderFollowsPriorities(ref: NormRef, order: seq<string>)
    requires IsExecutionOrder(ref, order)
    ensures FollowsPriorities(ref, order)
  {
    forall x ensures forall p :: HasPriority(ref.catalog, x, p) <==> p == Priority(ref)(x) {
      LookupIsPriority(ref.catalog, x);
    }
    hide LookupPriority, HasPriority, RuleEdge, CyclicRules, IsNode, Before, Sort, AllNodes;
  }

  /** For each node the nodes some rule puts before it. */
  method Dependencies(nodes: seq<string>, rules: seq<OrderRule>) returns (g: Graph)
    requires forall r :: r in rules ==>
               && (Strip(r.before) == "" || Strip(r.before) in nodes)
               && (Strip(r.after) == "" || Strip(r.after) in nodes)
    ensures g.Keys == Elems(nodes) && WellFormed(g)
    ensures forall u, v :: Edge(g, u, v) <==> RuleEdge(rules, u, v)
  {
    hide Strip;
    g := map v | v in nodes :: {};
    for i := 0 to |rules|
      invariant g.Keys == Elems(nodes)
      invariant forall u, v :: Edge(g, u, v) <==> RuleEdge(rules[..i], u, v)
    {
      var before, after := Strip(rules[i].before), Strip(rules[i].after);
      RuleEdgeStep(rules, i);
      if before == "" || after == "" || before == after || before !in g || after !in g {
        continue;
      }
      ghost var was := g;
      g := g[after := g[after] + {before}];
      assert forall u, v :: Edge(g, u, v) <==> Edge(was, u, v) || (u == before && v == after);
    }
    assert rules[..|rules|] == rules;
    forall v | v in g ensures g[v] <= g.Keys {
      forall u | u in g[v] ensures u in g {
        assert Edge(g, u, v);
      }
    }
  }

  lemma RuleEdgeStep(rules: seq<OrderRule>, i: nat)
    requires i < |rules|
    ensures var b, a := Strip(rules[i].before), Strip(rules[i].after);
            forall u, v :: RuleEdge(rules[..i + 1], u, v) <==>
              RuleEdge(rules[..i], u, v) || (b != "" && a != "" && b != a && u == b && v == a)
  {
    hide Strip;
    assert rules[..i + 1] == rules[..i] + [rules[i]];
    assert rules[i] in rules[..i + 1];
  }

  lemma SameCycles(g: Graph, rules: seq<OrderRule>)
    requires forall u, v :: Edge(g, u, v) <==> RuleEdge(rules, u, v)
    ensures Cyclic(g) <==> CyclicRules(rules)
  {
    hide Edge, RuleEdge;
    if Cyclic(g) {
      var p :| IsCycle(g, p);
      assert forall k :: 0 <= k < |p| - 1 ==> RuleEdge(rules, p[k], p[k + 1]);
    }
    if CyclicRules(rules) {
      var p: seq<string> :|
        |p| >= 2 && p[0] == p[|p| - 1] && forall k :: 0 <= k < |p| - 1 ==> RuleEdge(rules, p[k], p[k + 1]);
      assert IsCycle(g, p);
    }
  }

  lemma ByPriorityIsPreorder(ref: NormRef)
    ensures TotalPreorder(ByPriority(ref))
  {
    hide LookupPriority;
  }

  /** Sorting a topological order by priority keeps exactly the rules that priority does not override. */
  lemma SortedIsExecutionOrder(ref: NormRef, g: Graph, ordered: seq<string>)
    requires NoDup(ordered) && forall x :: x in ordered <==> IsNode(ref, x)
    requires forall u, v :: Edge(g, u, v) <==> RuleEdge(ref.rules, u, v)
    requires if Cyclic(g) then ordered == AllNodes(ref) else Topological(g, ordered) && Elems(ordered) == g.Keys
    ensures IsExecutionOrder(ref, Sort(ordered, ByPriority(ref)))
  {
    hide IsNode, RuleEdge, CyclicRules, Cyclic, Topological, LookupPriority, AllNodes, Sort, Before;
    var leq := ByPriority(ref);
    var order := Sort(ordered, leq);
    ByPriorityIsPreorder(ref);
    SortNoDup(ordered, leq);
    SortElems(ordered, leq);
    SortSorted(ordered, leq);
    SameCycles(g, ref.rules);
    if !Cyclic(g) {
      forall u, v | RuleEdge(ref.rules, u, v) ensures Before(order, u, v) <==> Priority(ref)(u) >= Priority(ref)(v) {
        assert Edge(g, u, v);
        TopologicalBefore(g, ordered, u, v);
        BeforeElems(ordered, u, v);
        SortPrecedes(ordered, leq, u, v);
      }
    }
  }

  lemma BeforeElems(xs: seq<string>, u: string, v: string)
    requires Before(xs, u, v) && NoDup(xs)
    ensures u in xs && v in xs && u != v
  {
  }

  lemma RuleEndsAreNodes(ref: NormRef)
    ensures forall r :: r in ref.rules ==>
              && (Strip(r.before) == "" || IsNode(ref, Strip(r.before)))
              && (Strip(r.after) == "" || IsNode(ref, Strip(r.after)))
    ensures forall u, v :: RuleEdge(ref.rules, u, v) ==> IsNode(ref, u) && IsNode(ref, v)
  {
  }

  lemma NoNodesNoOrder(ref: NormRef)
    requires AllNodes(ref) == []
    ensures IsExecutionOrder(ref, [])
  {
    hide AllNodes, IsNode, RuleEdge, IsExecutionOrder, Cyclic;
    NodesAreNodes(ref);
    RuleEndsAreNodes(ref);
    SortedIsExecutionOrder(ref, map[], []);
  }

  method DeriveExecutionOrder(ref: NormRef) returns (order: seq<string>)
    ensures IsExecutionOrder(ref, order) && FollowsPriorities(ref, order)
  {
    hide IsExecutionOrder, IsNode, RuleEdge, Cyclic, Topological, Distinct, RuleIds, CatalogIds, Sort, Strip, Edge,
         FollowsPriorities;
    var catalogOrder := Unique(CatalogIds(ref.catalog));
    var fromRules := Unique(RuleIds(ref.rules));
    var allNodes := Unique(catalogOrder + fromRules);
    assert allNodes == AllNodes(ref);
    if allNodes == [] {
      NoNodesNoOrder(ref);
      OrderFollowsPriorities(ref, []);
      return [];
    }
    hide AllNodes, NoDup;
    NodesAreNodes(ref);
    RuleEndsAreNodes(ref);
    var g := Dependencies(allNodes, ref.rules);
    var sorted := StaticOrder(allNodes, g);
    var ordered := if sorted.Some? then sorted.value else allNodes;
    assert forall x :: x in ordered <==> x in Elems(ordered);
    assert forall x :: x in allNodes <==> x in Elems(allNodes);
    SortedIsExecutionOrder(ref, g, ordered);
    order := Sort(ordered, ByPriority(ref));
    OrderFollowsPriorities(ref, order);
  }

  /** Nodes of equal priority respect every rule between them, if the rules do not contradict each other. */
  lemma EqualPriorityRespectsRules(ref: NormRef, order: seq<string>, u: string, v: string)
    requires IsExecutionOrder(ref, order) && !CyclicRules(ref.rules) && RuleEdge(ref.rules, u, v)
    requires Priority(ref)(u) == Priority(ref)(v)
    ensures Before(order, u, v) && !Before(order, v, u)
  {
    BeforeAsymmetric(order, u, v);
  }

  /**
   * Contradiction-free rules are all respected exactly when no rule leads from a lower to a higher priority.
   */
  lemma AllRulesRespected(ref: NormRef, order: seq<string>)
    requires IsExecutionOrder(ref, order) && !CyclicRules(ref.rules)
    ensures (forall u, v :: RuleEdge(ref.rules, u, v) ==> Before(order, u, v)) <==>
            (forall u, v :: RuleEdge(ref.rules, u, v) ==> Priority(ref)(u) >= Priority(ref)(v))
  {
    hide RuleEdge, CyclicRules, Before, IsNode;
  }

  const RISING: NormRef := NormRef([SpecEntry("a", 1), SpecEntry("b", 2)], [OrderRule("a", "b", "")])

  /** Rules without a contradiction, and yet every derived order breaks one: the priorities decide against it. */
  lemma PriorityOverridesRule(order: seq<string>)
    requires IsExecutionOrder(RISING, order)
    ensures !CyclicRules(RISING.rules) && RuleEdge(RISING.rules, "a", "b") && !Before(order, "a", "b")
  {
    RisingEdge();
    RisingPriorities();
    hide RuleEdge, Before, Strip, LookupPriority;
    forall p: seq<string> | |p| >= 2 && forall k :: 0 <= k < |p| - 1 ==> RuleEdge(RISING.rules, p[k], p[k + 1])
      ensures p[0] != p[|p| - 1]
    {
      assert RuleEdge(RISING.rules, p[0], p[1]) && RuleEdge(RISING.rules, p[|p| - 2], p[|p| - 2 + 1]);
    }
  }

  lemma RisingEdge()
    ensures forall u, v :: RuleEdge(RISING.rules, u, v) <==> u == "a" && v == "b"
  {
    StripOfTrimmed("a");
    StripOfTrimmed("b");
    hide Strip;
    assert RISING.rules[0] in RISING.rules;
  }

  lemma RisingPriorities()
    ensures Priority(RISING)("a") == 1 && Priority(RISING)("b") == 2
  {
  }

  /** No order at all could respect contradictory rules. */
  lemma ContradictoryRulesCannotBeRespected(rules: seq<OrderRule>, order: seq<string>)
    requires CyclicRules(rules) && NoDup(order)
    ensures exists u, v :: RuleEdge(rules, u, v) && !Before(order, u, v)
  {
    var p: seq<string> :|
      |p| >= 2 && p[0] == p[|p| - 1] && forall k :: 0 <= k < |p| - 1 ==> RuleEdge(rules, p[k], p[k + 1]);
    hide RuleEdge;
    if forall u, v :: RuleEdge(rules, u, v) ==> Before(order, u, v) {
      BeforeAlongWalk(order, p, |p| - 1);
      assert false;
    }
  }

  lemma {:induction false} BeforeAlongWalk(order: seq<string>, p: seq<string>, n: nat)
    requires NoDup(order) && 1 <= n < |p|
    requires forall k :: 0 <= k < |p| - 1 ==> Before(order, p[k], p[k + 1])
    ensures Before(order, p[0], p[n]) && p[0] != p[n]
  {
    assert Before(order, p[n - 1], p[n]);
    if n > 1 {
      BeforeAlongWalk(order, p, n - 1);
      var i, j :| 0 <= i < j < |order| && order[i] == p[0] && order[j] == p[n - 1];
      var k, l :| 0 <= k < l < |order| && order[k] == p[n - 1] && order[l] == p[n];
      assert j == k;
    }
  }

  // ---------- the tasks ----------

  /** The container's spec for an id; a repeated id means its last entry. */
  function FindSpec(specs: seq<ApplicableSpec>, spuId: string): (r: Option<ApplicableSpec>)
    ensures r.Some? ==> r.value in specs && r.value.spuId == spuId
    ensures r.None? ==> forall s :: s in specs ==> s.spuId != spuId
  {
    if specs == [] then None
    else
      var n := |specs| - 1;
      if specs[n].spuId == spuId then Some(specs[n]) else FindSpec(specs[..n], spuId)
  }

  function DependsOn(specs: seq<ApplicableSpec>, spuId: string): seq<string> {
    var s := FindSpec(specs, spuId);
    if s.Some? then s.value.dependsOn else []
  }

  function Afters(rules: seq<OrderRule>, before: string): (ids: seq<string>)
    ensures forall x :: x in ids <==> exists r :: r in rules && r.before == before && r.after == x
  {
    if rules == [] then []
    else
      var n := |rules| - 1;
      assert rules == rules[..n] + [rules[n]];
      Afters(rules[..n], before) + if rules[n].before == before then [rules[n].after] else []
  }

  function Befores(rules: seq<OrderRule>, after: string): (ids: seq<string>)
    ensures forall x :: x in ids <==> exists r :: r in rules && r.after == after && r.before == x
  {
    if rules == [] then []
    else
      var n := |rules| - 1;
      assert rules == rules[..n] + [rules[n]];
      Befores(rules[..n], after) + if rules[n].after == after then [rules[n].before] else []
  }

  function MustBefore(ref: NormRef, spuId: string): seq<string> {
    Distinct(Afters(ref.rules, spuId))
  }

  function MustAfter(ref: NormRef, specs: seq<ApplicableSpec>, spuId: string): seq<string> {
    Distinct(Befores(ref.rules, spuId) + DependsOn(specs, spuId))
  }

  /** Some rule puts exactly the text `u` before an id that trims to `v`. */
  predicate FoundFromBefore(rules: seq<OrderRule>, u: string, v: string) {
    exists r | r in rules :: r.before == u && Strip(r.after) == v
  }

  /** Some rule puts an id that trims to `u` before exactly the text `v`. */
  predicate FoundFromAfter(rules: seq<OrderRule>, u: string, v: string) {
    exists r | r in rules :: r.after == v && Strip(r.before) == u
  }

  /** The spec at `k` is the last one of the container with this id. */
  ghost predicate LastSpec(specs: seq<ApplicableSpec>, id: string, k: nat) {
    k < |specs| && specs[k].spuId == id && forall j :: k < j < |specs| ==> specs[j].spuId != id
  }

  ghost predicate HasStatus(specs: seq<ApplicableSpec>, id: string, status: SpecStatus) {
    || (exists k: nat :: LastSpec(specs, id, k) && specs[k].status == status)
    || (status == SpecPending && forall k :: 0 <= k < |specs| ==> specs[k].spuId != id)
  }

  ghost predicate DependsOnText(specs: seq<ApplicableSpec>, id: string, u: string) {
    exists k: nat :: LastSpec(specs, id, k) && Mentions(specs[k].dependsOn, u)
  }

  /** What a task says about its id, read off the norm and the container. */
  ghost predicate TaskMeans(ref: NormRef, specs: seq<ApplicableSpec>, t: Task) {
    && HasPriority(ref.catalog, t.spuId, t.priority)
    && HasStatus(specs, t.spuId, t.status)
    && NoDup(t.mustBefore) && NoDup(t.mustAfter)
    && (forall v :: v in t.mustBefore <==> v != "" && FoundFromBefore(ref.rules, t.spuId, v))
    && (forall u :: u in t.mustAfter <==>
          u != "" && (FoundFromAfter(ref.rules, u, t.spuId) || DependsOnText(specs, t.spuId, u)))
  }

  lemma {:induction false} FindSpecIsLast(specs: seq<ApplicableSpec>, id: string)
    ensures FindSpec(specs, id).Some? ==>
              exists k: nat :: LastSpec(specs, id, k) && specs[k] == FindSpec(specs, id).value
    ensures forall k: nat :: LastSpec(specs, id, k) ==> FindSpec(specs, id) == Some(specs[k])
  {
    if specs != [] {
      var n := |specs| - 1;
      FindSpecIsLast(specs[..n], id);
      if specs[n].spuId == id {
        assert LastSpec(specs, id, n);
      } else {
        forall k: nat ensures LastSpec(specs, id, k) <==> LastSpec(specs[..n], id, k) {
        }
      }
    }
  }

  lemma SpecIsLast(specs: seq<ApplicableSpec>, id: string, u: string)
    ensures var s := FindSpec(specs, id);
            && HasStatus(specs, id, if s.Some? then s.value.status else SpecPending)
            && (DependsOnText(specs, id, u) <==> Mentions(DependsOn(specs, id), u))
  {
    FindSpecIsLast(specs, id);
    hide Strip, LastSpec, FindSpec;
  }

  predicate Declared(specs: seq<ApplicableSpec>, u: string, v: string) {
    u in Distinct(DependsOn(specs, v))
  }

  lemma MustBeforeMeans(ref: NormRef, u: string, v: string)
    requires v != ""
    ensures v in MustBefore(ref, u) <==> FoundFromBefore(ref.rules, u, v)
  {
    DistinctElems(Afters(ref.rules, u), v);
    hide Distinct, Strip;
    if FoundFromBefore(ref.rules, u, v) {
      var r :| r in ref.rules && r.before == u && Strip(r.after) == v;
      assert r.after in Afters(ref.rules, u);
    }
  }

  lemma MustAfterMeans(ref: NormRef, specs: seq<ApplicableSpec>, u: string, v: string)
    requires u != ""
    ensures u in MustAfter(ref, specs, v) <==> FoundFromAfter(ref.rules, u, v) || Declared(specs, u, v)
  {
    var befores, deps := Befores(ref.rules, v), DependsOn(specs, v);
    DistinctElems(befores + deps, u);
    DistinctElems(deps, u);
    MentionsSplit(befores, deps, u);
    hide Distinct, Strip, DependsOn;
    if FoundFromAfter(ref.rules, u, v) {
      var r :| r in ref.rules && r.after == v && Strip(r.before) == u;
      assert r.before in befores;
    }
  }

  lemma ListsMean(ref: NormRef, specs: seq<ApplicableSpec>, id: string)
    ensures forall v :: v in MustBefore(ref, id) <==> v != "" && FoundFromBefore(ref.rules, id, v)
    ensures forall u :: u in MustAfter(ref, specs, id) <==>
              u != "" && (FoundFromAfter(ref.rules, u, id) || Mentions(DependsOn(specs, id), u))
  {
    forall v ensures v in MustBefore(ref, id) <==> v != "" && FoundFromBefore(ref.rules, id, v) {
      DistinctElems(Afters(ref.rules, id), v);
      if v != "" { MustBeforeMeans(ref, id, v); }
    }
    forall u
      ensures u in MustAfter(ref, specs, id) <==>
              u != "" && (FoundFromAfter(ref.rules, u, id) || Mentions(DependsOn(specs, id), u))
    {
      DistinctElems(Befores(ref.rules, id) + DependsOn(specs, id), u);
      DistinctElems(DependsOn(specs, id), u);
      if u != "" { MustAfterMeans(ref, specs, u, id); }
    }
  }

  lemma TaskForMeans(ref: NormRef, specs: seq<ApplicableSpec>, id: string)
    ensures TaskMeans(ref, specs, TaskFor(ref, specs, id))
  {
    LookupIsPriority(ref.catalog, id);
    SpecIsLast(specs, id, "");
    forall u ensures DependsOnText(specs, id, u) <==> Mentions(DependsOn(specs, id), u) {
      SpecIsLast(specs, id, u);
    }
    ListsMean(ref, specs, id);
    assert NoDup(MustBefore(ref, id)) && NoDup(MustAfter(ref, specs, id));
    hide NoDup, FindSpec, HasPriority, HasStatus, DependsOnText, LookupPriority, MustBefore, MustAfter, FoundFromBefore,
         FoundFromAfter, Mentions, DependsOn;
  }

  function TaskFor(ref: NormRef, specs: seq<ApplicableSpec>, spuId: string): Task {
    var s := FindSpec(specs, spuId);
    Task(spuId, if s.Some? then s.value.status else SpecPending, LookupPriority(ref.catalog, spuId),
         MustBefore(ref, spuId), MustAfter(ref, specs, spuId))
  }

  function SpecIds(specs: seq<ApplicableSpec>): (r: seq<string>)
    ensures |r| == |specs| && forall i :: 0 <= i < |specs| ==> r[i] == specs[i].spuId
  {
    seq(|specs|, i requires 0 <= i < |specs| => specs[i].spuId)
  }

  /** The container's specs outside the derived order, as the container lists them. */
  function Additional(specs: seq<ApplicableSpec>, order: seq<string>): (r: seq<string>) {
    Filter(SpecIds(specs), x => x !in order)
  }

  lemma AdditionalMeans(specs: seq<ApplicableSpec>, order: seq<string>)
    ensures forall x :: x in Additional(specs, order) <==> x !in order && exists s :: s in specs && s.spuId == x
  {
    hide Filter;
    forall x | x in SpecIds(specs) ensures exists s :: s in specs && s.spuId == x {
      var i :| 0 <= i < |specs| && SpecIds(specs)[i] == x;
      assert specs[i] in specs;
    }
    forall s | s in specs ensures s.spuId in SpecIds(specs) {
      var i :| 0 <= i < |specs| && specs[i] == s;
      assert SpecIds(specs)[i] == s.spuId;
    }
  }

  function TaskIds(tasks: seq<Task>): (r: seq<string>)
    ensures |r| == |tasks| && forall i :: 0 <= i < |tasks| ==> r[i] == tasks[i].spuId
  {
    seq(|tasks|, i requires 0 <= i < |tasks| => tasks[i].spuId)
  }

  /**
   * The tasks follow the derived order, then come the container's other specs as it lists them: none of either is
   * missing, and there is no other task.
   */
  method BuildTasks(ref: NormRef, specs: seq<ApplicableSpec>) returns (tasks: seq<Task>)
    ensures exists order :: IsExecutionOrder(ref, order) && FollowsPriorities(ref, order) &&
              TaskIds(tasks) == order + Filter(SpecIds(specs), x => x !in order) &&
              (forall k :: |order| <= k < |tasks| ==>
                 tasks[k].spuId !in order && exists s :: s in specs && s.spuId == tasks[k].spuId)
    ensures forall s :: s in specs ==> exists t :: t in tasks && t.spuId == s.spuId
    ensures forall k :: 0 <= k < |tasks| ==> TaskMeans(ref, specs, tasks[k])
  {
    hide IsExecutionOrder, FollowsPriorities, MustBefore, MustAfter, FindSpec, LookupPriority, Filter, TaskMeans;
    var order := DeriveExecutionOrder(ref);
    var additional := Additional(specs, order);
    var ids := order + additional;
    tasks := [];
    for i := 0 to |ids|
      invariant |tasks| == i
      invariant forall k :: 0 <= k < i ==> tasks[k].spuId == ids[k] && TaskMeans(ref, specs, tasks[k])
    {
      var spec := FindSpec(specs, ids[i]);
      TaskForMeans(ref, specs, ids[i]);
      tasks := tasks + [Task(ids[i], if spec.Some? then spec.value.status else SpecPending,
                             LookupPriority(ref.catalog, ids[i]), MustBefore(ref, ids[i]),
                             MustAfter(ref, specs, ids[i]))];
    }
    AdditionalMeans(specs, order);
    assert TaskIds(tasks) == order + additional;
    hide Additional;
    forall s | s in specs ensures exists t :: t in tasks && t.spuId == s.spuId {
      assert s.spuId in ids;
      var j :| 0 <= j < |ids| && ids[j] == s.spuId;
      assert tasks[j] in tasks && tasks[j].spuId == ids[j];
    }
    forall k | |order| <= k < |tasks|
      ensures tasks[k].spuId !in order && exists s :: s in specs && s.spuId == tasks[k].spuId
    {
      assert tasks[k].spuId == ids[k] && ids[k] in additional;
    }
  }

  ghost predicate TrimmedRules(rules: seq<OrderRule>) {
    forall r :: r in rules ==> Trimmed(r.before) && Trimmed(r.after)
  }

  /** Trimmed rules are found under the raw id exactly when they are found under the trimmed one. */
  lemma RuleMentions(rules: seq<OrderRule>, u: string, v: string)
    requires TrimmedRules(rules)
    ensures Mentions(Afters(rules, u), v) <==> exists r :: r in rules && r.before == u && r.after == v
    ensures Mentions(Befores(rules, v), u) <==> exists r :: r in rules && r.before == u && r.after == v
  {
    forall x | x in Afters(rules, u) || x in Befores(rules, v) ensures Strip(x) == x {
      StripOfTrimmed(x);
    }
    hide Strip;
    if exists r :: r in rules && r.before == u && r.after == v {
      assert v in Afters(rules, u) && u in Befores(rules, v);
    }
  }

  /** For trimmed rules the two constraint lists mirror each other, up to what the container itself declares. */
  lemma TrimmedRulesMirror(ref: NormRef, specs: seq<ApplicableSpec>, u: string, v: string)
    requires TrimmedRules(ref.rules) && u != "" && v != ""
    ensures u in MustAfter(ref, specs, v) <==>
            v in MustBefore(ref, u) || u in Distinct(DependsOn(specs, v))
  {
    var afters, befores, deps := Afters(ref.rules, u), Befores(ref.rules, v), DependsOn(specs, v);
    DistinctElems(afters, v);
    DistinctElems(befores + deps, u);
    DistinctElems(deps, u);
    MentionsSplit(befores, deps, u);
    RuleMentions(ref.rules, u, v);
    hide Distinct, DependsOn, Strip, Mentions, Afters, Befores;
  }

  // The exact condition: raw ids decide on one side of a rule, trimmed ids on the other.

  predicate Proper(id: string) {
    id != "" && Trimmed(id)
  }

  /** Seen from either end, a constraint between two proper ids is the same, or the container declares it itself. */
  ghost predicate Mirrored(ref: NormRef, specs: seq<ApplicableSpec>, u: string, v: string) {
    u in MustAfter(ref, specs, v) <==> v in MustBefore(ref, u) || Declared(specs, u, v)
  }

  /** What a rule found from one end needs at the other: a rule that is found from there, or a declared dependency. */
  predicate RuleAnswered(rules: seq<OrderRule>, specs: seq<ApplicableSpec>, r: OrderRule) {
    && (Proper(r.before) && Strip(r.after) != "" ==>
          FoundFromAfter(rules, r.before, Strip(r.after)) || Declared(specs, r.before, Strip(r.after)))
    && (Proper(r.after) && Strip(r.before) != "" ==>
          FoundFromBefore(rules, Strip(r.before), r.after) || Declared(specs, Strip(r.before), r.after))
  }

  /**
   * The two constraint lists mirror each other for all proper ids exactly when every rule is answered; this can be
   * checked rule by rule before the call, whatever blanks the ids carry.
   */
  lemma ConstraintsMirror(ref: NormRef, specs: seq<ApplicableSpec>)
    ensures (forall u, v :: Proper(u) && Proper(v) ==> Mirrored(ref, specs, u, v)) <==>
            (forall r :: r in ref.rules ==> RuleAnswered(ref.rules, specs, r))
  {
    if forall r :: r in ref.rules ==> RuleAnswered(ref.rules, specs, r) {
      forall u, v | Proper(u) && Proper(v) ensures Mirrored(ref, specs, u, v) {
        AnsweredMirrors(ref, specs, u, v);
      }
    }
    if forall u, v :: Proper(u) && Proper(v) ==> Mirrored(ref, specs, u, v) {
      forall r | r in ref.rules ensures RuleAnswered(ref.rules, specs, r) {
        MirrorAnswers(ref, specs, r);
      }
    }
  }

  lemma AnsweredMirrors(ref: NormRef, specs: seq<ApplicableSpec>, u: string, v: string)
    requires Proper(u) && Proper(v) && forall r :: r in ref.rules ==> RuleAnswered(ref.rules, specs, r)
    ensures Mirrored(ref, specs, u, v)
  {
    MustBeforeMeans(ref, u, v);
    MustAfterMeans(ref, specs, u, v);
    hide MustBefore, MustAfter, Declared, Strip, Trimmed;
    if FoundFromBefore(ref.rules, u, v) {
      var r :| r in ref.rules && r.before == u && Strip(r.after) == v;
      assert RuleAnswered(ref.rules, specs, r);
    }
    if FoundFromAfter(ref.rules, u, v) {
      var r :| r in ref.rules && r.after == v && Strip(r.before) == u;
      assert RuleAnswered(ref.rules, specs, r);
    }
  }

  lemma MirrorAnswers(ref: NormRef, specs: seq<ApplicableSpec>, r: OrderRule)
    requires r in ref.rules && forall u, v :: Proper(u) && Proper(v) ==> Mirrored(ref, specs, u, v)
    ensures RuleAnswered(ref.rules, specs, r)
  {
    var before, after := Strip(r.before), Strip(r.after);
    StripTrims(r.before);
    StripTrims(r.after);
    hide MustBefore, MustAfter, Declared, Strip, Trimmed;
    if Proper(r.before) && after != "" {
      assert Mirrored(ref, specs, r.before, after);
      MustBeforeMeans(ref, r.before, after);
      MustAfterMeans(ref, specs, r.before, after);
    }
    if Proper(r.after) && before != "" {
      assert Mirrored(ref, specs, before, r.after);
      MustBeforeMeans(ref, before, r.after);
      MustAfterMeans(ref, specs, before, r.after);
    }
  }

  /** A rule with a blank on one side only, and no other rule to answer it, breaks the mirror. */
  lemma BlankBreaksMirror()
    ensures var ref := NormRef([], [OrderRule("a", " b", "")]);
            "b" in MustBefore(ref, "a") && "a" !in MustAfter(ref, [], "b")
  {
    var rules := [OrderRule("a", " b", "")];
    StripLeadingBlank();
    hide Strip;
    assert rules[0] in rules && rules[0].before == "a" && rules[0].after == " b";
    assert " b" in Afters(rules, "a");
    DistinctElems(Afters(rules, "a"), "b");
    DistinctElems(Befores(rules, "b") + [], "a");
    assert Befores(rules, "b") + [] == Befores(rules, "b");
  }

  /** Blanks on both sides of a rule do no harm to proper ids: the rule is found from neither end. */
  lemma BlanksOnBothSidesMirror()
    ensures forall u, v :: Proper(u) && Proper(v) ==> Mirrored(NormRef([], [OrderRule(" a", " b", "")]), [], u, v)
  {
    var ref := NormRef([], [OrderRule(" a", " b", "")]);
    assert !Proper(" a") && !Proper(" b");
    hide Proper, Mirrored, Strip, Distinct, DependsOn, FoundFromBefore, FoundFromAfter, Declared;
    assert forall r :: r in ref.rules ==> RuleAnswered(ref.rules, [], r);
    ConstraintsMirror(ref, []);
  }

  lemma StripLeadingBlank()
    ensures Strip(" b") == "b"
  {
    assert " b"[1..] == "b";
  }
}
