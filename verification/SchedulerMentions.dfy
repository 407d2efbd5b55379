/** Contradictory rules: what then decides the order is the priority, and after it the order of mention. */
module SchedulerMentions {
  import opened Lists
  import opened Text
  import opened Sorting
  import opened Scheduler

  /** The texts that name nodes, in order: the ids of the catalog, then both ends of each rule. */
  function MentionAt(ref: NormRef, n: nat): string
    requires n < |ref.catalog| + 2 * |ref.rules|
  {
    if n < |ref.catalog| then ref.catalog[n].spuId
    else
      var m := n - |ref.catalog|;
      if m % 2 == 0 then ref.rules[m / 2].before else ref.rules[m / 2].after
  }

  /** `u` is mentioned before `v` is mentioned for the first time. */
  ghost predicate FirstMentioned(ref: NormRef, u: string, v: string) {
    exists n: nat :: n < |ref.catalog| + 2 * |ref.rules| && Strip(MentionAt(ref, n)) == u &&
      forall m: nat :: m <= n ==> Strip(MentionAt(ref, m)) != v
  }

  ghost predicate FirstIn(values: seq<string>, u: string, v: string) {
    exists i :: 0 <= i < |values| && Strip(values[i]) == u && forall j :: 0 <= j <= i ==> Strip(values[j]) != v
  }

  lemma {:induction false} RuleIdsAt(rules: seq<OrderRule>)
    ensures |RuleIds(rules)| == 2 * |rules|
    ensures forall k :: 0 <= k < 2 * |rules| ==>
              RuleIds(rules)[k] == if k % 2 == 0 then rules[k / 2].before else rules[k / 2].after
  {
    if rules != [] {
      RuleIdsAt(rules[..|rules| - 1]);
    }
  }

  lemma MentionsAreIds(ref: NormRef, u: string, v: string)
    requires FirstMentioned(ref, u, v)
    ensures FirstIn(CatalogIds(ref.catalog) + RuleIds(ref.rules), u, v)
  {
    hide Strip;
    RuleIdsAt(ref.rules);
    var ids := CatalogIds(ref.catalog) + RuleIds(ref.rules);
    assert forall n: nat :: n < |ids| ==> ids[n] == MentionAt(ref, n);
    var n: nat :| n < |ids| && Strip(MentionAt(ref, n)) == u &&
      forall m: nat :: m <= n ==> Strip(MentionAt(ref, m)) != v;
    assert Strip(ids[n]) == u;
  }

  lemma FirstInSnoc(values: seq<string>, x: string, u: string, v: string)
    requires FirstIn(values + [x], u, v) && Mentions(values + [x], v)
    ensures Mentions(values, u)
    ensures Mentions(values, v) ==> FirstIn(values, u, v)
    ensures !Mentions(values, v) ==> Strip(x) == v
  {
    hide Strip;
    var all := values + [x];
    var i :| 0 <= i < |all| && Strip(all[i]) == u && forall j :: 0 <= j <= i ==> Strip(all[j]) != v;
    var w :| w in all && Strip(w) == v;
    var j :| 0 <= j < |all| && all[j] == w;
    assert i < j;
    assert values[i] in values && Strip(values[i]) == u;
    if Mentions(values, v) {
      assert forall k :: 0 <= k <= i ==> values[k] == all[k];
    }
  }

  lemma {:induction false} DistinctInOrder(values: seq<string>, u: string, v: string)
    requires u != "" && v != "" && FirstIn(values, u, v) && Mentions(values, v)
    ensures Before(Distinct(values), u, v)
  {
    hide Distinct, Before, Strip, Mentions;
    var n := |values| - 1;
    var front := values[..n];
    assert values == front + [values[n]];
    FirstInSnoc(front, values[n], u, v);
    DistinctElems(front, u);
    DistinctElems(front, v);
    DistinctStep(values, n);
    assert values[..n + 1] == values;
    if Mentions(front, v) {
      DistinctInOrder(front, u, v);
      BeforeGrows(Distinct(front), Strip(values[n]), u, v);
    } else {
      BeforeGrows(Distinct(front), v, u, v);
    }
  }

  lemma AheadOfAll(xs: seq<string>, ys: seq<string>, u: string, v: string)
    requires u in xs && v !in xs && v in ys
    ensures FirstBefore(xs + ys, u, v)
  {
    var i :| 0 <= i < |xs| && xs[i] == u;
    assert (xs + ys)[i] == u && forall j :: 0 <= j <= i ==> (xs + ys)[j] == xs[j];
  }

  /** Cleaning the two lists first does not change which of two nodes comes first. */
  lemma FirstInParts(xs: seq<string>, ys: seq<string>, u: string, v: string)
    requires u != "" && v != "" && FirstIn(xs + ys, u, v) && Mentions(xs + ys, v)
    ensures FirstBefore(Distinct(xs) + Distinct(ys), u, v)
  {
    hide Distinct, Strip, Mentions, FirstIn, Before, FirstBefore, NoDup;
    MentionsSplit(xs, ys, v);
    DistinctElems(xs, u);
    DistinctElems(xs, v);
    DistinctElems(ys, v);
    FirstInOneOf(xs, ys, u, v);
    var dx, dy := Distinct(xs), Distinct(ys);
    DistinctOnce(xs);
    DistinctOnce(ys);
    if v in dx {
      DistinctInOrder(xs, u, v);
      BeforeIsFirst([], dx, dy, u, v);
      assert [] + dx + dy == dx + dy;
    } else if u in dx {
      AheadOfAll(dx, dy, u, v);
    } else {
      DistinctInOrder(ys, u, v);
      BeforeIsFirst(dx, dy, [], u, v);
      assert dx + dy + [] == dx + dy;
    }
  }

  lemma DistinctOnce(values: seq<string>)
    ensures NoDup(Distinct(values))
  {
  }

  lemma FirstInOneOf(xs: seq<string>, ys: seq<string>, u: string, v: string)
    requires FirstIn(xs + ys, u, v)
    ensures Mentions(xs, v) ==> FirstIn(xs, u, v)
    ensures !Mentions(xs, u) ==> FirstIn(ys, u, v)
  {
    hide Strip;
    var all := xs + ys;
    var i :| 0 <= i < |all| && Strip(all[i]) == u && forall j :: 0 <= j <= i ==> Strip(all[j]) != v;
    if Mentions(xs, v) {
      var w :| w in xs && Strip(w) == v;
      var j :| 0 <= j < |xs| && xs[j] == w;
      assert all[j] == xs[j];
      assert xs[i] == all[i] && forall k :: 0 <= k <= i ==> xs[k] == all[k];
    }
    if !Mentions(xs, u) {
      assert forall k :: 0 <= k < |xs| ==> all[k] == xs[k] && xs[k] in xs;
      assert ys[i - |xs|] == all[i] && forall j :: 0 <= j <= i - |xs| ==> ys[j] == all[j + |xs|];
    }
  }

  lemma BeforeIsFirst(xs: seq<string>, ys: seq<string>, zs: seq<string>, u: string, v: string)
    requires NoDup(ys) && Before(ys, u, v) && v !in xs
    ensures FirstBefore(xs + ys + zs, u, v)
  {
    var all := xs + ys + zs;
    var i, k :| 0 <= i < k < |ys| && ys[i] == u && ys[k] == v;
    assert all[|xs| + i] == u && all[|xs| + k] == v;
    forall j | 0 <= j <= |xs| + i ensures all[j] != v {
      if j < |xs| { assert all[j] == xs[j]; } else { assert all[j] == ys[j - |xs|]; }
    }
  }

  /** Texts that are clean already. */
  ghost predicate AllClean(values: seq<string>) {
    forall i :: 0 <= i < |values| ==> values[i] != "" && Strip(values[i]) == values[i]
  }

  lemma {:induction false} CleanOfClean(values: seq<string>)
    requires AllClean(values)
    ensures Clean(values) == values
  {
    if values != [] {
      hide Strip;
      var n := |values| - 1;
      assert AllClean(values[..n]) && values[n] != "" && Strip(values[n]) == values[n];
      hide AllClean;
      CleanOfClean(values[..n]);
      assert values == values[..n] + [values[n]];
    }
  }

  lemma DistinctIsClean(values: seq<string>)
    ensures AllClean(Distinct(values))
  {
    var d := Distinct(values);
    forall i | 0 <= i < |d| ensures d[i] != "" && Strip(d[i]) == d[i] {
      var x := d[i];
      DistinctElems(values, x);
      var w :| w in values && Strip(w) == x;
      StripTrims(w);
      StripOfTrimmed(x);
    }
  }

  lemma NodesAreFirstMentions(ref: NormRef)
    ensures AllNodes(ref) == Dedup(Distinct(CatalogIds(ref.catalog)) + Distinct(RuleIds(ref.rules)))
  {
    var ids, ends := Distinct(CatalogIds(ref.catalog)), Distinct(RuleIds(ref.rules));
    DistinctIsClean(CatalogIds(ref.catalog));
    DistinctIsClean(RuleIds(ref.rules));
    assert Distinct(ids + ends) == Dedup(Clean(ids + ends));
    hide Strip, Distinct, Dedup, Clean;
    CleanOfClean(ids + ends);
  }

  /** The nodes stand in the order of first mention. */
  lemma NodesInMentionOrder(ref: NormRef, u: string, v: string)
    requires IsNode(ref, u) && IsNode(ref, v) && FirstMentioned(ref, u, v)
    ensures Before(AllNodes(ref), u, v)
  {
    var ids, ends := CatalogIds(ref.catalog), RuleIds(ref.rules);
    CatalogMentions(ref.catalog, v);
    RuleIdsMention(ref.rules, v);
    hide Distinct, Dedup, Strip, FirstBefore, FirstIn, FirstMentioned, Before, Mentions, AllNodes;
    MentionsAreIds(ref, u, v);
    MentionsSplit(ids, ends, v);
    FirstInParts(ids, ends, u, v);
    NodesAreFirstMentions(ref);
    DedupInOrder(Distinct(ids) + Distinct(ends), u, v);
  }

  /** Under contradictory rules, nodes of one priority stand in the order in which the norm first mentions them. */
  lemma ContradictionKeepsMentionOrder(ref: NormRef, order: seq<string>, u: string, v: string, p: int)
    requires IsExecutionOrder(ref, order) && CyclicRules(ref.rules)
    requires IsNode(ref, u) && IsNode(ref, v) && FirstMentioned(ref, u, v)
    requires HasPriority(ref.catalog, u, p) && HasPriority(ref.catalog, v, p)
    ensures Before(order, u, v)
  {
    LookupIsPriority(ref.catalog, u);
    LookupIsPriority(ref.catalog, v);
    NodesInMentionOrder(ref, u, v);
    ByPriorityIsPreorder(ref);
    hide AllNodes, IsNode, CyclicRules, FirstMentioned, HasPriority, Before, LookupPriority, Sort;
    SortStable(AllNodes(ref), ByPriority(ref), u, v);
  }
}
