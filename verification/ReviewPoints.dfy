/** Compressing the list of review points: without repetitions, summarised by reason, and bounded. */
module ReviewPoints {
  import opened Lists

  const MAX_POINTS: nat := 30
  const MAX_PER_REASON: nat := 6

  /** A review point as generated; missing fields have defaults that differ by use. */
  datatype Point = Point(spec: Option<string>, clause: Option<string>, priority: Option<string>, reason: Option<string>,
                         confidence: Option<real>)

  datatype Key = Key(clause: string, priority: string, reason: string)

  datatype Group = Group(priority: string, reason: string)

  datatype Entry =
    | Kept(point: Point)
    | Omitted(count: nat, group: Group, spec: string, confidence: real)
    | Truncated(count: nat)

  function Or<T>(o: Option<T>, default: T): T {
    if o.Some? then o.value else default
  }

  function KeyOf(p: Point): Key {
    Key(Or(p.clause, ""), Or(p.priority, ""), Or(p.reason, ""))
  }

  function GroupOf(p: Point): Group {
    Group(Or(p.priority, "medium"), Or(p.reason, "review_required"))
  }

  /** The two fields say the same, a missing one standing for `missing`. */
  ghost predicate SaySame(a: Option<string>, b: Option<string>, missing: string) {
    a == b || (a == None && b == Some(missing)) || (a == Some(missing) && b == None)
  }

  /** Points repeat each other if they agree in clause, priority and reason, a missing text being an empty one. */
  lemma RepeatsExactly(p: Point, q: Point)
    ensures KeyOf(p) == KeyOf(q) <==>
            SaySame(p.clause, q.clause, "") && SaySame(p.priority, q.priority, "") && SaySame(p.reason, q.reason, "")
  {
  }

  /** Points belong together if they agree in priority and reason, by default "medium" and "review_required". */
  lemma BelongsExactly(p: Point, g: Group)
    ensures GroupOf(p) == g <==>
            && (p.priority == Some(g.priority) || (p.priority == None && g.priority == "medium"))
            && (p.reason == Some(g.reason) || (p.reason == None && g.reason == "review_required"))
  {
  }

  // ---------- specification ----------

  function Keys(ps: seq<Point>): (r: seq<Key>)
    ensures |r| == |ps| && forall i :: 0 <= i < |ps| ==> r[i] == KeyOf(ps[i])
  {
    seq(|ps|, i requires 0 <= i < |ps| => KeyOf(ps[i]))
  }

  /** The first point of every key. */
  function Deduped(ps: seq<Point>): seq<Point> {
    if ps == [] then []
    else
      var n := |ps| - 1;
      var rest := Deduped(ps[..n]);
      if KeyOf(ps[n]) in Keys(rest) then rest else rest + [ps[n]]
  }

  function Groups(ps: seq<Point>): (r: seq<Group>)
    ensures |r| == |ps| && forall i :: 0 <= i < |ps| ==> r[i] == GroupOf(ps[i])
  {
    seq(|ps|, i requires 0 <= i < |ps| => GroupOf(ps[i]))
  }

  function GroupOrder(ps: seq<Point>): seq<Group> {
    Dedup(Groups(ps))
  }

  function Members(ps: seq<Point>, g: Group): seq<Point> {
    Filter(ps, p => GroupOf(p) == g)
  }

  function Shown(ps: seq<Point>): seq<Entry> {
    seq(|ps|, i requires 0 <= i < |ps| => Kept(ps[i]))
  }

  /** The first members of a group, and one summary of the others if there are any. */
  function Part(ms: seq<Point>, g: Group): seq<Entry> {
    if |ms| <= MAX_PER_REASON then Shown(ms)
    else Shown(ms[..MAX_PER_REASON]) +
         [Omitted(|ms| - MAX_PER_REASON, g, Or(ms[0].spec, "summary"), Or(ms[0].confidence, 0.0))]
  }

  function Parts(ps: seq<Point>, gs: seq<Group>): seq<Entry> {
    if gs == [] then []
    else Parts(ps, gs[..|gs| - 1]) + Part(Members(ps, gs[|gs| - 1]), gs[|gs| - 1])
  }

  /** The list before it is cut to its bound. */
  function Grouped(points: seq<Point>): seq<Entry> {
    Parts(Deduped(points), GroupOrder(Deduped(points)))
  }

  function Bounded(es: seq<Entry>): seq<Entry> {
    if |es| <= MAX_POINTS then es else es[..MAX_POINTS] + [Truncated(|es| - MAX_POINTS)]
  }

  // ---------- the loops ----------

  method Deduplicate(points: seq<Point>) returns (deduped: seq<Point>)
    ensures deduped == Deduped(points)
  {
    deduped := [];
    var seen: set<Key> := {};
    for i := 0 to |points|
      invariant deduped == Deduped(points[..i])
      invariant seen == Elems(Keys(deduped))
    {
      TakeNext(points, i);
      var key := KeyOf(points[i]);
      if key in seen {
        continue;
      }
      seen := seen + {key};
      assert Keys(deduped + [points[i]]) == Keys(deduped) + [key];
      deduped := deduped + [points[i]];
    }
    assert points[..|points|] == points;
  }

  lemma GroupOrderStep(ps: seq<Point>, i: nat)
    requires i < |ps|
    ensures GroupOrder(ps[..i + 1]) ==
            if GroupOf(ps[i]) in GroupOrder(ps[..i]) then GroupOrder(ps[..i])
            else GroupOrder(ps[..i]) + [GroupOf(ps[i])]
  {
    hide Dedup;
    assert Groups(ps[..i + 1]) == Groups(ps[..i]) + [GroupOf(ps[i])];
    DedupSnoc(Groups(ps[..i]), GroupOf(ps[i]));
  }

  lemma MembersStep(ps: seq<Point>, i: nat, g: Group)
    requires i < |ps|
    ensures Members(ps[..i + 1], g) ==
            if GroupOf(ps[i]) == g then Members(ps[..i], g) + [ps[i]] else Members(ps[..i], g)
  {
    hide Filter;
    FilterStep(ps, i, p => GroupOf(p) == g);
  }

  lemma NoGroupNoMembers(ps: seq<Point>, g: Group)
    requires g !in GroupOrder(ps)
    ensures Members(ps, g) == []
  {
    hide Filter, Dedup;
    forall p | p in ps ensures GroupOf(p) != g {
      var i :| 0 <= i < |ps| && ps[i] == p;
      assert Groups(ps)[i] == GroupOf(p);
    }
    FilterNone(ps, p => GroupOf(p) == g);
  }

  method GroupByReason(ps: seq<Point>) returns (order: seq<Group>, grouped: map<Group, seq<Point>>)
    ensures order == GroupOrder(ps)
    ensures forall g :: g in order <==> g in grouped
    ensures forall g :: g in order ==> grouped[g] == Members(ps, g)
  {
    hide GroupOrder, Members;
    EmptyGroups();
    order, grouped := [], map[];
    for i := 0 to |ps|
      invariant order == GroupOrder(ps[..i])
      invariant forall g :: g in order <==> g in grouped
      invariant forall g :: g in order ==> grouped[g] == Members(ps[..i], g)
    {
      var g := GroupOf(ps[i]);
      GroupOrderStep(ps, i);
      forall h
        ensures Members(ps[..i + 1], h) == if g == h then Members(ps[..i], h) + [ps[i]] else Members(ps[..i], h)
      {
        MembersStep(ps, i, h);
      }
      if g !in grouped {
        NoGroupNoMembers(ps[..i], g);
        grouped := grouped[g := []];
        order := order + [g];
      }
      grouped := grouped[g := grouped[g] + [ps[i]]];
    }
    assert ps[..|ps|] == ps;
  }

  lemma EmptyGroups()
    ensures GroupOrder([]) == []
  {
  }

  method Summarise(entries: seq<Point>, g: Group) returns (part: seq<Entry>)
    ensures part == Part(entries, g)
  {
    var keep := if |entries| <= MAX_PER_REASON then entries else entries[..MAX_PER_REASON];
    var omitted := |entries| - |keep|;
    part := Shown(keep);
    if omitted > 0 {
      part := part + [Omitted(omitted, g, Or(keep[0].spec, "summary"), Or(keep[0].confidence, 0.0))];
    }
  }

  method CompressReviewPoints(points: seq<Point>) returns (r: seq<Entry>)
    ensures r == Bounded(Grouped(points))
  {
    hide GroupOrder, Members, Deduped, Part;
    if points == [] {
      NothingGrouped();
      return [];
    }
    var deduped := Deduplicate(points);
    var order, grouped := GroupByReason(deduped);
    r := [];
    for i := 0 to |order|
      invariant r == Parts(deduped, order[..i])
    {
      TakeNext(order, i);
      assert order[i] in order;
      var part := Summarise(grouped[order[i]], order[i]);
      r := r + part;
    }
    assert order[..|order|] == order;
    if |r| > MAX_POINTS {
      var omittedTotal := |r| - MAX_POINTS;
      r := r[..MAX_POINTS];
      r := r + [Truncated(omittedTotal)];
    }
  }

  lemma NothingGrouped()
    ensures Grouped([]) == []
  {
    assert Deduped([]) == [];
    EmptyGroups();
  }

  // ---------- what the list keeps ----------

  /** De-duplication keeps every key once, in the order of first mention. */
  lemma {:induction false} DedupedKeys(ps: seq<Point>)
    ensures Keys(Deduped(ps)) == Dedup(Keys(ps))
  {
    hide Dedup, KeyOf;
    if ps == [] {
      DedupOfNoDup<Key>([]);
      assert Keys(Deduped(ps)) == [] && Keys(ps) == [];
    } else {
      var n := |ps| - 1;
      DedupedKeys(ps[..n]);
      assert Keys(ps) == Keys(ps[..n]) + [KeyOf(ps[n])];
      DedupSnoc(Keys(ps[..n]), KeyOf(ps[n]));
      assert Keys(Deduped(ps[..n]) + [ps[n]]) == Keys(Deduped(ps[..n])) + [KeyOf(ps[n])];
    }
  }

  /** `p` is the first point with its key. */
  ghost predicate FirstWithKey(ps: seq<Point>, p: Point) {
    exists i :: 0 <= i < |ps| && ps[i] == p && KeyOf(p) !in Keys(ps[..i])
  }

  lemma FirstStaysFirst(ps: seq<Point>, n: nat, p: Point)
    requires n <= |ps| && FirstWithKey(ps[..n], p)
    ensures FirstWithKey(ps, p)
  {
    hide KeyOf;
    var i :| 0 <= i < n && ps[..n][i] == p && KeyOf(p) !in Keys(ps[..n][..i]);
    assert ps[..n][..i] == ps[..i] && ps[i] == p;
  }

  lemma NewIsFirst(ps: seq<Point>, n: nat)
    requires n < |ps| && KeyOf(ps[n]) !in Keys(ps[..n])
    ensures FirstWithKey(ps, ps[n])
  {
  }

  lemma {:induction false} DedupedKeepsFirst(ps: seq<Point>)
    ensures forall p :: p in Deduped(ps) ==> FirstWithKey(ps, p)
  {
    hide KeyOf, FirstWithKey, Dedup;
    if ps != [] {
      var n := |ps| - 1;
      DedupedKeepsFirst(ps[..n]);
      forall p | p in Deduped(ps[..n]) ensures FirstWithKey(ps, p) {
        FirstStaysFirst(ps, n, p);
      }
      if KeyOf(ps[n]) !in Keys(Deduped(ps[..n])) {
        DedupedKeys(ps[..n]);
        NewIsFirst(ps, n);
      }
    }
  }

  /** How many points an entry stands for. */
  function EntryWeight(e: Entry): nat {
    match e
    case Kept(_) => 1
    case Omitted(n, _, _, _) => n
    case Truncated(_) => 0
  }

  function Weight(es: seq<Entry>): nat {
    if es == [] then 0 else Weight(es[..|es| - 1]) + EntryWeight(es[|es| - 1])
  }

  lemma {:induction false} WeightConcat(a: seq<Entry>, b: seq<Entry>)
    ensures Weight(a + b) == Weight(a) + Weight(b)
  {
    if b == [] {
      assert a + b == a;
    } else {
      assert (a + b)[..|a + b| - 1] == a + b[..|b| - 1];
      WeightConcat(a, b[..|b| - 1]);
    }
  }

  lemma {:induction false} WeightShown(ms: seq<Point>)
    ensures Weight(Shown(ms)) == |ms|
  {
    if ms != [] {
      assert Shown(ms)[..|ms| - 1] == Shown(ms[..|ms| - 1]);
      WeightShown(ms[..|ms| - 1]);
    }
  }

  lemma PartWeight(ms: seq<Point>, g: Group)
    ensures Weight(Part(ms, g)) == |ms|
    ensures |Part(ms, g)| == if |ms| <= 7 then |ms| else 7
  {
    if |ms| <= MAX_PER_REASON {
      WeightShown(ms);
    } else {
      WeightShown(ms[..MAX_PER_REASON]);
      var summary := Omitted(|ms| - MAX_PER_REASON, g, Or(ms[0].spec, "summary"), Or(ms[0].confidence, 0.0));
      WeightConcat(Shown(ms[..MAX_PER_REASON]), [summary]);
      assert Weight([summary]) == |ms| - MAX_PER_REASON by { assert [summary][..0] == []; }
    }
  }

  /** The sizes of the listed groups together. */
  function Sizes(ps: seq<Point>, gs: seq<Group>): nat {
    if gs == [] then 0 else Sizes(ps, gs[..|gs| - 1]) + |Members(ps, gs[|gs| - 1])|
  }

  /** The sizes of the listed groups together, none counted above seven. */
  function CappedSizes(ps: seq<Point>, gs: seq<Group>): nat {
    if gs == [] then 0
    else
      var size := |Members(ps, gs[|gs| - 1])|;
      CappedSizes(ps, gs[..|gs| - 1]) + if size <= 7 then size else 7
  }

  lemma {:induction false} PartsWeight(ps: seq<Point>, gs: seq<Group>)
    ensures Weight(Parts(ps, gs)) == Sizes(ps, gs) && |Parts(ps, gs)| == CappedSizes(ps, gs)
  {
    hide Members, Part;
    if gs != [] {
      var n := |gs| - 1;
      PartsWeight(ps, gs[..n]);
      PartWeight(Members(ps, gs[n]), gs[n]);
      WeightConcat(Parts(ps, gs[..n]), Part(Members(ps, gs[n]), gs[n]));
    }
  }

  lemma {:induction false} SizesSnoc(ps: seq<Point>, i: nat, gs: seq<Group>)
    requires i < |ps| && NoDup(gs)
    ensures Sizes(ps[..i + 1], gs) == Sizes(ps[..i], gs) + if GroupOf(ps[i]) in gs then 1 else 0
  {
    hide Members, GroupOf;
    if gs != [] {
      var n := |gs| - 1;
      SizesSnoc(ps, i, gs[..n]);
      MembersStep(ps, i, gs[n]);
      assert gs == gs[..n] + [gs[n]];
      assert gs[n] !in gs[..n];
    }
  }

  /** The groups together hold every point once. */
  lemma {:induction false} GroupsHoldAll(ps: seq<Point>, i: nat)
    requires i <= |ps|
    ensures Sizes(ps[..i], GroupOrder(ps[..i])) == i
  {
    hide GroupOrder, Members, GroupOf;
    if i == 0 {
      EmptyGroups();
      assert ps[..0] == [];
    } else {
      GroupsHoldAll(ps, i - 1);
      GroupOrderStep(ps, i - 1);
      var gs, g := GroupOrder(ps[..i - 1]), GroupOf(ps[i - 1]);
      OrderIsNoDup(ps[..i - 1]);
      SizesSnoc(ps, i - 1, gs);
      if g !in gs {
        NoGroupNoMembers(ps[..i - 1], g);
        MembersStep(ps, i - 1, g);
        assert (gs + [g])[..|gs|] == gs;
      }
    }
  }

  lemma OrderIsNoDup(ps: seq<Point>)
    ensures NoDup(GroupOrder(ps))
  {
  }

  /**
   * Nothing is lost before the cut: the points kept and the points the summaries count are together the points left by
   * de-duplication.
   */
  lemma KeptPlusOmitted(points: seq<Point>)
    ensures Weight(Grouped(points)) == |Deduped(points)|
  {
    hide Weight, Parts, Sizes, GroupOrder, Deduped;
    var ps := Deduped(points);
    PartsWeight(ps, GroupOrder(ps));
    GroupsHoldAll(ps, |ps|);
    assert ps[..|ps|] == ps;
  }

  // ---------- group by group ----------

  function EntryGroup(e: Entry): Option<Group> {
    match e
    case Kept(p) => Some(GroupOf(p))
    case Omitted(_, g, _, _) => Some(g)
    case Truncated(_) => None
  }

  /** The entries of one group, in order. */
  function Of(es: seq<Entry>, g: Group): seq<Entry> {
    Filter(es, e => EntryGroup(e) == Some(g))
  }

  lemma {:induction false} OfConcat(a: seq<Entry>, b: seq<Entry>, g: Group)
    ensures Of(a + b, g) == Of(a, g) + Of(b, g)
  {
    if b == [] {
      assert a + b == a;
    } else {
      assert (a + b)[..|a + b| - 1] == a + b[..|b| - 1];
      OfConcat(a, b[..|b| - 1], g);
    }
  }

  lemma PartIsOfGroup(ps: seq<Point>, g: Group)
    ensures forall e :: e in Part(Members(ps, g), g) ==> EntryGroup(e) == Some(g)
  {
    hide Filter;
    var ms := Members(ps, g);
    assert forall p :: p in ms ==> GroupOf(p) == g;
    assert forall i :: 0 <= i < |ms| ==> ms[i] in ms;
  }

  lemma OfPart(ps: seq<Point>, g: Group, h: Group)
    ensures Of(Part(Members(ps, g), g), h) == if g == h then Part(Members(ps, g), g) else []
  {
    hide Members, Part, EntryGroup;
    PartIsOfGroup(ps, g);
    var part := Part(Members(ps, g), g);
    if g == h {
      FilterAll(part, e => EntryGroup(e) == Some(h));
    } else {
      FilterNone(part, e => EntryGroup(e) == Some(h));
    }
  }

  lemma {:induction false} OfParts(ps: seq<Point>, gs: seq<Group>, g: Group)
    requires NoDup(gs)
    ensures Of(Parts(ps, gs), g) == if g in gs then Part(Members(ps, g), g) else []
  {
    hide Members, Part, Of;
    if gs == [] {
      OfNothing(g);
    } else {
      var n := |gs| - 1;
      OfParts(ps, gs[..n], g);
      OfConcat(Parts(ps, gs[..n]), Part(Members(ps, gs[n]), gs[n]), g);
      OfPart(ps, gs[n], g);
      assert gs == gs[..n] + [gs[n]];
      assert gs[n] !in gs[..n];
    }
  }

  lemma OfNothing(g: Group)
    ensures Of([], g) == []
  {
  }

  /** Every group contributes its first six points in order and one summary of the rest exactly when it is larger. */
  lemma GroupContribution(points: seq<Point>, g: Group)
    ensures var ms := Members(Deduped(points), g);
            Of(Grouped(points), g) ==
            if |ms| <= 6 then Shown(ms)
            else Shown(ms[..6]) + [Omitted(|ms| - 6, g, Or(ms[0].spec, "summary"), Or(ms[0].confidence, 0.0))]
  {
    hide Members, Of, GroupOrder, Deduped, Shown;
    var ps := Deduped(points);
    OrderIsNoDup(ps);
    OfParts(ps, GroupOrder(ps), g);
    if g !in GroupOrder(ps) {
      NoGroupNoMembers(ps, g);
      ShownNothing();
    }
  }

  lemma ShownNothing()
    ensures Shown([]) == []
  {
  }

  lemma {:induction false} DedupAppendSame<T>(xs: seq<T>, ys: seq<T>, y: T)
    requires y !in xs && ys != [] && forall k :: 0 <= k < |ys| ==> ys[k] == y
    ensures Dedup(xs + ys) == Dedup(xs) + [y]
  {
    hide Dedup;
    var n := |ys| - 1;
    assert xs + ys == (xs + ys[..n]) + [y];
    DedupSnoc(xs + ys[..n], y);
    if n == 0 {
      assert xs + ys[..n] == xs;
    } else {
      assert ys[..n][0] == y;
      DedupAppendSame(xs, ys[..n], y);
      assert y in xs + ys[..n];
    }
  }

  function EntryGroups(es: seq<Entry>): (r: seq<Option<Group>>)
    ensures |r| == |es| && forall i :: 0 <= i < |es| ==> r[i] == EntryGroup(es[i])
  {
    seq(|es|, i requires 0 <= i < |es| => EntryGroup(es[i]))
  }

  function Somes(gs: seq<Group>): (r: seq<Option<Group>>)
    ensures |r| == |gs| && forall i :: 0 <= i < |gs| ==> r[i] == Some(gs[i])
  {
    seq(|gs|, i requires 0 <= i < |gs| => Some(gs[i]))
  }

  lemma {:induction false} PartsInOrder(ps: seq<Point>, gs: seq<Group>)
    requires NoDup(gs) && forall g :: g in gs ==> Members(ps, g) != []
    ensures Dedup(EntryGroups(Parts(ps, gs))) == Somes(gs)
  {
    hide Members, Part, Dedup, EntryGroup;
    if gs == [] {
      DedupOfNoDup<Option<Group>>([]);
      assert EntryGroups(Parts(ps, gs)) == [] && Somes(gs) == [];
    } else {
      var n := |gs| - 1;
      var g := gs[n];
      var front, part := Parts(ps, gs[..n]), Part(Members(ps, g), g);
      assert forall h :: h in gs[..n] ==> h in gs;
      PartsInOrder(ps, gs[..n]);
      assert EntryGroups(front + part) == EntryGroups(front) + EntryGroups(part);
      assert g !in gs[..n] && Some(g) !in Somes(gs[..n]);
      PartIsOfGroup(ps, g);
      assert g in gs;
      PartWeight(Members(ps, g), g);
      DedupAppendSame(EntryGroups(front), EntryGroups(part), Some(g));
      assert Somes(gs) == Somes(gs[..n]) + [Some(g)];
    }
  }

  lemma GroupHasMember(ps: seq<Point>, g: Group)
    requires g in GroupOrder(ps)
    ensures Members(ps, g) != []
  {
    hide Filter, Dedup;
    var i :| 0 <= i < |Groups(ps)| && Groups(ps)[i] == g;
    assert ps[i] in ps && GroupOf(ps[i]) == g;
    assert ps[i] in Members(ps, g);
  }

  /** The groups appear in the order in which the points first mention them. */
  lemma GroupsInFirstSeenOrder(points: seq<Point>)
    ensures Dedup(EntryGroups(Grouped(points))) == Somes(Dedup(Groups(Deduped(points))))
  {
    hide Members, Parts, Dedup, Deduped;
    var ps := Deduped(points);
    OrderIsNoDup(ps);
    forall g | g in GroupOrder(ps) ensures Members(ps, g) != [] {
      GroupHasMember(ps, g);
    }
    PartsInOrder(ps, GroupOrder(ps));
  }

  // ---------- the bound ----------

  /**
   * The list is cut exactly when the group sizes, none counted above seven, add up to more than thirty; then it ends in
   * the exact number of entries cut, and it never has more than thirty-one entries.
   */
  lemma BoundedList(points: seq<Point>)
    ensures var r := Bounded(Grouped(points));
            var total := CappedSizes(Deduped(points), GroupOrder(Deduped(points)));
            && |r| <= 31 && r[..if |r| <= 30 then |r| else 30] <= Grouped(points)
            && ((exists e :: e in r && e.Truncated?) <==> total > 30)
            && (if total > 30 then |r| == 31 && r[30] == Truncated(total - 30) else r == Grouped(points))
  {
    hide Parts, Deduped, GroupOrder, CappedSizes, Sizes, Weight;
    var ps := Deduped(points);
    PartsWeight(ps, GroupOrder(ps));
    NoTruncation(ps, GroupOrder(ps));
    var r := Bounded(Grouped(points));
    if |Grouped(points)| > 30 {
      assert r[30] == Truncated(|Grouped(points)| - 30);
    } else {
      assert r[..|r|] == r;
    }
  }

  lemma {:induction false} NoTruncation(ps: seq<Point>, gs: seq<Group>)
    ensures forall e :: e in Parts(ps, gs) ==> !e.Truncated?
  {
    hide Members;
    if gs != [] {
      NoTruncation(ps, gs[..|gs| - 1]);
    }
  }
}
