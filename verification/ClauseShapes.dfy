/**
 * Depths and parents told by the texts of the ids: a number or annex lies as deep as it has parts, an appendix at the
 * top, a Chinese unit by its kind; and from this which nodes hang under which, and which are roots.
 */
module ClauseShapes {
  import opened Lists
  import opened Text
  import opened Sorting
  import opened ClauseIds
  import opened ClauseTree
  import opened ClauseWalk

  // ---------- shapes ----------

  ghost predicate DigitsOnly(s: string) {
    s != "" && forall c :: c in s ==> '0' <= c <= '9'
  }

  ghost predicate LettersOnly(s: string) {
    s != "" && forall c :: c in s ==> 'A' <= c <= 'Z' || 'a' <= c <= 'z'
  }

  ghost predicate NumbersOnly(parts: seq<string>) {
    forall i :: 0 <= i < |parts| ==> DigitsOnly(parts[i])
  }

  /** Numbers with dots between them. */
  ghost predicate NumberShape(s: string, parts: seq<string>) {
    parts != [] && NumbersOnly(parts) && s == Join(parts)
  }

  /** One to three letters, perhaps behind U+9644, and at least one number, with dots between them. */
  ghost predicate AnnexShape(s: string, parts: seq<string>) {
    && |parts| >= 2 && NumbersOnly(parts[1..]) && s == Join(parts)
    && exists letters :: LettersOnly(letters) && |letters| <= 3 &&
                         (parts[0] == letters || parts[0] == "\U{9644}" + letters)
  }

  /** U+9644 U+5F55 and one to eight letters, digits or Chinese characters. */
  ghost predicate AppendixShape(s: string, name: string) {
    && s == "\U{9644}\U{5F55}" + name && 1 <= |name| <= 8
    && forall c :: c in name ==>
         'A' <= c <= 'Z' || 'a' <= c <= 'z' || '0' <= c <= '9' || '\U{4E00}' <= c <= '\U{9FFF}'
  }

  /** U+7B2C, a serial, and the unit: chapter U+7AE0, section U+8282, article U+6761 or paragraph U+6B3E. */
  ghost predicate UnitShape(s: string, serial: string, unit: char) {
    && s == "\U{7B2C}" + serial + [unit] && serial != ""
    && (unit == '\U{7AE0}' || unit == '\U{8282}' || unit == '\U{6761}' || unit == '\U{6B3E}')
    && forall c :: c in serial ==> '0' <= c <= '9' || '\U{4E00}' <= c <= '\U{9FFF}' || c == '\U{3007}'
  }

  lemma DigitsAreDigits(s: string)
    ensures Digits(s) <==> DigitsOnly(s)
  {
  }

  lemma NumbersHaveNoDot(parts: seq<string>)
    requires NumbersOnly(parts)
    ensures DotFree(parts)
  {
    forall p | p in parts ensures '.' !in p {
      assert DigitsOnly(p);
    }
  }

  lemma NumbersAreDigits(parts: seq<string>)
    ensures AllDigits(parts) <==> NumbersOnly(parts)
  {
    forall s ensures Digits(s) <==> DigitsOnly(s) {
      DigitsAreDigits(s);
    }
    hide Digits, DigitsOnly;
  }

  lemma NumericExactly(s: string)
    ensures IsNumeric(s) <==> NumberShape(s, Split(s))
    ensures forall parts :: NumberShape(s, parts) ==> parts == Split(s)
  {
    JoinSplit(s);
    NumbersAreDigits(Split(s));
    forall parts | NumberShape(s, parts) ensures parts == Split(s) {
      NumbersHaveNoDot(parts);
      SplitJoin(parts);
    }
    hide NumbersOnly, AllDigits;
  }

  lemma HeadExactly(p: string)
    ensures AnnexHead(p) <==>
            exists letters :: LettersOnly(letters) && |letters| <= 3 && (p == letters || p == "\U{9644}" + letters)
  {
    if AnnexHead(p) {
      var letters := if p[0] == ANNEX_MARK then p[1..] else p;
      assert LettersOnly(letters);
      assert p[0] == ANNEX_MARK ==> p == "\U{9644}" + letters;
    }
    if letters :| LettersOnly(letters) && |letters| <= 3 && (p == letters || p == "\U{9644}" + letters) {
      assert letters[0] in letters;
      if p != letters { assert p[1..] == letters; }
      assert AllChars(letters, IsLetter);
    }
  }

  lemma AnnexHasNoDot(s: string, parts: seq<string>)
    requires AnnexShape(s, parts)
    ensures DotFree(parts)
  {
    NumbersHaveNoDot(parts[1..]);
    forall p | p in parts ensures '.' !in p {
      if p !in parts[1..] { assert p == parts[0]; }
    }
  }

  lemma AnnexExactly(s: string)
    ensures IsAnnex(s) <==> AnnexShape(s, Split(s))
    ensures forall parts :: AnnexShape(s, parts) ==> parts == Split(s)
  {
    JoinSplit(s);
    HeadExactly(Split(s)[0]);
    NumbersAreDigits(Split(s)[1..]);
    forall parts | AnnexShape(s, parts) ensures parts == Split(s) {
      AnnexHasNoDot(s, parts);
      SplitJoin(parts);
    }
    hide NumbersOnly, AllDigits, AnnexHead, LettersOnly;
  }

  lemma AppendixExactly(s: string)
    ensures IsAppendix(s) <==> exists name :: AppendixShape(s, name)
  {
    if IsAppendix(s) {
      assert s == "\U{9644}\U{5F55}" + s[2..];
      assert AppendixShape(s, s[2..]);
    }
    if name :| AppendixShape(s, name) {
      assert s[2..] == name;
      assert s[..2] == "\U{9644}\U{5F55}";
    }
  }

  lemma UnitExactly(s: string)
    ensures forall unit :: CnUnit(s) == Some(unit) <==> exists serial :: UnitShape(s, serial, unit)
  {
    if IsCnClause(s) {
      var serial := s[1..|s| - 1];
      assert s == "\U{7B2C}" + serial + [s[|s| - 1]];
      assert UnitShape(s, serial, s[|s| - 1]);
    }
    forall serial, unit | UnitShape(s, serial, unit) ensures CnUnit(s) == Some(unit) {
      assert s[1..|s| - 1] == serial;
    }
  }

  /** Exactly these shapes are recognised. */
  lemma RecognisedExactly(s: string)
    ensures Recognised(s) <==>
            || (exists parts :: NumberShape(s, parts))
            || (exists parts :: AnnexShape(s, parts))
            || (exists serial, unit :: UnitShape(s, serial, unit))
            || (exists name :: AppendixShape(s, name))
  {
    NumericExactly(s);
    AnnexExactly(s);
    AppendixExactly(s);
    UnitExactly(s);
    assert IsCnClause(s) <==> CnUnit(s).Some?;
    hide IsNumeric, IsAnnex, IsAppendix, IsCnClause, NumberShape, AnnexShape, AppendixShape, UnitShape;
  }

  // ---------- depths ----------

  function UnitRank(unit: char): nat {
    if unit == '\U{7AE0}' then 1 else if unit == '\U{8282}' then 2 else if unit == '\U{6761}' then 3 else 4
  }

  /** What the text of an id says about its depth. */
  ghost predicate LiesAt(id: string, depth: nat) {
    || (exists parts :: (NumberShape(id, parts) || AnnexShape(id, parts)) && depth == |parts|)
    || (exists serial, unit :: UnitShape(id, serial, unit) && depth == UnitRank(unit))
    || (depth == 1 && exists name :: AppendixShape(id, name))
    || (depth == 1 && !Recognised(id))
  }

  lemma AppendixIsNothingElse(s: string, name: string)
    requires AppendixShape(s, name)
    ensures !IsNumeric(s) && !IsAnnex(s) && CnUnit(s).None?
  {
    assert forall c :: c in s ==> c == s[0] || c == s[1] || c in name;
    SplitOne(s);
    assert s in Split(s) && s[0] in s;
  }

  /** The four recognisers exclude each other. */
  lemma OneShapeOnly(id: string)
    ensures IsNumeric(id) ==> !IsAnnex(id) && !IsAppendix(id) && CnUnit(id).None?
    ensures IsAnnex(id) ==> !IsAppendix(id) && CnUnit(id).None?
    ensures IsAppendix(id) ==> CnUnit(id).None?
  {
    AppendixExactly(id);
    if IsAppendix(id) {
      var name :| AppendixShape(id, name);
      AppendixIsNothingElse(id, name);
    }
    if CnUnit(id).Some? {
      CnIsNothingElse(id);
    }
    NumericNotAnnex(id);
    hide AppendixShape, IsNumeric, IsAnnex;
  }

  lemma NumericNotAnnex(id: string)
    ensures !IsNumeric(id) || !IsAnnex(id)
  {
    if AnnexHead(Split(id)[0]) {
      HeadNotDigits(Split(id)[0]);
    }
    hide AnnexHead, Digits;
    assert Split(id)[0] in Split(id);
  }

  lemma DepthIsShown(id: string)
    ensures LiesAt(id, Depth(id))
  {
    NumericExactly(id);
    AnnexExactly(id);
    AppendixExactly(id);
    UnitExactly(id);
    assert CnUnit(id).None? ==> !IsCnClause(id);
    hide NumberShape, AnnexShape, AppendixShape, UnitShape, IsNumeric, IsAnnex, IsAppendix, IsCnClause, CnUnit;
  }

  lemma DepthIsShownOnce(id: string, d: nat)
    requires LiesAt(id, d)
    ensures d == Depth(id)
  {
    OneShapeOnly(id);
    NumericExactly(id);
    AnnexExactly(id);
    AppendixExactly(id);
    UnitExactly(id);
    assert CnUnit(id).None? ==> !IsCnClause(id);
    hide NumberShape, AnnexShape, AppendixShape, UnitShape, IsNumeric, IsAnnex, IsAppendix, IsCnClause, CnUnit;
    if parts :| (NumberShape(id, parts) || AnnexShape(id, parts)) && d == |parts| {
      assert parts == Split(id);
    } else if serial, unit :| UnitShape(id, serial, unit) && d == UnitRank(unit) {
      assert CnUnit(id) == Some(unit);
    }
  }

  /** Every id lies where its text says. */
  lemma DepthByShape(id: string)
    ensures forall d: nat :: LiesAt(id, d) <==> d == Depth(id)
  {
    hide LiesAt, Depth;
    DepthIsShown(id);
    forall d: nat | LiesAt(id, d) ensures d == Depth(id) {
      DepthIsShownOnce(id, d);
    }
  }

  // ---------- parents ----------

  /** The id at `k` is the longest dotted prefix of `id` among the earlier ids. */
  ghost predicate LongestAt(earlier: seq<string>, parts: seq<string>, k: nat) {
    && 1 <= k < |parts| && Join(parts[..k]) in earlier
    && forall j :: k < j < |parts| ==> Join(parts[..j]) !in earlier
  }

  /** No dotted prefix of `id` is among the earlier ids. */
  ghost predicate NoPrefix(earlier: seq<string>, parts: seq<string>) {
    forall j :: 1 <= j < |parts| ==> Join(parts[..j]) !in earlier
  }

  /** Ids whose prefixes count: numbers of two parts or more, and annexes of three or more. */
  ghost predicate CutAtDots(id: string, parts: seq<string>) {
    |parts| >= 2 && (NumberShape(id, parts) || (AnnexShape(id, parts) && |parts| >= 3))
  }

  lemma CutsExactly(id: string)
    ensures HasPrefixes(id) <==> CutAtDots(id, Split(id))
    ensures forall parts :: CutAtDots(id, parts) ==> parts == Split(id)
  {
    NumericExactly(id);
    AnnexExactly(id);
    hide NumberShape, AnnexShape, IsNumeric, IsAnnex, Split;
  }

  /** A number or annex hangs under its longest prefix among the earlier ids. */
  lemma HangsUnderPrefix(earlier: seq<string>, id: string, parts: seq<string>, k: nat)
    requires CutAtDots(id, parts) && LongestAt(earlier, parts, k)
    ensures ParentOf(earlier, id) == Some(Join(parts[..k]))
  {
    CutsExactly(id);
    hide CutAtDots, ParentOf, HasPrefixes, Split, Join;
    PrefixRule(earlier, id, k);
  }

  ghost predicate IsUnitOf(id: string, unit: char) {
    exists serial :: UnitShape(id, serial, unit)
  }

  /**
   * The id at `k` is a Chinese unit of the kind next above `unit` that occurs at all among the earlier ids, and the
   * last one of that kind.
   */
  ghost predicate NextUnitAbove(earlier: seq<string>, unit: char, k: nat) {
    && k < |earlier|
    && exists above :: IsUnitOf(earlier[k], above) && UnitRank(above) < UnitRank(unit) &&
         forall j, other :: 0 <= j < |earlier| && IsUnitOf(earlier[j], other) && UnitRank(other) < UnitRank(unit) ==>
           UnitRank(other) < UnitRank(above) || (other == above && j <= k)
  }

  lemma UnitIs(id: string)
    ensures forall unit :: CnUnit(id) == Some(unit) <==> IsUnitOf(id, unit)
    ensures CnUnit(id).Some? ==> !HasPrefixes(id)
  {
    UnitExactly(id);
    if CnUnit(id).Some? { CnIsNothingElse(id); }
    hide UnitShape, IsCnClause, IsNumeric, IsAnnex;
  }

  lemma {:induction false} LastOfUnitIs(ids: seq<string>, unit: char, k: nat)
    requires k < |ids| && CnUnit(ids[k]) == Some(unit)
    requires forall j :: k < j < |ids| ==> CnUnit(ids[j]) != Some(unit)
    ensures LastOfUnit(ids, unit) == Some(ids[k])
  {
    hide CnUnit;
    if k < |ids| - 1 {
      LastOfUnitIs(ids[..|ids| - 1], unit, k);
    }
  }

  lemma {:induction false} NoUnitNoLast(ids: seq<string>, unit: char)
    requires forall j :: 0 <= j < |ids| ==> CnUnit(ids[j]) != Some(unit)
    ensures LastOfUnit(ids, unit) == None
  {
    hide CnUnit;
    if ids != [] {
      NoUnitNoLast(ids[..|ids| - 1], unit);
    }
  }

  lemma UnitParent(earlier: seq<string>, unit: char, above: char)
    requires IsUnit(unit) && IsUnit(above) && UnitRank(above) < UnitRank(unit) && LastOfUnit(earlier, above).Some?
    requires forall u :: UnitRank(above) < UnitRank(u) < UnitRank(unit) && IsUnit(u) ==> LastOfUnit(earlier, u) == None
    ensures CnParent(earlier, Some(unit)) == LastOfUnit(earlier, above)
  {
    assert IsUnit(CHAPTER) && IsUnit(SECTION) && IsUnit(ARTICLE);
    hide LastOfUnit;
  }

  /** A Chinese unit hangs under the last one of the next higher kind that occurs. */
  lemma HangsUnderUnit(earlier: seq<string>, id: string, unit: char, k: nat)
    requires IsUnitOf(id, unit) && NextUnitAbove(earlier, unit, k)
    ensures ParentOf(earlier, id) == Some(earlier[k])
  {
    UnitIs(id);
    forall j | 0 <= j < |earlier| ensures forall u :: CnUnit(earlier[j]) == Some(u) <==> IsUnitOf(earlier[j], u) {
      UnitIs(earlier[j]);
    }
    hide UnitShape, IsUnitOf, CnUnit, HasPrefixes, LastOfUnit, Nearest, CnParent;
    var above :| IsUnitOf(earlier[k], above) && UnitRank(above) < UnitRank(unit) &&
      forall j, other :: 0 <= j < |earlier| && IsUnitOf(earlier[j], other) && UnitRank(other) < UnitRank(unit) ==>
           UnitRank(other) < UnitRank(above) || (other == above && j <= k);
    LastOfUnitIs(earlier, above, k);
    forall u | UnitRank(above) < UnitRank(u) < UnitRank(unit) && IsUnit(u) ensures LastOfUnit(earlier, u) == None {
      NoUnitNoLast(earlier, u);
    }
    UnitParent(earlier, unit, above);
  }

  /** No earlier id from position `k` on lies less deep than `depth`. */
  ghost predicate NoneAbove(earlier: seq<string>, depth: nat, k: int) {
    forall j, d: nat :: k <= j < |earlier| && 0 <= j && LiesAt(earlier[j], d) ==> d >= depth
  }

  /** The id at `k` is the nearest earlier one that lies less deep than `depth`. */
  ghost predicate NearestAbove(earlier: seq<string>, depth: nat, k: nat) {
    && k < |earlier| && (exists d: nat :: LiesAt(earlier[k], d) && d < depth)
    && NoneAbove(earlier, depth, k + 1)
  }

  /** Neither a prefix nor a unit of a higher kind is among the earlier ids. */
  ghost predicate NoRuleApplies(earlier: seq<string>, id: string) {
    && (forall parts :: CutAtDots(id, parts) ==> NoPrefix(earlier, parts))
    && (forall unit, above, j :: IsUnitOf(id, unit) && 0 <= j < |earlier| && IsUnitOf(earlier[j], above) ==>
          UnitRank(above) >= UnitRank(unit))
  }

  lemma NoPrefixFound(earlier: seq<string>, id: string)
    requires forall parts :: CutAtDots(id, parts) ==> NoPrefix(earlier, parts)
    ensures FindNumericParent(id, set x | x in earlier) == None
  {
    CutsExactly(id);
    hide CutAtDots, HasPrefixes, Split, Join;
  }

  lemma NoUnitFound(earlier: seq<string>, id: string)
    requires forall unit, above, j ::
               IsUnitOf(id, unit) && 0 <= j < |earlier| && IsUnitOf(earlier[j], above) ==>
               UnitRank(above) >= UnitRank(unit)
    ensures CnParent(earlier, CnUnit(id)) == None
  {
    forall x ensures forall u :: CnUnit(x) == Some(u) <==> IsUnitOf(x, u) { UnitIs(x); }
    hide IsUnitOf, CnUnit, LastOfUnit;
    if CnUnit(id).Some? {
      forall above | UnitRank(above) < UnitRank(CnUnit(id).value) ensures LastOfUnit(earlier, above) == None {
        NoUnitNoLast(earlier, above);
      }
    }
  }

  lemma {:induction false} NearestIs(ids: seq<string>, depth: nat, k: nat)
    requires k < |ids| && Depth(ids[k]) < depth && forall j :: k < j < |ids| ==> Depth(ids[j]) >= depth
    ensures NearestAt(ids, depth) == Some(k)
  {
    hide Depth;
    if k < |ids| - 1 {
      NearestIs(ids[..|ids| - 1], depth, k);
    }
  }

  lemma NearestDecides(earlier: seq<string>, id: string)
    requires NoRuleApplies(earlier, id)
    ensures ParentOf(earlier, id) == Nearest(earlier, Depth(id))
  {
    NoPrefixFound(earlier, id);
    NoUnitFound(earlier, id);
    hide Depth, FindNumericParent, CnParent, CnUnit, Nearest;
  }

  lemma NoneAboveMeans(earlier: seq<string>, depth: nat, k: int)
    ensures NoneAbove(earlier, depth, k) <==>
            forall j :: k <= j < |earlier| && 0 <= j ==> Depth(earlier[j]) >= depth
  {
    forall j | 0 <= j < |earlier| ensures forall d: nat :: LiesAt(earlier[j], d) <==> d == Depth(earlier[j]) {
      DepthByShape(earlier[j]);
    }
    hide LiesAt, Depth;
    if NoneAbove(earlier, depth, k) {
      forall j | k <= j < |earlier| && 0 <= j ensures Depth(earlier[j]) >= depth {
        assert LiesAt(earlier[j], Depth(earlier[j]));
      }
    }
  }

  /** An id neither rule places hangs under the nearest earlier id that lies less deep, and else under none. */
  lemma HangsUnderNearest(earlier: seq<string>, id: string, depth: nat)
    requires NoRuleApplies(earlier, id) && LiesAt(id, depth)
    ensures forall k: nat :: NearestAbove(earlier, depth, k) ==> ParentOf(earlier, id) == Some(earlier[k])
    ensures NoneAbove(earlier, depth, 0) ==> ParentOf(earlier, id) == None
  {
    NearestDecides(earlier, id);
    DepthByShape(id);
    NearestMeans(earlier, depth);
    NoneAboveMeans(earlier, depth, 0);
    hide NoRuleApplies, LiesAt, Depth, ParentOf, NearestAt, NoneAbove;
    forall k: nat | NearestAbove(earlier, depth, k) ensures ParentOf(earlier, id) == Some(earlier[k]) {
      DepthByShape(earlier[k]);
      NoneAboveMeans(earlier, depth, k + 1);
      NearestIs(earlier, depth, k);
    }
  }

  /** What lies at the top has no parent, whatever came before it. */
  lemma TopHasNoParent(earlier: seq<string>, id: string)
    requires LiesAt(id, 1)
    ensures ParentOf(earlier, id) == None
  {
    DepthByShape(id);
    hide ParentOf, LiesAt, Depth;
    ParentIsEarlierAndHigher(earlier, id);
  }

  /** Appendices, chapters, and numbers of one part. */
  ghost predicate AtTheTop(id: string) {
    || (exists name :: AppendixShape(id, name))
    || (exists serial :: UnitShape(id, serial, '\U{7AE0}'))
    || DigitsOnly(id)
  }

  lemma TopLiesAtOne(id: string)
    requires AtTheTop(id)
    ensures LiesAt(id, 1)
  {
    if DigitsOnly(id) {
      assert NumberShape(id, [id]);
    }
    hide AppendixShape, UnitShape, DigitsOnly;
  }

  /** In the tree of a norm every node lies where its id says, and every appendix and every chapter is a root. */
  lemma TopNodesAreRoots(ordered: seq<Section>, tree: Tree)
    requires IsTreeOf(ordered, tree)
    ensures forall n :: n in tree.nodes ==> LiesAt(n.id, n.depth)
    ensures forall n :: n in tree.nodes && AtTheTop(n.id) ==> n.parent == None && n.id in tree.roots
  {
    var ids, nodes :|
      ids == Dedup(SectionIds(ordered)) && NodesOk(ordered, ids, nodes) && Holds(tree, ids, nodes);
    forall n | n in tree.nodes
      ensures LiesAt(n.id, n.depth) && (AtTheTop(n.id) ==> n.parent == None && n.id in tree.roots)
    {
      var i: nat :| i < |tree.nodes| && tree.nodes[i] == n;
      assert NodeOk(ordered, ids, i, n);
      hide NodesOk, LiesAt, AtTheTop, Introduces, ParentOf, Hanging;
      DepthByShape(n.id);
      if AtTheTop(n.id) {
        TopLiesAtOne(n.id);
        TopHasNoParent(ids[..i], n.id);
        ParentlessIsRoot(ids, nodes, i);
      }
    }
  }

  lemma {:induction false} ParentlessIsRoot(ids: seq<string>, nodes: map<string, Node>, i: nat)
    requires (forall id :: id in ids ==> id in nodes) && i < |ids| && ids[i] in nodes && nodes[ids[i]].parent == None
    ensures ids[i] in Hanging(ids, nodes, None)
  {
    if i < |ids| - 1 {
      ParentlessIsRoot(ids[..|ids| - 1], nodes, i);
    }
  }

  /** A node bears the trimmed title of the first section with its id, or the id, and that section's place. */
  ghost predicate Describes(ordered: seq<Section>, k: nat, n: Node) {
    && k < |ordered| && NormalizeClauseId(ordered[k].sectionNo, k + 1) == n.id
    && (forall j: nat :: j < k ==> NormalizeClauseId(ordered[j].sectionNo, j + 1) != n.id)
    && n.page == ordered[k].page && n.line == ordered[k].line
    && (if Strip(ordered[k].title) == "" then n.title == n.id else n.title == Strip(ordered[k].title))
  }

  lemma IntroducedIsDescribed(ordered: seq<Section>, s: Section, id: string, parent: Option<string>)
    requires Introduces(ordered, s, id)
    ensures exists k: nat :: Describes(ordered, k, NodeFor(s, id, parent))
  {
    hide NormalizeClauseId, Strip, Depth;
    var k: nat :| k < |ordered| && ordered[k] == s && SectionIds(ordered)[k] == id &&
      forall j :: 0 <= j < k ==> SectionIds(ordered)[j] != id;
    assert forall j: nat :: j < k ==> NormalizeClauseId(ordered[j].sectionNo, j + 1) == SectionIds(ordered)[j];
    assert Describes(ordered, k, NodeFor(s, id, parent));
  }

  lemma NodesDescribeSections(ordered: seq<Section>, tree: Tree)
    requires IsTreeOf(ordered, tree)
    ensures forall n :: n in tree.nodes ==> exists k: nat :: Describes(ordered, k, n)
  {
    hide SectionIds, ParentOf, Hanging, NodeFor, Introduces, Describes, Dedup;
    var ids, nodes :|
      ids == Dedup(SectionIds(ordered)) && NodesOk(ordered, ids, nodes) && Holds(tree, ids, nodes);
    forall n | n in tree.nodes ensures exists k: nat :: Describes(ordered, k, n) {
      var i: nat :| i < |tree.nodes| && tree.nodes[i] == n;
      assert NodeOk(ordered, ids, i, n);
      var s :| Introduces(ordered, s, ids[i]) && n == NodeFor(s, ids[i], ParentOf(ids[..i], ids[i]));
      IntroducedIsDescribed(ordered, s, ids[i], ParentOf(ids[..i], ids[i]));
    }
  }

  /** The parent of a node is chosen among the ids of the nodes before it, which are those of the distinct sections. */
  lemma ParentsAreChosen(ordered: seq<Section>, tree: Tree, i: nat)
    requires IsTreeOf(ordered, tree) && i < |tree.nodes|
    ensures Ids(tree.nodes) == Dedup(SectionIds(ordered))
    ensures tree.nodes[i].parent == ParentOf(Ids(tree.nodes)[..i], tree.nodes[i].id)
  {
    hide SectionIds, ParentOf, Hanging, Introduces, Dedup;
    var ids, nodes :|
      ids == Dedup(SectionIds(ordered)) && NodesOk(ordered, ids, nodes) && Holds(tree, ids, nodes);
    forall j: nat | j < |ids| ensures tree.nodes[j].id == ids[j] {
      assert NodeOk(ordered, ids, j, tree.nodes[j]);
    }
    assert Ids(tree.nodes) == ids;
    assert NodeOk(ordered, ids, i, tree.nodes[i]);
  }
}
