/**
 * What the automatic review reports, read off the document alone: each issue with its exact condition, none twice, in a
 * fixed order, and a score that counts them.
 */
module ReviewMeaning {
  import opened Lists
  import opened Formulas
  import opened ReviewValidator

  // ---------- when an issue is due ----------

  ghost predicate Known(candidates: seq<string>, key: string -> string, text: string) {
    exists c :: c in candidates && key(c) == key(text)
  }

  ghost predicate PartMissing(r: Rule, part: RulePart)
    requires r.Rule?
  {
    match part
    case RuleField => r.field == ""
    case RuleOperator => r.operator == ""
    case RuleValue => !r.hasValue
    case RuleMessage => r.message == ""
  }

  /** What is wrong with the document at this place. */
  ghost predicate WrongAt(d: Spu, ctx: Context, confidence: real, field: Field) {
    match field
    case SpuIdField => d.spuId == ""
    case MetaField => d.name == "" || d.norm == "" || d.clause == "" || d.version == ""
    case InputsField => d.inputs == None || d.inputs == Some(0)
    case PathField => d.path == None || d.path == Some([])
    case RulesField => d.rules == None || d.rules == Some([])
    case ProofField => d.proof == None || d.proof == Some(0)
    case ClauseField => ctx.clauses != [] && (d.clause == "" || !Known(ctx.clauses, ctx.key, d.clause))
    case NormField => d.norm == "" || (ctx.norms != [] && !Known(ctx.norms, ctx.key, d.norm))
    case RuleAt(i) => d.rules.Some? && i < |d.rules.value| && d.rules.value[i] == RuleNotObject
    case RulePartAt(i, part) =>
      d.rules.Some? && i < |d.rules.value| && d.rules.value[i].Rule? && PartMissing(d.rules.value[i], part)
    case StepAt(i) => d.path.Some? && i < |d.path.value| && d.path.value[i] == StepNotObject
    case FormulaAt(i) =>
      d.path.Some? && i < |d.path.value| && d.path.value[i].Step? &&
      !ArithmeticText(d.path.value[i].formula, ctx.parse)
    case ConfidenceField => confidence < 0.9
  }

  function CodeAt(field: Field): Code {
    match field
    case SpuIdField => MissingMeta
    case MetaField => MissingMeta
    case InputsField => MissingMeta
    case ProofField => MissingMeta
    case PathField => MissingPath
    case RulesField => MissingRules
    case RuleAt(_) => MissingRules
    case RulePartAt(_, _) => MissingRules
    case ClauseField => ClauseMismatch
    case NormField => NormMismatch
    case StepAt(_) => InvalidFormula
    case FormulaAt(_) => InvalidFormula
    case ConfidenceField => LowConfidence
  }

  /** Only an unknown clause and a low confidence are mere warnings. */
  function LevelAt(d: Spu, field: Field): Level {
    if field == ConfidenceField || (field == ClauseField && d.clause != "") then WarningLevel else ErrorLevel
  }

  ghost predicate Due(d: Spu, ctx: Context, confidence: real, issue: Issue) {
    && issue.code == CodeAt(issue.field) && issue.level == LevelAt(d, issue.field)
    && WrongAt(d, ctx, confidence, issue.field)
  }

  // ---------- the order of the report ----------

  function Group(f: Field): nat {
    match f
    case SpuIdField => 0
    case MetaField => 1
    case InputsField => 2
    case PathField => 3
    case RulesField => 4
    case ProofField => 5
    case ClauseField => 6
    case NormField => 7
    case RuleAt(_) => 8
    case RulePartAt(_, _) => 8
    case StepAt(_) => 9
    case FormulaAt(_) => 9
    case ConfidenceField => 10
  }

  function Place(f: Field): nat {
    match f
    case RuleAt(i) => i
    case RulePartAt(i, _) => i
    case StepAt(i) => i
    case FormulaAt(i) => i
    case _ => 0
  }

  function PartRank(f: Field): nat {
    match f
    case RulePartAt(_, part) =>
      if part == RuleField then 0 else if part == RuleOperator then 1 else if part == RuleValue then 2 else 3
    case _ => 0
  }

  /** Section by section, item by item, part by part. */
  ghost predicate Earlier(f: Field, g: Field) {
    || Group(f) < Group(g)
    || (Group(f) == Group(g) && Place(f) < Place(g))
    || (Group(f) == Group(g) && Place(f) == Place(g) && PartRank(f) < PartRank(g))
  }

  ghost predicate InReportOrder(issues: seq<Issue>) {
    forall i, j :: 0 <= i < j < |issues| ==> Earlier(issues[i].field, issues[j].field)
  }

  lemma OrderConcat(a: seq<Issue>, b: seq<Issue>)
    requires InReportOrder(a) && InReportOrder(b)
    requires forall x, y :: x in a && y in b ==> Earlier(x.field, y.field)
    ensures InReportOrder(a + b)
  {
    hide Earlier;
    forall i, j | 0 <= i < j < |a + b| ensures Earlier((a + b)[i].field, (a + b)[j].field) {
      assert i < |a| ==> (a + b)[i] in a;
      assert j >= |a| ==> (a + b)[j] in b;
    }
  }

  /** The issues due in the sections from `lo` to `hi`. */
  ghost predicate Reports(issues: seq<Issue>, d: Spu, ctx: Context, confidence: real, lo: nat, hi: nat) {
    && InReportOrder(issues)
    && forall issue :: issue in issues <==> Due(d, ctx, confidence, issue) && lo <= Group(issue.field) < hi
  }

  lemma ReportsConcat(a: seq<Issue>, b: seq<Issue>, d: Spu, ctx: Context, confidence: real, lo: nat, mid: nat, hi: nat)
    requires lo <= mid <= hi && Reports(a, d, ctx, confidence, lo, mid) && Reports(b, d, ctx, confidence, mid, hi)
    ensures Reports(a + b, d, ctx, confidence, lo, hi)
  {
    hide Due, Group, Place, PartRank, InReportOrder;
    forall x, y | x in a && y in b ensures Earlier(x.field, y.field) {
    }
    OrderConcat(a, b);
  }

  /** The issues due at one of these places. */
  ghost predicate ReportsFields(issues: seq<Issue>, d: Spu, ctx: Context, confidence: real, fields: set<Field>) {
    && InReportOrder(issues)
    && forall issue :: issue in issues <==> Due(d, ctx, confidence, issue) && issue.field in fields
  }

  lemma FieldReported(condition: bool, issue: Issue, d: Spu, ctx: Context, confidence: real)
    requires condition <==> WrongAt(d, ctx, confidence, issue.field)
    requires issue.code == CodeAt(issue.field) && issue.level == LevelAt(d, issue.field)
    ensures ReportsFields(Raise(condition, issue), d, ctx, confidence, {issue.field})
  {
    hide WrongAt, CodeAt, LevelAt;
  }

  lemma FieldsConcat(a: seq<Issue>, b: seq<Issue>, d: Spu, ctx: Context, confidence: real,
                     fields: set<Field>, more: set<Field>)
    requires ReportsFields(a, d, ctx, confidence, fields) && ReportsFields(b, d, ctx, confidence, more)
    requires forall f, g :: f in fields && g in more ==> Earlier(f, g)
    ensures ReportsFields(a + b, d, ctx, confidence, fields + more)
  {
    hide Due, Earlier, InReportOrder;
    OrderConcat(a, b);
  }

  lemma IdentityReports(d: Spu, ctx: Context, confidence: real)
    ensures Reports(IdentityIssues(d), d, ctx, confidence, 0, 3)
  {
    var a := Raise(d.spuId == "", Issue(MissingMeta, ErrorLevel, SpuIdField));
    var b := Raise(MetaMissing(d), Issue(MissingMeta, ErrorLevel, MetaField));
    var c := Raise(d.inputs.None? || d.inputs.value == 0, Issue(MissingMeta, ErrorLevel, InputsField));
    FieldReported(d.spuId == "", Issue(MissingMeta, ErrorLevel, SpuIdField), d, ctx, confidence);
    FieldReported(MetaMissing(d), Issue(MissingMeta, ErrorLevel, MetaField), d, ctx, confidence);
    FieldReported(d.inputs.None? || d.inputs.value == 0, Issue(MissingMeta, ErrorLevel, InputsField), d, ctx,
                  confidence);
    hide Raise, ReportsFields, WrongAt;
    FieldsConcat(a, b, d, ctx, confidence, {SpuIdField}, {MetaField});
    FieldsConcat(a + b, c, d, ctx, confidence, {SpuIdField} + {MetaField}, {InputsField});
    FieldsAreSection(a + b + c, d, ctx, confidence, {SpuIdField} + {MetaField} + {InputsField}, 0, 3);
  }

  lemma FieldsAreSection(issues: seq<Issue>, d: Spu, ctx: Context, confidence: real, fields: set<Field>,
                         lo: nat, hi: nat)
    requires ReportsFields(issues, d, ctx, confidence, fields)
    requires forall f :: f in fields <==> lo <= Group(f) < hi
    ensures Reports(issues, d, ctx, confidence, lo, hi)
  {
    hide Due, Group, InReportOrder;
  }

  lemma PartReports(d: Spu, ctx: Context, confidence: real)
    ensures Reports(PartIssues(d), d, ctx, confidence, 3, 6)
  {
    var a := Raise(d.path.None? || d.path.value == [], Issue(MissingPath, ErrorLevel, PathField));
    var b := Raise(d.rules.None? || d.rules.value == [], Issue(MissingRules, ErrorLevel, RulesField));
    var c := Raise(d.proof.None? || d.proof.value == 0, Issue(MissingMeta, ErrorLevel, ProofField));
    FieldReported(d.path.None? || d.path.value == [], Issue(MissingPath, ErrorLevel, PathField), d, ctx, confidence);
    FieldReported(d.rules.None? || d.rules.value == [], Issue(MissingRules, ErrorLevel, RulesField), d, ctx,
                  confidence);
    FieldReported(d.proof.None? || d.proof.value == 0, Issue(MissingMeta, ErrorLevel, ProofField), d, ctx,
                  confidence);
    hide Raise, ReportsFields, WrongAt;
    FieldsConcat(a, b, d, ctx, confidence, {PathField}, {RulesField});
    FieldsConcat(a + b, c, d, ctx, confidence, {PathField} + {RulesField}, {ProofField});
    FieldsAreSection(a + b + c, d, ctx, confidence, {PathField} + {RulesField} + {ProofField}, 3, 6);
  }

  lemma MatchReports(d: Spu, ctx: Context, confidence: real)
    ensures Reports(ClauseIssues(d, ctx), d, ctx, confidence, 6, 7)
    ensures Reports(NormIssues(d, ctx), d, ctx, confidence, 7, 8)
  {
    assert HasKey(ctx.clauses, ctx.key, d.clause) <==> Known(ctx.clauses, ctx.key, d.clause);
    assert HasKey(ctx.norms, ctx.key, d.norm) <==> Known(ctx.norms, ctx.key, d.norm);
    hide HasKey, Known;
  }

  lemma ConfidenceReports(d: Spu, ctx: Context, confidence: real)
    ensures Reports(ConfidenceIssues(confidence), d, ctx, confidence, 10, 11)
  {
  }

  // ---------- rules and steps ----------

  /** The issues due for the first `n` items of a section. */
  ghost predicate ReportsItems(issues: seq<Issue>, d: Spu, ctx: Context, confidence: real, group: nat, n: nat) {
    && InReportOrder(issues)
    && forall issue :: issue in issues <==>
         Due(d, ctx, confidence, issue) && Group(issue.field) == group && Place(issue.field) < n
  }

  /** The issues due for the item at `n`. */
  ghost predicate ReportsItem(issues: seq<Issue>, d: Spu, ctx: Context, confidence: real, group: nat, n: nat) {
    && InReportOrder(issues)
    && forall issue :: issue in issues <==>
         Due(d, ctx, confidence, issue) && Group(issue.field) == group && Place(issue.field) == n
  }

  lemma ItemsConcat(a: seq<Issue>, b: seq<Issue>, d: Spu, ctx: Context, confidence: real, group: nat, n: nat)
    requires ReportsItems(a, d, ctx, confidence, group, n) && ReportsItem(b, d, ctx, confidence, group, n)
    ensures ReportsItems(a + b, d, ctx, confidence, group, n + 1)
  {
    hide Due, Group, Place, PartRank, InReportOrder;
    forall x, y | x in a && y in b ensures Earlier(x.field, y.field) {
    }
    OrderConcat(a, b);
  }

  lemma PartReported(d: Spu, ctx: Context, confidence: real, i: nat, part: RulePart)
    requires d.rules.Some? && i < |d.rules.value| && d.rules.value[i].Rule?
    ensures ReportsFields(Raise(PartMissing(d.rules.value[i], part),
                                Issue(MissingRules, ErrorLevel, RulePartAt(i, part))),
                          d, ctx, confidence, {RulePartAt(i, part)})
  {
    var issue := Issue(MissingRules, ErrorLevel, RulePartAt(i, part));
    FieldReported(PartMissing(d.rules.value[i], part), issue, d, ctx, confidence);
  }

  lemma FieldsAreItem(issues: seq<Issue>, d: Spu, ctx: Context, confidence: real, fields: set<Field>,
                      group: nat, n: nat)
    requires ReportsFields(issues, d, ctx, confidence, fields)
    requires forall f :: f in fields ==> Group(f) == group && Place(f) == n
    requires forall f :: Group(f) == group && Place(f) == n && WrongAt(d, ctx, confidence, f) ==> f in fields
    ensures ReportsItem(issues, d, ctx, confidence, group, n)
  {
    hide WrongAt, Group, Place, InReportOrder;
  }

  lemma PlacesOfParts(i: nat)
    ensures forall part :: Group(RulePartAt(i, part)) == 8 && Place(RulePartAt(i, part)) == i
    ensures Earlier(RulePartAt(i, RuleField), RulePartAt(i, RuleOperator))
    ensures Earlier(RulePartAt(i, RuleField), RulePartAt(i, RuleValue))
    ensures Earlier(RulePartAt(i, RuleOperator), RulePartAt(i, RuleValue))
    ensures forall part :: part != RuleMessage ==> Earlier(RulePartAt(i, part), RulePartAt(i, RuleMessage))
  {
  }

  lemma OnlyParts(d: Spu, ctx: Context, confidence: real, i: nat, f: Field)
    requires d.rules.Some? && i < |d.rules.value| && d.rules.value[i].Rule?
    requires Group(f) == 8 && Place(f) == i && WrongAt(d, ctx, confidence, f)
    ensures exists part :: f == RulePartAt(i, part)
  {
  }

  lemma PartsReported(d: Spu, ctx: Context, confidence: real, i: nat)
    requires d.rules.Some? && i < |d.rules.value| && d.rules.value[i].Rule?
    ensures ReportsItem(RuleIssues(d.rules.value[i], i), d, ctx, confidence, 8, i)
  {
    hide Raise, ReportsFields, ReportsItem, WrongAt, Group, Place, Earlier;
    var r := d.rules.value[i];
    var f1, f2 := RulePartAt(i, RuleField), RulePartAt(i, RuleOperator);
    var f3, f4 := RulePartAt(i, RuleValue), RulePartAt(i, RuleMessage);
    PlacesOfParts(i);
    PartReported(d, ctx, confidence, i, RuleField);
    PartReported(d, ctx, confidence, i, RuleOperator);
    PartReported(d, ctx, confidence, i, RuleValue);
    PartReported(d, ctx, confidence, i, RuleMessage);
    var a := Raise(r.field == "", Issue(MissingRules, ErrorLevel, f1));
    var b := Raise(r.operator == "", Issue(MissingRules, ErrorLevel, f2));
    var c := Raise(!r.hasValue, Issue(MissingRules, ErrorLevel, f3));
    var e := Raise(r.message == "", Issue(MissingRules, ErrorLevel, f4));
    FieldsConcat(a, b, d, ctx, confidence, {f1}, {f2});
    FieldsConcat(a + b, c, d, ctx, confidence, {f1} + {f2}, {f3});
    FieldsConcat(a + b + c, e, d, ctx, confidence, {f1} + {f2} + {f3}, {f4});
    forall f | Group(f) == 8 && Place(f) == i && WrongAt(d, ctx, confidence, f)
      ensures f in {f1} + {f2} + {f3} + {f4}
    {
      OnlyParts(d, ctx, confidence, i, f);
    }
    FieldsAreItem(a + b + c + e, d, ctx, confidence, {f1} + {f2} + {f3} + {f4}, 8, i);
  }

  lemma RuleReports(d: Spu, ctx: Context, confidence: real, i: nat)
    requires d.rules.Some? && i < |d.rules.value|
    ensures ReportsItem(RuleIssues(d.rules.value[i], i), d, ctx, confidence, 8, i)
  {
    if d.rules.value[i].Rule? {
      PartsReported(d, ctx, confidence, i);
    } else {
      var issue := Issue(MissingRules, ErrorLevel, RuleAt(i));
      FieldReported(true, issue, d, ctx, confidence);
      assert RuleIssues(d.rules.value[i], i) == Raise(true, issue);
      hide Raise, ReportsFields, ReportsItem, RuleIssues;
      FieldsAreItem(Raise(true, issue), d, ctx, confidence, {RuleAt(i)}, 8, i);
    }
  }

  lemma {:induction false} RulesReport(d: Spu, ctx: Context, confidence: real, n: nat)
    requires d.rules.Some? && n <= |d.rules.value|
    ensures ReportsItems(RulesIssues(d.rules.value[..n]), d, ctx, confidence, 8, n)
  {
    hide ReportsItem, ReportsItems, RulesIssues, RuleIssues;
    if n == 0 {
      NothingReported(d, ctx, confidence, 8);
      NoRulesNoIssues();
    } else {
      RulesReport(d, ctx, confidence, n - 1);
      RuleReports(d, ctx, confidence, n - 1);
      RulesStep(d.rules.value, n - 1);
      ItemsConcat(RulesIssues(d.rules.value[..n - 1]), RuleIssues(d.rules.value[n - 1], n - 1), d, ctx, confidence, 8,
                  n - 1);
    }
  }

  lemma NothingReported(d: Spu, ctx: Context, confidence: real, group: nat)
    ensures ReportsItems([], d, ctx, confidence, group, 0)
  {
  }

  lemma StepReports(d: Spu, ctx: Context, confidence: real, i: nat)
    requires d.path.Some? && i < |d.path.value|
    ensures ReportsItem(StepIssues(d.path.value[i], i, ctx.parse), d, ctx, confidence, 9, i)
  {
    hide ArithmeticText;
  }

  lemma {:induction false} PathReports(d: Spu, ctx: Context, confidence: real, n: nat)
    requires d.path.Some? && n <= |d.path.value|
    ensures ReportsItems(PathIssues(d.path.value[..n], ctx.parse), d, ctx, confidence, 9, n)
  {
    hide ReportsItem, ReportsItems, PathIssues, StepIssues;
    if n == 0 {
      NothingReported(d, ctx, confidence, 9);
      NoPathNoIssues(ctx.parse);
    } else {
      PathReports(d, ctx, confidence, n - 1);
      StepReports(d, ctx, confidence, n - 1);
      PathStep(d.path.value, ctx.parse, n - 1);
      ItemsConcat(PathIssues(d.path.value[..n - 1], ctx.parse), StepIssues(d.path.value[n - 1], n - 1, ctx.parse),
                  d, ctx, confidence, 9, n - 1);
    }
  }

  /** All items of a section are its whole section. */
  lemma ItemsReport(issues: seq<Issue>, d: Spu, ctx: Context, confidence: real, group: nat, n: nat)
    requires ReportsItems(issues, d, ctx, confidence, group, n)
    requires forall f: Field :: Group(f) == group && WrongAt(d, ctx, confidence, f) ==> Place(f) < n
    ensures Reports(issues, d, ctx, confidence, group, group + 1)
  {
    hide Group, Place, WrongAt, InReportOrder;
  }

  lemma RulesSection(d: Spu, ctx: Context, confidence: real)
    ensures Reports(RulesIssues(OrEmpty(d.rules)), d, ctx, confidence, 8, 9)
  {
    NoRulesNoIssues();
    hide RulesIssues, ReportsItems, Reports;
    if d.rules.Some? {
      var n := |d.rules.value|;
      RulesReport(d, ctx, confidence, n);
      assert d.rules.value[..n] == d.rules.value;
      ItemsReport(RulesIssues(d.rules.value), d, ctx, confidence, 8, n);
    } else {
      NothingReported(d, ctx, confidence, 8);
      ItemsReport([], d, ctx, confidence, 8, 0);
    }
  }

  lemma PathSection(d: Spu, ctx: Context, confidence: real)
    ensures Reports(PathIssues(OrEmpty(d.path), ctx.parse), d, ctx, confidence, 9, 10)
  {
    NoPathNoIssues(ctx.parse);
    hide PathIssues, ReportsItems, Reports, ArithmeticText;
    if d.path.Some? {
      var n := |d.path.value|;
      PathReports(d, ctx, confidence, n);
      assert d.path.value[..n] == d.path.value;
      ItemsReport(PathIssues(d.path.value, ctx.parse), d, ctx, confidence, 9, n);
    } else {
      NothingReported(d, ctx, confidence, 9);
      ItemsReport([], d, ctx, confidence, 9, 0);
    }
  }

  // ---------- the report as a whole ----------

  /** The report lists exactly the issues that are due, each once, in a fixed order. */
  lemma ReportsExactly(d: Spu, ctx: Context, confidence: real)
    ensures var issues := AllIssues(d, ctx, confidence);
            && (forall issue :: issue in issues <==> Due(d, ctx, confidence, issue))
            && InReportOrder(issues) && NoDup(issues)
  {
    IdentityReports(d, ctx, confidence);
    PartReports(d, ctx, confidence);
    MatchReports(d, ctx, confidence);
    RulesSection(d, ctx, confidence);
    PathSection(d, ctx, confidence);
    ConfidenceReports(d, ctx, confidence);
    hide IdentityIssues, PartIssues, ClauseIssues, NormIssues, RulesIssues, PathIssues, ConfidenceIssues, Reports;
    var a, b, c, e := IdentityIssues(d), PartIssues(d), ClauseIssues(d, ctx), NormIssues(d, ctx);
    var f, g, h := RulesIssues(OrEmpty(d.rules)), PathIssues(OrEmpty(d.path), ctx.parse), ConfidenceIssues(confidence);
    ReportsConcat(a, b, d, ctx, confidence, 0, 3, 6);
    ReportsConcat(a + b, c, d, ctx, confidence, 0, 6, 7);
    ReportsConcat(a + b + c, e, d, ctx, confidence, 0, 7, 8);
    ReportsConcat(a + b + c + e, f, d, ctx, confidence, 0, 8, 9);
    ReportsConcat(a + b + c + e + f, g, d, ctx, confidence, 0, 9, 10);
    ReportsConcat(a + b + c + e + f + g, h, d, ctx, confidence, 0, 10, 11);
    WholeReport(AllIssues(d, ctx, confidence), d, ctx, confidence);
  }

  lemma WholeReport(issues: seq<Issue>, d: Spu, ctx: Context, confidence: real)
    requires Reports(issues, d, ctx, confidence, 0, 11)
    ensures forall issue :: issue in issues <==> Due(d, ctx, confidence, issue)
    ensures InReportOrder(issues) && NoDup(issues)
  {
    hide Due;
  }

  // ---------- the score ----------

  ghost function OfLevel(issues: seq<Issue>, level: Level): set<Issue> {
    set issue | issue in issues && issue.level == level
  }

  lemma OfLevelSnoc(front: seq<Issue>, last: Issue, level: Level)
    requires last !in front
    ensures |OfLevel(front + [last], level)| == |OfLevel(front, level)| + if last.level == level then 1 else 0
  {
    var all := OfLevel(front + [last], level);
    if last.level == level {
      assert all == OfLevel(front, level) + {last};
    } else {
      assert all == OfLevel(front, level);
    }
  }

  lemma {:induction false} CountIsCard(issues: seq<Issue>, level: Level)
    requires NoDup(issues)
    ensures Count(issues, level) == |OfLevel(issues, level)|
  {
    if issues != [] {
      hide OfLevel;
      var n := |issues| - 1;
      assert issues == issues[..n] + [issues[n]];
      CountIsCard(issues[..n], level);
      OfLevelSnoc(issues[..n], issues[n], level);
    } else {
      assert OfLevel(issues, level) == {};
    }
  }

  lemma NoneOfLevel(issues: seq<Issue>, level: Level)
    ensures |OfLevel(issues, level)| == 0 <==> forall issue :: issue in issues ==> issue.level != level
  {
    if issue :| issue in issues && issue.level == level {
      assert issue in OfLevel(issues, level);
    } else {
      assert OfLevel(issues, level) == {};
    }
  }

  /** The review passes without an error and with enough confidence; the score pays for each error and warning. */
  lemma ReviewMeans(d: Spu, ctx: Context, confidence: real)
    ensures var review := ReviewOf(AllIssues(d, ctx, confidence), confidence);
            var errors, warnings := |OfLevel(review.issues, ErrorLevel)|, |OfLevel(review.issues, WarningLevel)|;
            var rest := 1.0 - 0.2 * errors as real - 0.08 * warnings as real;
            && (review.passed <==>
                  confidence >= 0.9 && forall issue :: issue in review.issues ==> issue.level != ErrorLevel)
            && review.status == (if review.passed then AutoValidated else NeedsReview)
            && review.score == (if rest > 0.0 then rest else 0.0)
  {
    ReportsExactly(d, ctx, confidence);
    hide AllIssues, Due, InReportOrder, Count, OfLevel, NoDup;
    var issues := AllIssues(d, ctx, confidence);
    CountIsCard(issues, ErrorLevel);
    CountIsCard(issues, WarningLevel);
    NoneOfLevel(issues, ErrorLevel);
  }

  lemma TwoWarnings(issues: seq<Issue>, a: Issue, b: Issue)
    requires a != b && a.level == b.level == WarningLevel
    requires forall issue :: issue in issues ==> issue == a || issue == b
    ensures |OfLevel(issues, ErrorLevel)| == 0
    ensures |OfLevel(issues, WarningLevel)| == (if a in issues then 1 else 0) + (if b in issues then 1 else 0)
  {
    NoneOfLevel(issues, ErrorLevel);
    var warnings := OfLevel(issues, WarningLevel);
    if a in issues && b in issues {
      assert warnings == {a, b};
    } else if a in issues {
      assert warnings == {a};
    } else if b in issues {
      assert warnings == {b};
    } else {
      assert warnings == {};
    }
  }

  const UNKNOWN_CLAUSE := Issue(ClauseMismatch, WarningLevel, ClauseField)
  const LOW_CONFIDENCE := Issue(LowConfidence, WarningLevel, ConfidenceField)

  lemma DueWithoutErrors(d: Spu, ctx: Context, confidence: real)
    requires forall field :: WrongAt(d, ctx, confidence, field) ==> LevelAt(d, field) != ErrorLevel
    ensures forall issue :: Due(d, ctx, confidence, issue) ==> issue == UNKNOWN_CLAUSE || issue == LOW_CONFIDENCE
    ensures Due(d, ctx, confidence, UNKNOWN_CLAUSE) <==> ctx.clauses != [] && !Known(ctx.clauses, ctx.key, d.clause)
    ensures Due(d, ctx, confidence, LOW_CONFIDENCE) <==> confidence < 0.9
  {
    assert d.clause != "" by {
      assert !WrongAt(d, ctx, confidence, MetaField);
    }
    hide Known;
    assert WrongAt(d, ctx, confidence, ClauseField) <==> ctx.clauses != [] && !Known(ctx.clauses, ctx.key, d.clause);
    assert WrongAt(d, ctx, confidence, ConfidenceField) <==> confidence < 0.9;
    hide WrongAt;
  }

  /** Without an error the score is one, less 0.08 for an unknown clause and less 0.08 for a low confidence. */
  lemma ErrorFreeScore(d: Spu, ctx: Context, confidence: real)
    requires forall field :: WrongAt(d, ctx, confidence, field) ==> LevelAt(d, field) != ErrorLevel
    ensures var review := ReviewOf(AllIssues(d, ctx, confidence), confidence);
            review.score ==
            1.0 - (if ctx.clauses != [] && !Known(ctx.clauses, ctx.key, d.clause) then 0.08 else 0.0)
                - (if confidence < 0.9 then 0.08 else 0.0)
  {
    ReviewMeans(d, ctx, confidence);
    ReportsExactly(d, ctx, confidence);
    DueWithoutErrors(d, ctx, confidence);
    hide AllIssues, Due, InReportOrder, WrongAt, Count, Score, OfLevel, Known, NoDup;
    TwoWarnings(AllIssues(d, ctx, confidence), UNKNOWN_CLAUSE, LOW_CONFIDENCE);
  }
}
