/** The automatic review of a generated SPU: the issues it raises, its score, and whether it passes. */
module ReviewValidator {
  import opened Lists
  import opened Formulas

  datatype Level = ErrorLevel | WarningLevel

  datatype Code =
    | MissingMeta | MissingPath | MissingRules | ClauseMismatch | NormMismatch | InvalidFormula | LowConfidence

  datatype RulePart = RuleField | RuleOperator | RuleValue | RuleMessage

  datatype Field =
    | SpuIdField | MetaField | InputsField | PathField | RulesField | ProofField | ClauseField | NormField
    | ConfidenceField | RuleAt(index: nat) | RulePartAt(index: nat, part: RulePart)
    | StepAt(index: nat) | FormulaAt(index: nat)

  datatype Issue = Issue(code: Code, level: Level, field: Field)

  /** A rule of the document: `hasValue` says that it carries a value or a threshold. */
  datatype Rule = RuleNotObject | Rule(field: string, operator: string, hasValue: bool, message: string)

  datatype Step = StepNotObject | Step(formula: string)

  /** The document under review. A part that is not of the required kind is None; texts are trimmed. */
  datatype Spu = Spu(spuId: string, name: string, norm: string, clause: string, version: string,
                     inputs: Option<nat>, path: Option<seq<Step>>, rules: Option<seq<Rule>>, proof: Option<nat>)

  /** What the document is checked against: clause and norm candidates, and the key that compares them. */
  datatype Context = Context(clauses: seq<string>, norms: seq<string>, key: string -> string,
                             parse: string -> Option<Expr>)

  datatype ReviewStatus = AutoValidated | NeedsReview

  datatype Review = Review(passed: bool, status: ReviewStatus, issues: seq<Issue>, score: real)

  // ---------- the issues, section by section ----------

  function Raise(condition: bool, issue: Issue): seq<Issue> {
    if condition then [issue] else []
  }

  function MetaMissing(d: Spu): bool {
    d.name == "" || d.norm == "" || d.clause == "" || d.version == ""
  }

  function IdentityIssues(d: Spu): seq<Issue> {
    Raise(d.spuId == "", Issue(MissingMeta, ErrorLevel, SpuIdField)) +
    Raise(MetaMissing(d), Issue(MissingMeta, ErrorLevel, MetaField)) +
    Raise(d.inputs.None? || d.inputs.value == 0, Issue(MissingMeta, ErrorLevel, InputsField))
  }

  function PartIssues(d: Spu): seq<Issue> {
    Raise(d.path.None? || d.path.value == [], Issue(MissingPath, ErrorLevel, PathField)) +
    Raise(d.rules.None? || d.rules.value == [], Issue(MissingRules, ErrorLevel, RulesField)) +
    Raise(d.proof.None? || d.proof.value == 0, Issue(MissingMeta, ErrorLevel, ProofField))
  }

  function HasKey(candidates: seq<string>, key: string -> string, text: string): bool {
    exists c | c in candidates :: key(c) == key(text)
  }

  function ClauseIssues(d: Spu, ctx: Context): seq<Issue> {
    if ctx.clauses == [] then []
    else if d.clause == "" then [Issue(ClauseMismatch, ErrorLevel, ClauseField)]
    else Raise(!HasKey(ctx.clauses, ctx.key, d.clause), Issue(ClauseMismatch, WarningLevel, ClauseField))
  }

  function NormIssues(d: Spu, ctx: Context): seq<Issue> {
    if d.norm == "" then [Issue(NormMismatch, ErrorLevel, NormField)]
    else Raise(ctx.norms != [] && !HasKey(ctx.norms, ctx.key, d.norm), Issue(NormMismatch, ErrorLevel, NormField))
  }

  function RuleIssues(r: Rule, i: nat): seq<Issue> {
    if r.RuleNotObject? then [Issue(MissingRules, ErrorLevel, RuleAt(i))]
    else
      Raise(r.field == "", Issue(MissingRules, ErrorLevel, RulePartAt(i, RuleField))) +
      Raise(r.operator == "", Issue(MissingRules, ErrorLevel, RulePartAt(i, RuleOperator))) +
      Raise(!r.hasValue, Issue(MissingRules, ErrorLevel, RulePartAt(i, RuleValue))) +
      Raise(r.message == "", Issue(MissingRules, ErrorLevel, RulePartAt(i, RuleMessage)))
  }

  function RulesIssues(rules: seq<Rule>): seq<Issue> {
    if rules == [] then []
    else
      var n := |rules| - 1;
      RulesIssues(rules[..n]) + RuleIssues(rules[n], n)
  }

  function StepIssues(s: Step, i: nat, parse: string -> Option<Expr>): seq<Issue> {
    if s.StepNotObject? then [Issue(InvalidFormula, ErrorLevel, StepAt(i))]
    else Raise(!ArithmeticText(s.formula, parse), Issue(InvalidFormula, ErrorLevel, FormulaAt(i)))
  }

  function PathIssues(path: seq<Step>, parse: string -> Option<Expr>): seq<Issue> {
    if path == [] then []
    else
      var n := |path| - 1;
      PathIssues(path[..n], parse) + StepIssues(path[n], n, parse)
  }

  function ConfidenceIssues(confidence: real): seq<Issue> {
    Raise(confidence < 0.9, Issue(LowConfidence, WarningLevel, ConfidenceField))
  }

  function OrEmpty<T>(xs: Option<seq<T>>): seq<T> {
    if xs.Some? then xs.value else []
  }

  function AllIssues(d: Spu, ctx: Context, confidence: real): seq<Issue> {
    IdentityIssues(d) + PartIssues(d) + ClauseIssues(d, ctx) + NormIssues(d, ctx) +
    RulesIssues(OrEmpty(d.rules)) + PathIssues(OrEmpty(d.path), ctx.parse) + ConfidenceIssues(confidence)
  }

  function Count(issues: seq<Issue>, level: Level): nat {
    if issues == [] then 0
    else
      var n := |issues| - 1;
      Count(issues[..n], level) + if issues[n].level == level then 1 else 0
  }

  function Score(errors: nat, warnings: nat): real {
    var raw := 1.0 - errors as real * 0.2 - warnings as real * 0.08;
    if raw < 0.0 then 0.0 else if raw > 1.0 then 1.0 else raw
  }

  function ReviewOf(issues: seq<Issue>, confidence: real): Review {
    var errors, warnings := Count(issues, ErrorLevel), Count(issues, WarningLevel);
    var passed := errors == 0 && confidence >= 0.9;
    Review(passed, if passed then AutoValidated else NeedsReview, issues, Score(errors, warnings))
  }

  // ---------- the validator ----------

  lemma Assoc<T>(a: seq<T>, b: seq<T>, c: seq<T>)
    ensures (a + b) + c == a + (b + c)
  {
  }

  lemma RulesStep(rules: seq<Rule>, i: nat)
    requires i < |rules|
    ensures RulesIssues(rules[..i + 1]) == RulesIssues(rules[..i]) + RuleIssues(rules[i], i)
  {
    hide RuleIssues;
    assert rules[..i + 1][..i] == rules[..i];
  }

  lemma PathStep(path: seq<Step>, parse: string -> Option<Expr>, i: nat)
    requires i < |path|
    ensures PathIssues(path[..i + 1], parse) == PathIssues(path[..i], parse) + StepIssues(path[i], i, parse)
  {
    hide StepIssues;
    assert path[..i + 1][..i] == path[..i];
  }

  method CheckRule(rule: Rule, i: nat, found: seq<Issue>) returns (issues: seq<Issue>)
    ensures issues == found + RuleIssues(rule, i)
  {
    if rule.RuleNotObject? {
      return found + [Issue(MissingRules, ErrorLevel, RuleAt(i))];
    }
    hide Raise;
    var field := Raise(rule.field == "", Issue(MissingRules, ErrorLevel, RulePartAt(i, RuleField)));
    var operator := Raise(rule.operator == "", Issue(MissingRules, ErrorLevel, RulePartAt(i, RuleOperator)));
    var value := Raise(!rule.hasValue, Issue(MissingRules, ErrorLevel, RulePartAt(i, RuleValue)));
    var message := Raise(rule.message == "", Issue(MissingRules, ErrorLevel, RulePartAt(i, RuleMessage)));
    issues := found + field;
    issues := issues + operator;
    issues := issues + value;
    issues := issues + message;
    Assoc(found, field, operator);
    Assoc(found, field + operator, value);
    Assoc(found, field + operator + value, message);
  }

  method CheckRules(rules: seq<Rule>, found: seq<Issue>) returns (issues: seq<Issue>)
    ensures issues == found + RulesIssues(rules)
  {
    issues := found;
    NoRulesNoIssues();
    hide RulesIssues, RuleIssues;
    assert rules[..0] == [];
    for i := 0 to |rules|
      invariant issues == found + RulesIssues(rules[..i])
    {
      issues := CheckRule(rules[i], i, issues);
      RulesStep(rules, i);
      Assoc(found, RulesIssues(rules[..i]), RuleIssues(rules[i], i));
    }
    assert rules[..|rules|] == rules;
  }

  method CheckStep(step: Step, i: nat, parse: string -> Option<Expr>, found: seq<Issue>) returns (issues: seq<Issue>)
    ensures issues == found + StepIssues(step, i, parse)
  {
    if step.StepNotObject? {
      return found + [Issue(InvalidFormula, ErrorLevel, StepAt(i))];
    }
    var valid := IsFormulaValid(step.formula, parse);
    issues := found + Raise(!valid, Issue(InvalidFormula, ErrorLevel, FormulaAt(i)));
  }

  method CheckPath(path: seq<Step>, parse: string -> Option<Expr>, found: seq<Issue>) returns (issues: seq<Issue>)
    ensures issues == found + PathIssues(path, parse)
  {
    issues := found;
    NoPathNoIssues(parse);
    hide PathIssues, StepIssues;
    assert path[..0] == [];
    for i := 0 to |path|
      invariant issues == found + PathIssues(path[..i], parse)
    {
      issues := CheckStep(path[i], i, parse, issues);
      PathStep(path, parse, i);
      Assoc(found, PathIssues(path[..i], parse), StepIssues(path[i], i, parse));
    }
    assert path[..|path|] == path;
  }

  /** The clause and norm named by the document against the candidates found in the source text. */
  method CheckMatches(d: Spu, ctx: Context, found: seq<Issue>) returns (issues: seq<Issue>)
    ensures issues == found + ClauseIssues(d, ctx) + NormIssues(d, ctx)
  {
    issues := found;
    if ctx.clauses != [] {
      if d.clause == "" {
        issues := issues + [Issue(ClauseMismatch, ErrorLevel, ClauseField)];
      } else if !HasKey(ctx.clauses, ctx.key, d.clause) {
        issues := issues + [Issue(ClauseMismatch, WarningLevel, ClauseField)];
      }
    }
    assert issues == found + ClauseIssues(d, ctx);
    hide ClauseIssues, HasKey;
    if d.norm != "" && ctx.norms != [] {
      if !HasKey(ctx.norms, ctx.key, d.norm) {
        issues := issues + [Issue(NormMismatch, ErrorLevel, NormField)];
      }
    } else if d.norm == "" {
      issues := issues + [Issue(NormMismatch, ErrorLevel, NormField)];
    }
  }

  method ValidateGeneratedSpu(d: Spu, ctx: Context, confidence: real) returns (review: Review)
    ensures review == ReviewOf(AllIssues(d, ctx, confidence), confidence)
  {
    hide MetaMissing, HasKey, RulesIssues, PathIssues, Count, Score, Raise, ClauseIssues, NormIssues;
    var issues := Raise(d.spuId == "", Issue(MissingMeta, ErrorLevel, SpuIdField));
    issues := issues + Raise(MetaMissing(d), Issue(MissingMeta, ErrorLevel, MetaField));
    issues := issues + Raise(d.inputs.None? || d.inputs.value == 0, Issue(MissingMeta, ErrorLevel, InputsField));
    assert issues == IdentityIssues(d);
    hide IdentityIssues;
    issues := issues + Raise(d.path.None? || d.path.value == [], Issue(MissingPath, ErrorLevel, PathField));
    issues := issues + Raise(d.rules.None? || d.rules.value == [], Issue(MissingRules, ErrorLevel, RulesField));
    issues := issues + Raise(d.proof.None? || d.proof.value == 0, Issue(MissingMeta, ErrorLevel, ProofField));
    assert issues == IdentityIssues(d) + PartIssues(d);
    hide PartIssues;
    issues := CheckMatches(d, ctx, issues);
    if d.rules.Some? {
      issues := CheckRules(d.rules.value, issues);
    } else {
      assert issues == issues + RulesIssues([]) by { NoRulesNoIssues(); }
    }
    if d.path.Some? {
      issues := CheckPath(d.path.value, ctx.parse, issues);
    } else {
      assert issues == issues + PathIssues([], ctx.parse) by { NoPathNoIssues(ctx.parse); }
    }
    issues := issues + Raise(confidence < 0.9, Issue(LowConfidence, WarningLevel, ConfidenceField));
    assert issues == AllIssues(d, ctx, confidence);
    hide AllIssues;
    var errorCount := Count(issues, ErrorLevel);
    var warningCount := Count(issues, WarningLevel);
    var passed := errorCount == 0 && confidence >= 0.9;
    review := Review(passed, if passed then AutoValidated else NeedsReview, issues, Score(errorCount, warningCount));
  }

  lemma NoRulesNoIssues()
    ensures RulesIssues([]) == []
  {
  }

  lemma NoPathNoIssues(parse: string -> Option<Expr>)
    ensures PathIssues([], parse) == []
  {
  }

  // ---------- what passing means ----------

  /** A rule with all its parts. */
  ghost predicate CompleteRule(r: Rule) {
    r.Rule? && r.field != "" && r.operator != "" && r.hasValue && r.message != ""
  }

  ghost predicate ExecutableStep(s: Step, parse: string -> Option<Expr>) {
    s.Step? && ArithmeticText(s.formula, parse)
  }

  /** The structure an SPU must have to be used without a reviewer. */
  ghost predicate WellStructured(d: Spu, ctx: Context) {
    && d.spuId != "" && d.name != "" && d.norm != "" && d.clause != "" && d.version != ""
    && d.inputs.Some? && d.inputs.value > 0
    && d.proof.Some? && d.proof.value > 0
    && d.rules.Some? && d.rules.value != [] && (forall r :: r in d.rules.value ==> CompleteRule(r))
    && d.path.Some? && d.path.value != [] && (forall s :: s in d.path.value ==> ExecutableStep(s, ctx.parse))
    && (ctx.norms == [] || exists c :: c in ctx.norms && ctx.key(c) == ctx.key(d.norm))
  }

  lemma {:induction false} CountConcat(a: seq<Issue>, b: seq<Issue>, level: Level)
    ensures Count(a + b, level) == Count(a, level) + Count(b, level)
  {
    if b == [] {
      assert a + b == a;
    } else {
      assert (a + b)[..|a + b| - 1] == a + b[..|b| - 1];
      CountConcat(a, b[..|b| - 1], level);
    }
  }

  lemma CountRaise(condition: bool, issue: Issue, level: Level)
    ensures Count(Raise(condition, issue), level) == if condition && issue.level == level then 1 else 0
  {
    assert Count([issue], level) == Count([issue][..0], level) + if issue.level == level then 1 else 0;
  }

  lemma RuleCounts(r: Rule, i: nat)
    ensures Count(RuleIssues(r, i), WarningLevel) == 0
    ensures Count(RuleIssues(r, i), ErrorLevel) == 0 <==> CompleteRule(r)
  {
    hide Count, Raise;
    if r.RuleNotObject? {
      var issue := Issue(MissingRules, ErrorLevel, RuleAt(i));
      CountRaise(true, issue, ErrorLevel);
      CountRaise(true, issue, WarningLevel);
      RaiseTrue(issue);
    } else {
      var b1, i1 := r.field == "", Issue(MissingRules, ErrorLevel, RulePartAt(i, RuleField));
      var b2, i2 := r.operator == "", Issue(MissingRules, ErrorLevel, RulePartAt(i, RuleOperator));
      var b3, i3 := !r.hasValue, Issue(MissingRules, ErrorLevel, RulePartAt(i, RuleValue));
      var b4, i4 := r.message == "", Issue(MissingRules, ErrorLevel, RulePartAt(i, RuleMessage));
      CountThree(b1, i1, b2, i2, b3, i3);
      CountConcat(Raise(b1, i1) + Raise(b2, i2) + Raise(b3, i3), Raise(b4, i4), ErrorLevel);
      CountConcat(Raise(b1, i1) + Raise(b2, i2) + Raise(b3, i3), Raise(b4, i4), WarningLevel);
      CountRaise(b4, i4, ErrorLevel);
      CountRaise(b4, i4, WarningLevel);
    }
  }

  lemma RaiseTrue(issue: Issue)
    ensures Raise(true, issue) == [issue]
  {
  }

  lemma {:induction false} RulesCounts(rules: seq<Rule>)
    ensures Count(RulesIssues(rules), WarningLevel) == 0
    ensures Count(RulesIssues(rules), ErrorLevel) == 0 <==> forall r :: r in rules ==> CompleteRule(r)
  {
    if rules != [] {
      var n := |rules| - 1;
      RulesCounts(rules[..n]);
      RuleCounts(rules[n], n);
      CountConcat(RulesIssues(rules[..n]), RuleIssues(rules[n], n), WarningLevel);
      CountConcat(RulesIssues(rules[..n]), RuleIssues(rules[n], n), ErrorLevel);
      hide Count, CompleteRule, RuleIssues;
      assert rules == rules[..n] + [rules[n]];
    }
  }

  lemma {:induction false} PathCounts(path: seq<Step>, parse: string -> Option<Expr>)
    ensures Count(PathIssues(path, parse), WarningLevel) == 0
    ensures Count(PathIssues(path, parse), ErrorLevel) == 0 <==> forall s :: s in path ==> ExecutableStep(s, parse)
  {
    if path != [] {
      var n := |path| - 1;
      PathCounts(path[..n], parse);
      var issue := Issue(InvalidFormula, ErrorLevel, if path[n].StepNotObject? then StepAt(n) else FormulaAt(n));
      assert StepIssues(path[n], n, parse) == Raise(!ExecutableStep(path[n], parse), issue);
      CountRaise(!ExecutableStep(path[n], parse), issue, WarningLevel);
      CountRaise(!ExecutableStep(path[n], parse), issue, ErrorLevel);
      CountConcat(PathIssues(path[..n], parse), StepIssues(path[n], n, parse), WarningLevel);
      CountConcat(PathIssues(path[..n], parse), StepIssues(path[n], n, parse), ErrorLevel);
      hide Count, ExecutableStep, StepIssues, Raise;
      assert path == path[..n] + [path[n]];
    }
  }

  /** The count of one level over all sections. */
  lemma SectionCounts(d: Spu, ctx: Context, confidence: real, level: Level)
    ensures Count(AllIssues(d, ctx, confidence), level) ==
            Count(IdentityIssues(d), level) + Count(PartIssues(d), level) + Count(ClauseIssues(d, ctx), level) +
                Count(NormIssues(d, ctx), level) +
            Count(RulesIssues(OrEmpty(d.rules)), level) + Count(PathIssues(OrEmpty(d.path), ctx.parse), level) +
            Count(ConfidenceIssues(confidence), level)
  {
    hide Count, IdentityIssues, PartIssues, ClauseIssues, NormIssues, RulesIssues, PathIssues, ConfidenceIssues;
    var a, b, c, d1 := IdentityIssues(d), PartIssues(d), ClauseIssues(d, ctx), NormIssues(d, ctx);
    var e, f, g := RulesIssues(OrEmpty(d.rules)), PathIssues(OrEmpty(d.path), ctx.parse), ConfidenceIssues(confidence);
    CountConcat(a + b + c + d1 + e + f, g, level);
    CountConcat(a + b + c + d1 + e, f, level);
    CountConcat(a + b + c + d1, e, level);
    CountConcat(a + b + c, d1, level);
    CountConcat(a + b, c, level);
    CountConcat(a, b, level);
  }

  lemma CountThree(b1: bool, i1: Issue, b2: bool, i2: Issue, b3: bool, i3: Issue)
    requires i1.level == i2.level == i3.level == ErrorLevel
    ensures var all := Raise(b1, i1) + Raise(b2, i2) + Raise(b3, i3);
            Count(all, WarningLevel) == 0 && (Count(all, ErrorLevel) == 0 <==> !b1 && !b2 && !b3)
  {
    CountRaises(b1, i1, b2, i2, b3, i3, ErrorLevel);
    CountRaises(b1, i1, b2, i2, b3, i3, WarningLevel);
    hide Count, Raise;
  }

  lemma CountRaises(b1: bool, i1: Issue, b2: bool, i2: Issue, b3: bool, i3: Issue, level: Level)
    requires i1.level == i2.level == i3.level == ErrorLevel
    ensures Count(Raise(b1, i1) + Raise(b2, i2) + Raise(b3, i3), level) ==
            if level == WarningLevel then 0 else (if b1 then 1 else 0) + (if b2 then 1 else 0) + (if b3 then 1 else 0)
  {
    hide Count, Raise;
    CountConcat(Raise(b1, i1) + Raise(b2, i2), Raise(b3, i3), level);
    CountConcat(Raise(b1, i1), Raise(b2, i2), level);
    CountRaise(b1, i1, level);
    CountRaise(b2, i2, level);
    CountRaise(b3, i3, level);
  }

  lemma StructureCounts(d: Spu)
    ensures Count(IdentityIssues(d), WarningLevel) == Count(PartIssues(d), WarningLevel) == 0
    ensures Count(IdentityIssues(d), ErrorLevel) + Count(PartIssues(d), ErrorLevel) == 0 <==>
            && d.spuId != "" && !MetaMissing(d) && d.inputs.Some? && d.inputs.value > 0
            && d.path.Some? && d.path.value != [] && d.rules.Some? && d.rules.value != []
            && d.proof.Some? && d.proof.value > 0
  {
    hide Count, Raise, MetaMissing;
    CountThree(d.spuId == "", Issue(MissingMeta, ErrorLevel, SpuIdField),
               MetaMissing(d), Issue(MissingMeta, ErrorLevel, MetaField),
               d.inputs.None? || d.inputs.value == 0, Issue(MissingMeta, ErrorLevel, InputsField));
    CountThree(d.path.None? || d.path.value == [], Issue(MissingPath, ErrorLevel, PathField),
               d.rules.None? || d.rules.value == [], Issue(MissingRules, ErrorLevel, RulesField),
               d.proof.None? || d.proof.value == 0, Issue(MissingMeta, ErrorLevel, ProofField));
  }

  lemma MatchCounts(d: Spu, ctx: Context, confidence: real)
    ensures Count(ClauseIssues(d, ctx), WarningLevel) + Count(ClauseIssues(d, ctx), ErrorLevel) <= 1
    ensures d.clause != "" ==> Count(ClauseIssues(d, ctx), ErrorLevel) == 0
    ensures Count(NormIssues(d, ctx), WarningLevel) == 0
    ensures Count(NormIssues(d, ctx), ErrorLevel) == 0 <==>
            d.norm != "" && (ctx.norms == [] || exists c :: c in ctx.norms && ctx.key(c) == ctx.key(d.norm))
    ensures Count(ConfidenceIssues(confidence), ErrorLevel) == 0
    ensures Count(ConfidenceIssues(confidence), WarningLevel) == if confidence < 0.9 then 1 else 0
  {
    forall issue: Issue, level: Level ensures Count([issue], level) == if issue.level == level then 1 else 0 {
      CountRaise(true, issue, level);
    }
  }

  /** AUTO_VALIDATED exactly for well-structured documents of sufficient confidence. */
  lemma AutoValidatedMeans(d: Spu, ctx: Context, confidence: real)
    ensures var review := ReviewOf(AllIssues(d, ctx, confidence), confidence);
            && (review.status == AutoValidated <==> review.passed)
            && (review.passed <==> WellStructured(d, ctx) && confidence >= 0.9)
  {
    SectionCounts(d, ctx, confidence, ErrorLevel);
    StructureCounts(d);
    MatchCounts(d, ctx, confidence);
    RulesCounts(OrEmpty(d.rules));
    PathCounts(OrEmpty(d.path), ctx.parse);
    hide Count, IdentityIssues, PartIssues, ClauseIssues, NormIssues, RulesIssues, PathIssues, ConfidenceIssues, Score,
         CompleteRule, ExecutableStep, AllIssues;
  }

  lemma ScoreBounds(errors: nat, warnings: nat)
    requires warnings <= 2
    ensures Score(errors, warnings) == 0.0 <==> errors >= 5
    ensures errors == 0 ==> Score(errors, warnings) == 1.0 - warnings as real * 0.08
    ensures errors > 0 ==> Score(errors, warnings) <= 0.8
  {
  }

  /** At most two warnings; the score is lost with the fifth error; passing can be read off the score. */
  lemma ScoreMeans(d: Spu, ctx: Context, confidence: real)
    ensures var review := ReviewOf(AllIssues(d, ctx, confidence), confidence);
            && Count(review.issues, WarningLevel) <= 2
            && 0.0 <= review.score <= 1.0
            && (review.score == 0.0 <==> Count(review.issues, ErrorLevel) >= 5)
            && (review.passed <==> review.score >= 0.92 && confidence >= 0.9)
  {
    SectionCounts(d, ctx, confidence, WarningLevel);
    StructureCounts(d);
    MatchCounts(d, ctx, confidence);
    RulesCounts(OrEmpty(d.rules));
    PathCounts(OrEmpty(d.path), ctx.parse);
    hide Count, IdentityIssues, PartIssues, ClauseIssues, NormIssues, RulesIssues, PathIssues, ConfidenceIssues,
         CompleteRule, ExecutableStep, AllIssues;
    var issues := AllIssues(d, ctx, confidence);
    ScoreBounds(Count(issues, ErrorLevel), Count(issues, WarningLevel));
  }
}
