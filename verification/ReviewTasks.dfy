/** One translation task as the task store keeps it, and what each store operation does to it. */
module ReviewTasks {
  import opened Lists
  import V = ReviewValidator

  datatype TaskStatus = Processing | Done | Errored

  datatype ReviewState = Draft | AutoValidated | NeedsReview | Approved | Rejected

  datatype HistoryReason = Generated | AutoValidate | ManualApprove | ManualReject

  /** A change of review state; the first entry comes from nowhere. */
  datatype HistoryEntry = HistoryEntry(from: Option<ReviewState>, to: ReviewState, reason: HistoryReason, at: int)

  datatype AuditKind =
    | ReviewApproved | ReviewRejected | TemplateReused | TemplateBased | TemplateSkipped | TemplateCreated

  datatype AuditEvent = AuditEvent(kind: AuditKind, who: string, at: int)

  datatype Decision = Decision(approved: bool, reviewer: string, reason: string, at: int)

  datatype Task = Task(status: TaskStatus, review: ReviewState, required: bool, score: real, passed: bool,
                       issues: seq<V.Issue>, confidence: real, history: seq<HistoryEntry>, decision: Option<Decision>,
                       audit: seq<AuditEvent>, spu: Option<string>, registered: bool, entered: bool, error: string)

  /**
   * What the pipeline hands over when it completes: a document, if one was generated, and the registration's answer.
   */
  datatype Outcome = Outcome(document: Option<V.Spu>, context: V.Context, confidence: real, registration: bool)

  const NOTHING: V.Spu := V.Spu("", "", "", "", "", None, None, None, None)

  /** The document under review; without one every part is missing. */
  function Document(o: Outcome): V.Spu {
    if o.document.Some? then o.document.value else NOTHING
  }

  /** The task keeps the SPU that was reviewed, by its id. */
  function SpuOf(o: Outcome): Option<string> {
    if o.document.Some? then Some(o.document.value.spuId) else None
  }

  predicate HasId(t: Task) {
    t.spu.Some? && t.spu.value != ""
  }

  // ---------- the store operations, on one task ----------

  function NewTask(now: int): Task {
    Task(Processing, Draft, false, 0.0, false, [], 0.0, [HistoryEntry(None, Draft, Generated, now)], None, [],
         None, false, false, "")
  }

  function AppendHistory(t: Task, from: ReviewState, to: ReviewState, reason: HistoryReason, now: int): Task {
    if from == to then t else t.(history := t.history + [HistoryEntry(Some(from), to, reason, now)])
  }

  function AppendAudit(t: Task, e: AuditEvent): Task {
    t.(audit := t.audit + [e])
  }

  function RestartProcessing(t: Task): Task {
    t.(status := Processing, error := "", confidence := 0.0, spu := None, entered := false, required := false,
       review := Draft, score := 0.0, passed := false, issues := [], decision := None, registered := false)
  }

  function ReviewedAs(r: V.Review): ReviewState {
    if r.status == V.AutoValidated then AutoValidated else NeedsReview
  }

  function MarkDone(t: Task, required: bool, state: ReviewState, r: V.Review, confidence: real,
                    spu: Option<string>, registered: bool, now: int): Task {
    AppendHistory(t.(status := Done, confidence := confidence, required := required, review := state, score := r.score,
                     passed := r.passed, issues := r.issues, spu := spu, registered := registered),
                  t.review, state, AutoValidate, now)
  }

  /** The pipeline requires a review of everything that was not validated, and registers only what was. */
  function Complete(t: Task, o: Outcome, now: int): Task {
    var r := V.ReviewOf(V.AllIssues(Document(o), o.context, o.confidence), o.confidence);
    var state := ReviewedAs(r);
    MarkDone(t, state != AutoValidated, state, r, o.confidence, SpuOf(o), state == AutoValidated && o.registration, now)
  }

  function ApproveReview(t: Task, reviewer: string, now: int): Task {
    AppendAudit(AppendHistory(t.(review := Approved, required := false,
                                 decision := Some(Decision(true, reviewer, "", now))),
                              t.review, Approved, ManualApprove, now),
                AuditEvent(ReviewApproved, reviewer, now))
  }

  function RejectReview(t: Task, reviewer: string, reason: string, now: int): Task {
    AppendAudit(AppendHistory(t.(review := Rejected, required := true,
                                 decision := Some(Decision(false, reviewer, reason, now))),
                              t.review, Rejected, ManualReject, now),
                AuditEvent(ReviewRejected, reviewer, now))
  }

  function MarkError(t: Task, error: string): Task {
    t.(status := Errored, error := error)
  }

  // ---------- the invariant ----------

  predicate Allowed(s: ReviewState) {
    s == AutoValidated || s == Approved
  }

  /** The execution gate. */
  predicate GateOpen(t: Task) {
    t.status == Done && Allowed(t.review)
  }

  /** Creation first; then real changes, each from where the previous one led, or from the draft a restart left. */
  ghost predicate HistoryOk(h: seq<HistoryEntry>, now: ReviewState) {
    && h != [] && h[0].from == None && h[0].to == Draft && h[0].reason == Generated
    && (forall k :: 0 < k < |h| ==>
          && h[k].from.Some? && h[k].from.value != h[k].to
          && (h[k].from.value == h[k - 1].to || h[k].from.value == Draft))
    && (now == h[|h| - 1].to || now == Draft)
  }

  /** A manual decision as both lists record it. */
  datatype Manual = Manual(approved: bool, at: int)

  ghost function ManualHistory(h: seq<HistoryEntry>): seq<Manual> {
    if h == [] then []
    else
      var n := |h| - 1;
      var rest := ManualHistory(h[..n]);
      if h[n].reason == ManualApprove || h[n].reason == ManualReject
      then rest + [Manual(h[n].reason == ManualApprove, h[n].at)] else rest
  }

  ghost function ManualAudit(a: seq<AuditEvent>): seq<Manual> {
    if a == [] then []
    else
      var n := |a| - 1;
      var rest := ManualAudit(a[..n]);
      if a[n].kind == ReviewApproved || a[n].kind == ReviewRejected
      then rest + [Manual(a[n].kind == ReviewApproved, a[n].at)] else rest
  }

  ghost predicate Subsequence<T>(xs: seq<T>, ys: seq<T>) {
    xs == [] || (ys != [] &&
      var m, n := |xs| - 1, |ys| - 1;
      (xs[m] == ys[n] && Subsequence(xs[..m], ys[..n])) || Subsequence(xs, ys[..n]))
  }

  /** What validation recorded agrees with the review state, until a reviewer decides. */
  ghost predicate ValidationOk(t: Task) {
    && (t.review == AutoValidated ==> t.passed)
    && (t.review == NeedsReview || t.review == Draft ==> !t.passed)
    && (t.passed ==> t.score >= 0.92 && t.confidence >= 0.9 && V.Count(t.issues, V.ErrorLevel) == 0)
  }

  ghost predicate DecisionOk(t: Task) {
    && (t.review == Approved ==> t.decision.Some? && t.decision.value.approved)
    && (t.review == Rejected ==> t.decision.Some? && !t.decision.value.approved)
  }

  ghost predicate TaskInv(t: Task) {
    && (t.required <==> t.review == NeedsReview || t.review == Rejected)
    && (t.status == Done ==> t.review != Draft)
    && ValidationOk(t) && DecisionOk(t)
    && (t.review == AutoValidated ==> HasId(t))
    && HistoryOk(t.history, t.review)
    && Subsequence(ManualHistory(t.history), ManualAudit(t.audit))
  }

  // ---------- every operation keeps it ----------

  lemma HistoryGrows(h: seq<HistoryEntry>, from: ReviewState, to: ReviewState, reason: HistoryReason, now: int)
    requires HistoryOk(h, from)
    ensures from == to ==> HistoryOk(h, to)
    ensures from != to ==> HistoryOk(h + [HistoryEntry(Some(from), to, reason, now)], to)
  {
  }

  lemma ManualHistorySnoc(h: seq<HistoryEntry>, e: HistoryEntry)
    ensures ManualHistory(h + [e]) ==
            if e.reason == ManualApprove || e.reason == ManualReject
            then ManualHistory(h) + [Manual(e.reason == ManualApprove, e.at)] else ManualHistory(h)
  {
    assert (h + [e])[..|h|] == h;
  }

  lemma ManualAuditSnoc(a: seq<AuditEvent>, e: AuditEvent)
    ensures ManualAudit(a + [e]) ==
            if e.kind == ReviewApproved || e.kind == ReviewRejected
            then ManualAudit(a) + [Manual(e.kind == ReviewApproved, e.at)] else ManualAudit(a)
  {
    assert (a + [e])[..|a|] == a;
  }

  lemma SubsequenceGrows<T>(xs: seq<T>, ys: seq<T>, y: T)
    requires Subsequence(xs, ys)
    ensures Subsequence(xs, ys + [y]) && Subsequence(xs + [y], ys + [y])
  {
    assert (ys + [y])[..|ys|] == ys && (xs + [y])[..|xs|] == xs;
  }

  lemma NewTaskInv(now: int)
    ensures TaskInv(NewTask(now))
  {
    var h := NewTask(now).history;
    assert h[..0] == [];
  }

  lemma RestartInv(t: Task)
    requires TaskInv(t)
    ensures TaskInv(RestartProcessing(t))
  {
    hide Subsequence, ManualHistory, ManualAudit;
  }

  /** A change of state that only validation makes leaves the manual decisions alone. */
  lemma AutoHistoryKeepsManual(t: Task, from: ReviewState, to: ReviewState, now: int)
    ensures ManualHistory(AppendHistory(t, from, to, AutoValidate, now).history) == ManualHistory(t.history)
  {
    if from != to {
      var e := HistoryEntry(Some(from), to, AutoValidate, now);
      ManualHistorySnoc(t.history, e);
    }
  }

  /** What was validated automatically has an SPU with an id. */
  lemma ValidatedHasSpu(o: Outcome)
    ensures V.ReviewOf(V.AllIssues(Document(o), o.context, o.confidence), o.confidence).passed ==>
              SpuOf(o).Some? && SpuOf(o).value != ""
  {
    hide V.AllIssues, V.ReviewOf;
    V.AutoValidatedMeans(Document(o), o.context, o.confidence);
  }

  lemma CompleteInv(t: Task, o: Outcome, now: int)
    requires TaskInv(t)
    ensures TaskInv(Complete(t, o, now))
  {
    hide Subsequence, ManualHistory, ManualAudit, HistoryOk, V.AllIssues, V.Count, V.Score, V.WellStructured;
    var r := V.ReviewOf(V.AllIssues(Document(o), o.context, o.confidence), o.confidence);
    V.ScoreMeans(Document(o), o.context, o.confidence);
    V.AutoValidatedMeans(Document(o), o.context, o.confidence);
    ValidatedHasSpu(o);
    hide Document, SpuOf;
    AutoHistoryKeepsManual(t, t.review, ReviewedAs(r), now);
    HistoryGrows(t.history, t.review, ReviewedAs(r), AutoValidate, now);
  }

  /** A manual decision goes to the audit in any case, and to the history if it changes the state. */
  lemma DecideKeepsManual(t: Task, to: ReviewState, approved: bool, who: string, now: int)
    requires Subsequence(ManualHistory(t.history), ManualAudit(t.audit))
    ensures var reason := if approved then ManualApprove else ManualReject;
            var e := AuditEvent(if approved then ReviewApproved else ReviewRejected, who, now);
            Subsequence(ManualHistory(AppendHistory(t, t.review, to, reason, now).history), ManualAudit(t.audit + [e]))
  {
    hide Subsequence, ManualHistory, ManualAudit;
    var reason := if approved then ManualApprove else ManualReject;
    var e := AuditEvent(if approved then ReviewApproved else ReviewRejected, who, now);
    ManualAuditSnoc(t.audit, e);
    SubsequenceGrows(ManualHistory(t.history), ManualAudit(t.audit), Manual(approved, now));
    ManualHistorySnoc(t.history, HistoryEntry(Some(t.review), to, reason, now));
  }

  lemma ApproveInv(t: Task, reviewer: string, now: int)
    requires TaskInv(t)
    ensures TaskInv(ApproveReview(t, reviewer, now))
  {
    hide Subsequence, ManualHistory, ManualAudit, HistoryOk;
    DecideKeepsManual(t, Approved, true, reviewer, now);
    HistoryGrows(t.history, t.review, Approved, ManualApprove, now);
  }

  lemma RejectInv(t: Task, reviewer: string, reason: string, now: int)
    requires TaskInv(t)
    ensures TaskInv(RejectReview(t, reviewer, reason, now))
  {
    hide Subsequence, ManualHistory, ManualAudit, HistoryOk;
    DecideKeepsManual(t, Rejected, false, reviewer, now);
    HistoryGrows(t.history, t.review, Rejected, ManualReject, now);
  }

  lemma ErrorInv(t: Task, error: string)
    requires TaskInv(t)
    ensures TaskInv(MarkError(t, error))
  {
    hide Subsequence, ManualHistory, ManualAudit, HistoryOk;
  }

  /** Template events are not manual decisions. */
  lemma AuditInv(t: Task, e: AuditEvent)
    requires TaskInv(t) && e.kind != ReviewApproved && e.kind != ReviewRejected
    ensures TaskInv(AppendAudit(t, e))
  {
    hide Subsequence, ManualHistory, ManualAudit, HistoryOk;
    ManualAuditSnoc(t.audit, e);
  }

  /** The gate lets a finished task through exactly when no review is required. */
  lemma GateMeansNoReviewRequired(t: Task)
    requires TaskInv(t) && t.status == Done
    ensures GateOpen(t) <==> !t.required
    ensures GateOpen(t) ==>
              || (t.review == AutoValidated && t.passed)
              || (t.review == Approved && t.decision.Some? && t.decision.value.approved)
  {
    hide Subsequence, ManualHistory, ManualAudit, HistoryOk;
  }
}
