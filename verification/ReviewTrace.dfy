/**
 * What a task shows after any interleaving: field by field what the last step that sets it left, read off the steps
 * that were taken on the task, with none of the store's operations.
 */
module ReviewTrace {
  import opened Lists
  import opened ReviewTasks
  import opened ReviewWorkflow
  import V = ReviewValidator

  /** A step that was taken on the task, with the answer its surroundings gave and the time. */
  datatype Move = Move(instr: Instr, choice: Choice, now: int)

  /** The steps that a list of actions takes on task `id`. */
  function Trace(s: System, actions: seq<Action>, id: string): seq<Move>
    decreases |actions|
  {
    if actions == [] then []
    else
      var a := actions[0];
      (if StepOn(s, a, id).Some? then [Move(StepOn(s, a, id).value.0, StepOn(s, a, id).value.1, a.now)] else []) +
      Trace(Next(s, a), actions[1..], id)
  }

  /** The value the last setting step of the trace leaves, or else `first`. */
  function LastSet<T>(trace: seq<Move>, sets: Move -> Option<T>, first: T): T {
    if trace == [] then first
    else
      var m := sets(trace[0]);
      LastSet(trace[1..], sets, if m.Some? then m.value else first)
  }

  /** What the steps contribute to a list, in order. */
  function Collected<T>(trace: seq<Move>, adds: Move -> seq<T>): seq<T> {
    if trace == [] then [] else adds(trace[0]) + Collected(trace[1..], adds)
  }

  // ---------- which step sets which field, to what ----------

  predicate Finishes(m: Move) {
    m.instr == Pipeline && m.choice.Finish?
  }

  /** The pipeline's document is complete, and its confidence sufficient. */
  ghost predicate Valid(o: Outcome) {
    o.document.Some? && V.WellStructured(o.document.value, o.context) && o.confidence >= 0.9
  }

  ghost function SetsStatus(m: Move): Option<TaskStatus> {
    if Finishes(m) then Some(Done)
    else if m.instr == Restart then Some(Processing)
    else if m.instr.Fail? then Some(Errored)
    else None
  }

  ghost function SetsError(m: Move): Option<string> {
    if m.instr == Restart then Some("") else if m.instr.Fail? then Some(m.instr.error) else None
  }

  ghost function SetsReview(m: Move): Option<ReviewState> {
    if Finishes(m) then Some(if Valid(m.choice.outcome) then AutoValidated else NeedsReview)
    else if m.instr == Restart then Some(Draft)
    else if m.instr.Approve? then Some(Approved)
    else if m.instr.Reject? then Some(Rejected)
    else None
  }

  ghost function SetsRequired(m: Move): Option<bool> {
    if Finishes(m) then Some(!Valid(m.choice.outcome))
    else if m.instr == Restart || m.instr.Approve? then Some(false)
    else if m.instr.Reject? then Some(true)
    else None
  }

  ghost function SetsDecision(m: Move): Option<Option<Decision>> {
    if m.instr == Restart then Some(None)
    else if m.instr.Approve? then Some(Some(Decision(true, m.instr.reviewer, "", m.now)))
    else if m.instr.Reject? then Some(Some(Decision(false, m.instr.reviewer, m.instr.reason, m.now)))
    else None
  }

  ghost function SetsPassed(m: Move): Option<bool> {
    if Finishes(m) then Some(Valid(m.choice.outcome)) else if m.instr == Restart then Some(false) else None
  }

  ghost function SetsIssues(m: Move): Option<seq<V.Issue>> {
    if Finishes(m) then
      var o := m.choice.outcome;
      Some(V.AllIssues(Document(o), o.context, o.confidence))
    else if m.instr == Restart then Some([])
    else None
  }

  ghost function SetsScore(m: Move): Option<real> {
    if Finishes(m) then
      var o := m.choice.outcome;
      Some(V.ReviewOf(V.AllIssues(Document(o), o.context, o.confidence), o.confidence).score)
    else if m.instr == Restart then Some(0.0)
    else None
  }

  ghost function SetsConfidence(m: Move): Option<real> {
    if Finishes(m) then Some(m.choice.outcome.confidence) else if m.instr == Restart then Some(0.0) else None
  }

  ghost function SetsSpu(m: Move): Option<Option<string>> {
    if Finishes(m) then
      Some(if m.choice.outcome.document.Some? then Some(m.choice.outcome.document.value.spuId) else None)
    else if m.instr == Restart then Some(None)
    else None
  }

  ghost function SetsRegistered(m: Move): Option<bool> {
    if Finishes(m) then Some(Valid(m.choice.outcome) && m.choice.outcome.registration)
    else if m.instr == Restart then Some(false)
    else if m.instr == Register && m.choice.External? && m.choice.ok then Some(m.choice.registered)
    else None
  }

  ghost function SetsEntered(m: Move): Option<bool> {
    if m.instr == Restart then Some(false)
    else if m.instr == MarkEntry && m.choice.External? && m.choice.ok then Some(true)
    else None
  }

  ghost function Audits(m: Move): seq<AuditEvent> {
    if m.instr.Approve? then [AuditEvent(ReviewApproved, m.instr.reviewer, m.now)]
    else if m.instr.Reject? then [AuditEvent(ReviewRejected, m.instr.reviewer, m.now)]
    else if m.instr == LogTemplate then [AuditEvent(TemplateCreated, "", m.now)]
    else if m.instr == Pipeline && m.choice.TemplateEvent? &&
            m.choice.kind != ReviewApproved && m.choice.kind != ReviewRejected
    then [AuditEvent(m.choice.kind, "", m.now)]
    else []
  }

  /** The entry a step writes into the review history of a task in state `from`. */
  ghost function Writes(m: Move, from: ReviewState): seq<HistoryEntry> {
    var to := SetsReview(m);
    if to.None? || m.instr == Restart || to.value == from then []
    else
      var reason := if m.instr.Approve? then ManualApprove else if m.instr.Reject? then ManualReject else AutoValidate;
      [HistoryEntry(Some(from), to.value, reason, m.now)]
  }

  ghost function Written(trace: seq<Move>, from: ReviewState): seq<HistoryEntry> {
    if trace == [] then []
    else
      var to := SetsReview(trace[0]);
      Writes(trace[0], from) + Written(trace[1..], if to.Some? then to.value else from)
  }

  /** `u` shows what the steps make of the task `t`. */
  ghost predicate Shows(t: Task, trace: seq<Move>, u: Task) {
    && u.status == LastSet(trace, SetsStatus, t.status)
    && u.error == LastSet(trace, SetsError, t.error)
    && u.review == LastSet(trace, SetsReview, t.review)
    && u.required == LastSet(trace, SetsRequired, t.required)
    && u.decision == LastSet(trace, SetsDecision, t.decision)
    && u.passed == LastSet(trace, SetsPassed, t.passed)
    && u.issues == LastSet(trace, SetsIssues, t.issues)
    && u.score == LastSet(trace, SetsScore, t.score)
    && u.confidence == LastSet(trace, SetsConfidence, t.confidence)
    && u.spu == LastSet(trace, SetsSpu, t.spu)
    && u.registered == LastSet(trace, SetsRegistered, t.registered)
    && u.entered == LastSet(trace, SetsEntered, t.entered)
    && u.audit == t.audit + Collected(trace, Audits)
    && u.history == t.history + Written(trace, t.review)
  }

  // ---------- one step ----------

  function OrElse<T>(a: Option<T>, b: T): T {
    if a.Some? then a.value else b
  }

  /** The fields one step sets, and those it leaves. */
  ghost predicate FieldsMoved(t: Task, m: Move, u: Task) {
    && u.status == OrElse(SetsStatus(m), t.status)
    && u.error == OrElse(SetsError(m), t.error)
    && u.review == OrElse(SetsReview(m), t.review)
    && u.required == OrElse(SetsRequired(m), t.required)
    && u.decision == OrElse(SetsDecision(m), t.decision)
    && u.passed == OrElse(SetsPassed(m), t.passed)
    && u.issues == OrElse(SetsIssues(m), t.issues)
    && u.score == OrElse(SetsScore(m), t.score)
    && u.confidence == OrElse(SetsConfidence(m), t.confidence)
    && u.spu == OrElse(SetsSpu(m), t.spu)
    && u.registered == OrElse(SetsRegistered(m), t.registered)
    && u.entered == OrElse(SetsEntered(m), t.entered)
  }

  /** What one step adds to the two lists. */
  ghost predicate ListsMoved(t: Task, m: Move, u: Task) {
    u.audit == t.audit + Audits(m) && u.history == t.history + Writes(m, t.review)
  }

  ghost predicate Moved(t: Task, m: Move, u: Task) {
    FieldsMoved(t, m, u) && ListsMoved(t, m, u)
  }

  /** A missing document is not well structured. */
  lemma ValidMeansPassed(o: Outcome)
    ensures V.ReviewOf(V.AllIssues(Document(o), o.context, o.confidence), o.confidence).passed <==> Valid(o)
    ensures V.ReviewOf(V.AllIssues(Document(o), o.context, o.confidence), o.confidence).status ==
            if Valid(o) then V.AutoValidated else V.NeedsReview
  {
    hide V.AllIssues, V.ReviewOf, V.CompleteRule, V.ExecutableStep;
    V.AutoValidatedMeans(Document(o), o.context, o.confidence);
  }

  lemma FinishMoves(t: Task, o: Outcome, breaks: bool, now: int)
    ensures Moved(t, Move(Pipeline, Finish(o, breaks), now), Complete(t, o, now))
  {
    ValidMeansPassed(o);
    hide V.AllIssues, V.Count, V.Score, V.WellStructured, Valid, Document;
  }

  lemma ApproveMoves(t: Task, reviewer: string, c: Choice, now: int)
    ensures Moved(t, Move(Approve(reviewer), c, now), ApproveReview(t, reviewer, now))
  {
    var m, u := Move(Approve(reviewer), c, now), ApproveReview(t, reviewer, now);
    assert FieldsMoved(t, m, u) by { hide Audits, Writes; }
    hide FieldsMoved;
    assert Audits(m) == [AuditEvent(ReviewApproved, reviewer, now)];
    assert t.review == Approved ==> t.history + Writes(m, t.review) == t.history;
  }

  lemma RejectMoves(t: Task, reviewer: string, reason: string, c: Choice, now: int)
    ensures Moved(t, Move(Reject(reviewer, reason), c, now), RejectReview(t, reviewer, reason, now))
  {
    var m, u := Move(Reject(reviewer, reason), c, now), RejectReview(t, reviewer, reason, now);
    assert FieldsMoved(t, m, u) by { hide Audits, Writes; }
    hide FieldsMoved;
    assert Audits(m) == [AuditEvent(ReviewRejected, reviewer, now)];
    assert t.review == Rejected ==> t.history + Writes(m, t.review) == t.history;
  }

  lemma RestartMoves(t: Task, c: Choice, now: int)
    ensures Moved(t, Move(Restart, c, now), RestartProcessing(t))
  {
  }

  lemma FailMoves(t: Task, error: string, c: Choice, now: int)
    ensures Moved(t, Move(Fail(error), c, now), MarkError(t, error))
  {
  }

  lemma LogMoves(t: Task, c: Choice, now: int)
    ensures Moved(t, Move(LogTemplate, c, now), AppendAudit(t, AuditEvent(TemplateCreated, "", now)))
  {
  }

  lemma RegisterMoves(t: Task, rest: seq<Instr>, c: Choice, now: int)
    ensures Moved(t, Move(Register, c, now), StepTask(t, Register, rest, c, now).0)
  {
    hide Complete;
  }

  lemma EntryMoves(t: Task, rest: seq<Instr>, c: Choice, now: int)
    ensures Moved(t, Move(MarkEntry, c, now), StepTask(t, MarkEntry, rest, c, now).0)
  {
    hide Complete;
  }

  /** A step that sets no field and adds nothing. */
  ghost predicate Idle(m: Move) {
    Looks(m.instr) || (m.instr == Pipeline && (m.choice.External? || m.choice.Progress? || m.choice.Crash?))
    || (m.instr == Pipeline && m.choice.TemplateEvent? &&
        (m.choice.kind == ReviewApproved || m.choice.kind == ReviewRejected))
  }

  lemma LookSetsNothing(t: Task, m: Move)
    requires Looks(m.instr)
    ensures FieldsMoved(t, m, t)
    ensures Audits(m) == [] && Writes(m, t.review) == []
  {
    hide Valid, LastSet;
  }

  lemma WaitSetsNothing(t: Task, m: Move)
    requires m.instr == Pipeline && Idle(m)
    ensures FieldsMoved(t, m, t)
    ensures Audits(m) == [] && Writes(m, t.review) == []
  {
    hide Valid, LastSet;
  }

  lemma IdleMoves(t: Task, m: Move)
    requires Idle(m)
    ensures Moved(t, m, t)
  {
    if Looks(m.instr) {
      LookSetsNothing(t, m);
    } else {
      WaitSetsNothing(t, m);
    }
    hide FieldsMoved, Audits, Writes;
  }

  lemma EventMoves(t: Task, kind: AuditKind, now: int)
    requires kind != ReviewApproved && kind != ReviewRejected
    ensures Moved(t, Move(Pipeline, TemplateEvent(kind), now), AppendAudit(t, AuditEvent(kind, "", now)))
  {
    hide Valid;
  }

  lemma WaitMoves(t: Task, rest: seq<Instr>, c: Choice, now: int)
    requires !c.Finish?
    ensures Moved(t, Move(Pipeline, c, now), StepTask(t, Pipeline, rest, c, now).0)
  {
    var m := Move(Pipeline, c, now);
    if c.TemplateEvent? && c.kind != ReviewApproved && c.kind != ReviewRejected {
      EventMoves(t, c.kind, now);
    } else {
      IdleMoves(t, m);
    }
    hide Moved;
  }

  /** The checks change nothing. */
  predicate Looks(instr: Instr) {
    || instr.RequireDone? || instr.RequireAllowed? || instr.RequireApproved? || instr.RequireSpu?
    || instr.RequireSpuId? || instr.RequireRestartable? || instr.SkipIfRegistered? || instr.Touch?
  }

  lemma LookStays(t: Task, instr: Instr, rest: seq<Instr>, c: Choice, now: int)
    requires Looks(instr)
    ensures StepTask(t, instr, rest, c, now).0 == t
  {
  }

  lemma StepMoves(t: Task, instr: Instr, rest: seq<Instr>, c: Choice, now: int)
    ensures Moved(t, Move(instr, c, now), StepTask(t, instr, rest, c, now).0)
  {
    hide Moved, Complete, ApproveReview, RejectReview, RestartProcessing, MarkError, AppendAudit, Allowed;
    match instr {
      case Approve(reviewer) => ApproveMoves(t, reviewer, c, now);
      case Reject(reviewer, reason) => RejectMoves(t, reviewer, reason, c, now);
      case Restart => RestartMoves(t, c, now);
      case Fail(error) => FailMoves(t, error, c, now);
      case LogTemplate => LogMoves(t, c, now);
      case Register => RegisterMoves(t, rest, c, now);
      case MarkEntry => EntryMoves(t, rest, c, now);
      case Pipeline =>
        if c.Finish? { FinishMoves(t, c.outcome, c.breaksAfter, now); } else { WaitMoves(t, rest, c, now); }
      case _ =>
        IdleMoves(t, Move(instr, c, now));
        LookStays(t, instr, rest, c, now);
    }
  }

  // ---------- whole runs ----------

  lemma OneMore<T>(m: Move, trace: seq<Move>, sets: Move -> Option<T>, first: T)
    ensures LastSet([m] + trace, sets, first) == LastSet(trace, sets, OrElse(sets(m), first))
  {
    assert ([m] + trace)[1..] == trace;
  }

  /** One step in front of a trace. */
  lemma ShowsAfter(t: Task, m: Move, u: Task, trace: seq<Move>, v: Task)
    requires Moved(t, m, u) && Shows(u, trace, v)
    ensures Shows(t, [m] + trace, v)
  {
    hide SetsStatus, SetsError, SetsReview, SetsRequired, SetsDecision, SetsPassed, SetsIssues, SetsScore,
         SetsConfidence, SetsSpu, SetsRegistered, SetsEntered, Audits, Writes, LastSet, OrElse;
    OneMore(m, trace, SetsStatus, t.status);
    OneMore(m, trace, SetsError, t.error);
    OneMore(m, trace, SetsReview, t.review);
    OneMore(m, trace, SetsRequired, t.required);
    OneMore(m, trace, SetsDecision, t.decision);
    OneMore(m, trace, SetsPassed, t.passed);
    OneMore(m, trace, SetsIssues, t.issues);
    OneMore(m, trace, SetsScore, t.score);
    OneMore(m, trace, SetsConfidence, t.confidence);
    OneMore(m, trace, SetsSpu, t.spu);
    OneMore(m, trace, SetsRegistered, t.registered);
    OneMore(m, trace, SetsEntered, t.entered);
    ListsGrow(t, m, trace);
  }

  lemma ListsGrow(t: Task, m: Move, trace: seq<Move>)
    ensures Collected([m] + trace, Audits) == Audits(m) + Collected(trace, Audits)
    ensures Written([m] + trace, t.review) == Writes(m, t.review) + Written(trace, OrElse(SetsReview(m), t.review))
  {
    assert ([m] + trace)[1..] == trace;
  }

  lemma ShowsItself(t: Task)
    ensures Shows(t, [], t)
  {
  }

  lemma ActionMoves(s: System, a: Action, id: string)
    requires id in s.tasks
    ensures id in Next(s, a).tasks && (StepOn(s, a, id).Some? ==> a.Advance?)
    ensures var step := StepOn(s, a, id);
            if step.None? then Next(s, a).tasks[id] == s.tasks[id]
            else Moved(s.tasks[id], Move(step.value.0, step.value.1, a.now), Next(s, a).tasks[id])
  {
    hide StepTask, Moved, ApproveHandler, RejectHandler, ApplyHandler, ExecuteHandler, SaveHandler, NewTask;
    if a.Advance? && a.thread < |s.threads| && s.threads[a.thread].todo != [] && s.threads[a.thread].task in s.tasks {
      var th := s.threads[a.thread];
      StepMoves(s.tasks[th.task], th.todo[0], th.todo[1..], a.choice, a.now);
    }
  }

  /** After any interleaving a task shows what the steps taken on it make of what it was. */
  lemma {:induction false} RunShows(s: System, actions: seq<Action>, id: string)
    requires id in s.tasks
    ensures id in Run(s, actions).tasks
    ensures Shows(s.tasks[id], Trace(s, actions, id), Run(s, actions).tasks[id])
    decreases |actions|
  {
    hide Next, StepOn, Moved, Shows;
    if actions == [] {
      ShowsItself(s.tasks[id]);
    } else {
      var a := actions[0];
      ActionMoves(s, a, id);
      RunShows(Next(s, a), actions[1..], id);
      var rest := Trace(Next(s, a), actions[1..], id);
      var step := StepOn(s, a, id);
      if step.Some? {
        ShowsAfter(s.tasks[id], Move(step.value.0, step.value.1, a.now), Next(s, a).tasks[id], rest,
                   Run(s, actions).tasks[id]);
      } else {
        assert [] + rest == rest;
      }
    }
  }

  /** A task as it is created: in progress, a draft, nothing decided, nothing kept, and one entry of history. */
  ghost predicate JustCreated(t: Task) {
    && t.status == Processing && t.error == "" && t.review == Draft && !t.required && t.decision == None
    && !t.passed && t.issues == [] && t.score == 0.0 && t.confidence == 0.0
    && t.spu == None && !t.registered && !t.entered && t.audit == []
    && exists now :: t.history == [HistoryEntry(None, Draft, Generated, now)]
  }

  /** From the empty system: a task shows what all the steps ever taken on it make of a task just created. */
  lemma {:induction false} TaskShowsItsSteps(s: System, actions: seq<Action>, id: string)
    requires id !in s.tasks && id in Run(s, actions).tasks
    ensures exists t :: JustCreated(t) && Shows(t, Trace(s, actions, id), Run(s, actions).tasks[id])
    decreases |actions|
  {
    hide Shows, Next, JustCreated;
    var a := actions[0];
    var next := Next(s, a);
    assert [] + Trace(next, actions[1..], id) == Trace(next, actions[1..], id);
    if id in next.tasks {
      NewIsCreated(s, a, id);
      RunShows(next, actions[1..], id);
    } else {
      TaskShowsItsSteps(next, actions[1..], id);
    }
  }

  lemma NewIsCreated(s: System, a: Action, id: string)
    requires id !in s.tasks && id in Next(s, a).tasks
    ensures JustCreated(Next(s, a).tasks[id])
  {
    hide StepTask, ApproveHandler, RejectHandler, ApplyHandler, ExecuteHandler, SaveHandler;
  }
}
