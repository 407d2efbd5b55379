/**
 * Handlers and background pipelines working on one task store. Each is a list of steps; a step is one locked store
 * operation or one look at a task, and steps of different handlers interleave freely.
 */
module ReviewWorkflow {
  import opened Lists
  import opened ReviewTasks
  import V = ReviewValidator

  /** One atomic step of a handler or of the pipeline. */
  datatype Instr =
    | RequireDone
    | RequireAllowed
    | RequireApproved
    | RequireSpu
    | RequireSpuId
    | RequireRestartable
    | SkipIfRegistered(count: nat)
    | Approve(reviewer: string)
    | Reject(reviewer: string, reason: string)
    | Restart
    | Register
    | MarkEntry
    | LogTemplate
    | Pipeline
    | Touch
    | Fail(error: string)

  /** What the surroundings contribute to a step: answers of other services and the pipeline's progress. */
  datatype Choice =
    | External(ok: bool, registered: bool)
    | Progress
    | TemplateEvent(kind: AuditKind)
    | Finish(outcome: Outcome, breaksAfter: bool)
    | Crash(error: string)

  // ---------- the handlers as step sequences ----------

  /** `_ensure_registered` */
  function EnsureRegistered(): seq<Instr> {
    [RequireDone, RequireAllowed, SkipIfRegistered(2), RequireSpu, Register]
  }

  function ApproveHandler(reviewer: string): seq<Instr> {
    [RequireDone, Approve(reviewer), SkipIfRegistered(5)] + EnsureRegistered() +
    [RequireDone, RequireApproved, RequireSpu, LogTemplate]
  }

  function RejectHandler(reviewer: string, reason: string): seq<Instr> {
    [RequireDone, Reject(reviewer, reason)]
  }

  function ApplyHandler(): seq<Instr> {
    [RequireRestartable, Restart, Pipeline]
  }

  function ExecuteHandler(): seq<Instr> {
    [RequireDone, RequireAllowed] + EnsureRegistered() + [RequireSpuId, MarkEntry]
  }

  /** Saving the SPU as a template touches the task and no review. */
  function SaveHandler(): seq<Instr> {
    [RequireDone, RequireAllowed] + EnsureRegistered() + [RequireSpu, RequireSpuId, Touch]
  }

  // ---------- one step on one task ----------

  function Drop(rest: seq<Instr>, n: nat): seq<Instr> {
    if |rest| <= n then [] else rest[n..]
  }

  /** The task and the remaining steps after one step; a failed check ends the handler. */
  function StepTask(t: Task, instr: Instr, rest: seq<Instr>, c: Choice, now: int): (Task, seq<Instr>) {
    match instr
    case RequireDone => (t, if t.status == Done then rest else [])
    case RequireAllowed => (t, if Allowed(t.review) then rest else [])
    case RequireApproved => (t, if t.review == ReviewState.Approved then rest else [])
    case RequireSpu => (t, if t.spu.Some? then rest else [])
    case RequireSpuId => (t, if HasId(t) then rest else [])
    case RequireRestartable => (t, if t.status == Done || t.status == Errored then rest else [])
    case SkipIfRegistered(n) => (t, if t.registered then Drop(rest, n) else rest)
    case Approve(reviewer) => (ApproveReview(t, reviewer, now), rest)
    case Reject(reviewer, reason) => (RejectReview(t, reviewer, reason, now), rest)
    case Restart => (RestartProcessing(t), rest)
    case Register => if c.External? && c.ok then (t.(registered := c.registered), rest) else (t, [])
    case MarkEntry => if c.External? && c.ok then (t.(entered := true), rest) else (t, [])
    case LogTemplate => (AppendAudit(t, AuditEvent(TemplateCreated, "", now)), rest)
    case Pipeline =>
      (match c
       case External(_, _) => (t, [instr] + rest)
       case Progress => (t, [instr] + rest)
       case TemplateEvent(kind) =>
         (if kind == ReviewApproved || kind == ReviewRejected then t else AppendAudit(t, AuditEvent(kind, "", now)),
          [instr] + rest)
       case Finish(outcome, breaks) => (Complete(t, outcome, now), if breaks then [Touch, Fail("")] else [])
       case Crash(error) => (t, [Touch, Fail(error)]))
    case Touch => (t, rest)
    case Fail(error) => (MarkError(t, error), rest)
  }

  // ---------- the system ----------

  datatype Thread = Thread(task: string, todo: seq<Instr>)

  datatype System = System(tasks: map<string, Task>, threads: seq<Thread>)

  datatype Action =
    | Translate(task: string, now: int)
    | StartApprove(task: string, reviewer: string)
    | StartReject(task: string, reviewer: string, reason: string)
    | StartApply(task: string)
    | StartExecute(task: string)
    | StartSave(task: string)
    | Advance(thread: nat, choice: Choice, now: int)

  const EMPTY: System := System(map[], [])

  function Spawn(s: System, task: string, todo: seq<Instr>): System {
    if task in s.tasks then s.(threads := s.threads + [Thread(task, todo)]) else s
  }

  function Next(s: System, a: Action): System {
    match a
    case Translate(task, now) =>
      if task in s.tasks then s
      else System(s.tasks[task := NewTask(now)], s.threads + [Thread(task, [Pipeline])])
    case StartApprove(task, reviewer) => Spawn(s, task, ApproveHandler(reviewer))
    case StartReject(task, reviewer, reason) => Spawn(s, task, RejectHandler(reviewer, reason))
    case StartApply(task) => Spawn(s, task, ApplyHandler())
    case StartExecute(task) => Spawn(s, task, ExecuteHandler())
    case StartSave(task) => Spawn(s, task, SaveHandler())
    case Advance(k, choice, now) =>
      if k >= |s.threads| || s.threads[k].todo == [] || s.threads[k].task !in s.tasks then s
      else
        var th := s.threads[k];
        var r := StepTask(s.tasks[th.task], th.todo[0], th.todo[1..], choice, now);
        System(s.tasks[th.task := r.0], s.threads[k := Thread(th.task, r.1)])
  }

  function Run(s: System, actions: seq<Action>): System
    decreases |actions|
  {
    if actions == [] then s else Run(Next(s, actions[0]), actions[1..])
  }

  // ---------- the invariant holds in every interleaving ----------

  ghost predicate SystemInv(s: System) {
    forall id :: id in s.tasks ==> TaskInv(s.tasks[id])
  }

  lemma FlagsKeepInv(t: Task, registered: bool, entered: bool)
    requires TaskInv(t)
    ensures TaskInv(t.(registered := registered)) && TaskInv(t.(entered := entered))
  {
    hide HistoryOk, Subsequence, ManualHistory, ManualAudit, V.Count;
  }

  lemma StepTaskInv(t: Task, instr: Instr, rest: seq<Instr>, c: Choice, now: int)
    requires TaskInv(t)
    ensures TaskInv(StepTask(t, instr, rest, c, now).0)
  {
    hide TaskInv, Complete, ApproveReview, RejectReview, RestartProcessing, MarkError, AppendAudit, Allowed;
    match instr {
      case Approve(reviewer) => ApproveInv(t, reviewer, now);
      case Reject(reviewer, reason) => RejectInv(t, reviewer, reason, now);
      case Restart => RestartInv(t);
      case Register => if c.External? { FlagsKeepInv(t, c.registered, true); }
      case MarkEntry => FlagsKeepInv(t, true, true);
      case LogTemplate => AuditInv(t, AuditEvent(TemplateCreated, "", now));
      case Pipeline =>
        if c.TemplateEvent? && c.kind != ReviewApproved && c.kind != ReviewRejected {
          AuditInv(t, AuditEvent(c.kind, "", now));
        } else if c.Finish? {
          CompleteInv(t, c.outcome, now);
        }
      case Fail(error) => ErrorInv(t, error);
      case _ =>
    }
  }

  lemma NextKeepsInv(s: System, a: Action)
    requires SystemInv(s)
    ensures SystemInv(Next(s, a)) && s.tasks.Keys <= Next(s, a).tasks.Keys
  {
    hide TaskInv, StepTask, NewTask, ApproveHandler, RejectHandler, ApplyHandler, ExecuteHandler, SaveHandler;
    match a {
      case Translate(task, now) => NewTaskInv(now);
      case Advance(k, choice, now) =>
        if k < |s.threads| && s.threads[k].todo != [] && s.threads[k].task in s.tasks {
          var th := s.threads[k];
          StepTaskInv(s.tasks[th.task], th.todo[0], th.todo[1..], choice, now);
        }
      case _ =>
    }
  }

  lemma {:induction false} RunKeepsInv(s: System, actions: seq<Action>)
    requires SystemInv(s)
    ensures SystemInv(Run(s, actions)) && s.tasks.Keys <= Run(s, actions).tasks.Keys
    decreases |actions|
  {
    if actions != [] {
      NextKeepsInv(s, actions[0]);
      RunKeepsInv(Next(s, actions[0]), actions[1..]);
    }
  }

  /**
   * In every interleaving: a review is required exactly in the states that ask for one, a finished task has left the
   * draft, and so the execution gate passes a finished task exactly when no review is required.
   */
  lemma ReviewGate(actions: seq<Action>, id: string)
    requires id in Run(EMPTY, actions).tasks
    ensures var t := Run(EMPTY, actions).tasks[id];
            && (t.required <==> t.review == NeedsReview || t.review == Rejected)
            && (t.status == Done ==> t.review != Draft && (GateOpen(t) <==> !t.required))
            && (t.review == AutoValidated ==> t.score >= 0.92 && t.confidence >= 0.9 && HasId(t))
  {
    RunKeepsInv(EMPTY, actions);
    hide Run, HistoryOk, Subsequence, ManualHistory, ManualAudit, V.Count;
    assert TaskInv(Run(EMPTY, actions).tasks[id]);
  }

  /** In every interleaving the review history is a chain, and manual entries reappear in the audit in order. */
  lemma ReviewHistory(actions: seq<Action>, id: string)
    requires id in Run(EMPTY, actions).tasks
    ensures var t := Run(EMPTY, actions).tasks[id];
            HistoryOk(t.history, t.review) && Subsequence(ManualHistory(t.history), ManualAudit(t.audit))
  {
    RunKeepsInv(EMPTY, actions);
    hide Run, HistoryOk, Subsequence, ManualHistory, ManualAudit, V.Count;
    assert TaskInv(Run(EMPTY, actions).tasks[id]);
  }

  // ---------- how the gate moves ----------

  predicate Open(s: System, id: string) {
    id in s.tasks && GateOpen(s.tasks[id])
  }

  /** The step an action takes on task `id`, if it takes one. */
  function StepOn(s: System, a: Action, id: string): Option<(Instr, Choice)> {
    if a.Advance? && a.thread < |s.threads| && s.threads[a.thread].todo != [] && s.threads[a.thread].task == id
        && id in s.tasks
    then Some((s.threads[a.thread].todo[0], a.choice)) else None
  }

  function Passes(o: Outcome): bool {
    V.ReviewOf(V.AllIssues(Document(o), o.context, o.confidence), o.confidence).passed
  }

  /** Rejecting, restarting, failing, and finishing with a document that needs review. */
  predicate Closing(step: (Instr, Choice)) {
    || step.0.Reject? || step.0.Restart? || step.0.Fail?
    || (step.0.Pipeline? && step.1.Finish? && !Passes(step.1.outcome))
  }

  /** Finishing with a valid document, and approving a finished task. */
  predicate Opening(t: Task, step: (Instr, Choice)) {
    || (step.0.Approve? && t.status == Done)
    || (step.0.Pipeline? && step.1.Finish? && Passes(step.1.outcome))
  }

  lemma CompleteGate(t: Task, o: Outcome, now: int)
    ensures GateOpen(Complete(t, o, now)) <==> Passes(o)
  {
    hide V.AllIssues, V.Count, V.Score;
  }

  lemma DecisionsMoveGate(t: Task, who: string, reason: string, e: AuditEvent, now: int)
    ensures GateOpen(ApproveReview(t, who, now)) <==> t.status == Done
    ensures !GateOpen(RejectReview(t, who, reason, now))
    ensures !GateOpen(RestartProcessing(t)) && !GateOpen(MarkError(t, reason))
    ensures GateOpen(AppendAudit(t, e)) <==> GateOpen(t)
    ensures forall flag: bool ::
              && (GateOpen(t.(registered := flag)) <==> GateOpen(t))
              && (GateOpen(t.(entered := flag)) <==> GateOpen(t))
  {
  }

  lemma StepMovesGate(t: Task, instr: Instr, rest: seq<Instr>, c: Choice, now: int)
    ensures var u := StepTask(t, instr, rest, c, now).0;
            && (GateOpen(t) ==> (!GateOpen(u) <==> Closing((instr, c))))
            && (!GateOpen(t) ==> (GateOpen(u) <==> Opening(t, (instr, c))))
  {
    hide Complete, Passes, GateOpen, ApproveReview, RejectReview, RestartProcessing, MarkError, AppendAudit, Allowed;
    GateNeedsDone(t);
    match instr {
      case Approve(who) => DecisionsMoveGate(t, who, "", AuditEvent(TemplateCreated, "", now), now);
      case Reject(who, reason) => DecisionsMoveGate(t, who, reason, AuditEvent(TemplateCreated, "", now), now);
      case Fail(error) => DecisionsMoveGate(t, "", error, AuditEvent(TemplateCreated, "", now), now);
      case LogTemplate => DecisionsMoveGate(t, "", "", AuditEvent(TemplateCreated, "", now), now);
      case Pipeline =>
        if c.TemplateEvent? {
          DecisionsMoveGate(t, "", "", AuditEvent(c.kind, "", now), now);
        } else if c.Finish? {
          CompleteGate(t, c.outcome, now);
        }
      case _ => DecisionsMoveGate(t, "", "", AuditEvent(TemplateCreated, "", now), now);
    }
  }

  lemma GateNeedsDone(t: Task)
    ensures GateOpen(t) ==> t.status == Done
  {
  }

  /**
   * An open gate is closed by exactly the closing steps on that task, a closed one opened by exactly the opening ones.
   */
  lemma GateMovesExactly(s: System, a: Action, id: string)
    requires id in s.tasks
    ensures var step := StepOn(s, a, id);
            && (Open(s, id) ==> (!Open(Next(s, a), id) <==> step.Some? && Closing(step.value)))
            && (!Open(s, id) ==> (Open(Next(s, a), id) <==> step.Some? && Opening(s.tasks[id], step.value)))
  {
    hide StepTask, Closing, Opening, GateOpen, ApproveHandler, RejectHandler, ApplyHandler, ExecuteHandler, SaveHandler,
         NewTask;
    if a.Advance? && a.thread < |s.threads| && s.threads[a.thread].todo != [] && s.threads[a.thread].task in s.tasks {
      var th := s.threads[a.thread];
      StepMovesGate(s.tasks[th.task], th.todo[0], th.todo[1..], a.choice, a.now);
    }
  }

  /** No action of the list takes a closing step on `id`. */
  ghost predicate Quiet(s: System, actions: seq<Action>, id: string)
    decreases |actions|
  {
    actions == [] ||
    (!(StepOn(s, actions[0], id).Some? && Closing(StepOn(s, actions[0], id).value)) &&
     Quiet(Next(s, actions[0]), actions[1..], id))
  }

  /** An open gate stays open for as long as nobody takes a closing step. */
  lemma {:induction false} GateStaysOpen(s: System, actions: seq<Action>, id: string)
    requires Open(s, id) && Quiet(s, actions, id)
    ensures Open(Run(s, actions), id)
    decreases |actions|
  {
    if actions != [] {
      GateMovesExactly(s, actions[0], id);
      hide Next, StepOn, Closing, Opening;
      GateStaysOpen(Next(s, actions[0]), actions[1..], id);
    }
  }

  // ---------- a handler on its own ----------

  /** A handler running without interruption, every service giving the same answer. */
  function RunAlone(t: Task, todo: seq<Instr>, c: Choice, steps: nat, now: int): Task
    decreases steps
  {
    if todo == [] || steps == 0 then t
    else
      var r := StepTask(t, todo[0], todo[1..], c, now);
      RunAlone(r.0, r.1, c, steps - 1, now)
  }

  lemma {:induction false} RunAloneStep(t: Task, instr: Instr, rest: seq<Instr>, c: Choice, steps: nat, now: int)
    requires steps > 0
    ensures var r := StepTask(t, instr, rest, c, now);
            RunAlone(t, [instr] + rest, c, steps, now) == RunAlone(r.0, r.1, c, steps - 1, now)
  {
    hide StepTask;
    assert ([instr] + rest)[1..] == rest;
  }

  lemma {:induction false} RunAloneOver(t: Task, c: Choice, steps: nat, now: int)
    ensures RunAlone(t, [], c, steps, now) == t
  {
  }

  /** The end of the execute handler: enter the task if it has an SPU and the platform agrees. */
  lemma EnterAlone(t: Task, c: Choice, steps: nat, now: int)
    requires c.External? && steps >= 2
    ensures RunAlone(t, [RequireSpuId, MarkEntry], c, steps, now) ==
            if HasId(t) && c.ok then t.(entered := true) else t
  {
    RunAloneStep(t, RequireSpuId, [MarkEntry], c, steps, now);
    RunAloneStep(t, MarkEntry, [], c, steps - 1, now);
    hide RunAlone;
    assert [RequireSpuId, MarkEntry] == [RequireSpuId] + [MarkEntry] && [MarkEntry] + [] == [MarkEntry];
    RunAloneOver(t, c, steps - 1, now);
    RunAloneOver(t, c, steps - 2, now);
    RunAloneOver(t.(entered := true), c, steps - 2, now);
  }

  /** One step whose successor is known. */
  lemma {:induction false} Alone(t: Task, todo: seq<Instr>, c: Choice, steps: nat, now: int, u: Task, left: seq<Instr>)
    requires steps > 0 && todo != [] && StepTask(t, todo[0], todo[1..], c, now) == (u, left)
    ensures RunAlone(t, todo, c, steps, now) == RunAlone(u, left, c, steps - 1, now)
  {
  }

  /** From `_ensure_registered` on, with the gate open. */
  lemma {:induction false} RegisterAlone(t: Task, c: Choice, now: int)
    requires c.External? && GateOpen(t)
    ensures RunAlone(t, EnsureRegistered() + [RequireSpuId, MarkEntry], c, 7, now) ==
            if t.registered then (if HasId(t) && c.ok then t.(entered := true) else t)
            else if t.spu.None? || !c.ok then t
            else if HasId(t) then t.(registered := c.registered, entered := true) else t.(registered := c.registered)
  {
    hide RunAlone;
    var enter := [RequireSpuId, MarkEntry];
    var todo := EnsureRegistered() + enter;
    assert todo[1..][1..] == todo[2..] && todo[2..][1..] == todo[3..];
    assert todo[3..][1..] == todo[4..] && todo[4..][1..] == todo[5..] && todo[5..] == enter;
    Alone(t, todo, c, 7, now, t, todo[1..]);
    Alone(t, todo[1..], c, 6, now, t, todo[2..]);
    assert todo[2..] == [SkipIfRegistered(2), RequireSpu, Register] + enter;
    if t.registered {
      assert Drop(todo[3..], 2) == enter;
      Alone(t, todo[2..], c, 5, now, t, enter);
      EnterAlone(t, c, 4, now);
    } else {
      Alone(t, todo[2..], c, 5, now, t, todo[3..]);
      if t.spu.Some? {
        Alone(t, todo[3..], c, 4, now, t, todo[4..]);
        var u := if c.ok then t.(registered := c.registered) else t;
        Alone(t, todo[4..], c, 3, now, u, if c.ok then enter else []);
        EnterAlone(u, c, 2, now);
        RunAloneOver(t, c, 2, now);
      } else {
        Alone(t, todo[3..], c, 4, now, t, []);
        RunAloneOver(t, c, 3, now);
      }
    }
  }

  /**
   * Run without interruption, the execute handler enters a task exactly when the gate is open, there is an SPU and the
   * platform answers; and the gate is still open afterwards.
   */
  lemma ExecuteAlone(t: Task, c: Choice, now: int)
    requires c.External?
    ensures var u := RunAlone(t, ExecuteHandler(), c, 9, now);
            && (u.entered <==> t.entered || (GateOpen(t) && HasId(t) && c.ok))
            && (GateOpen(u) <==> GateOpen(t)) && u.review == t.review && u.status == t.status
  {
    RegisterAloneIfOpen(t, c, now);
    hide RunAlone, EnsureRegistered;
    var todo := ExecuteHandler();
    var ensure := EnsureRegistered() + [RequireSpuId, MarkEntry];
    assert todo == [RequireDone] + ([RequireAllowed] + ensure);
    assert todo[1..] == [RequireAllowed] + ensure;
    assert ([RequireAllowed] + ensure)[1..] == ensure;
    if t.status == Done {
      Alone(t, todo, c, 9, now, t, todo[1..]);
      Alone(t, todo[1..], c, 8, now, t, if Allowed(t.review) then ensure else []);
      RunAloneOver(t, c, 7, now);
    } else {
      Alone(t, todo, c, 9, now, t, []);
      RunAloneOver(t, c, 8, now);
    }
  }

  lemma RegisterAloneIfOpen(t: Task, c: Choice, now: int)
    requires c.External?
    ensures GateOpen(t) ==>
              RunAlone(t, EnsureRegistered() + [RequireSpuId, MarkEntry], c, 7, now) ==
              if t.registered then (if HasId(t) && c.ok then t.(entered := true) else t)
              else if t.spu.None? || !c.ok then t
              else if HasId(t) then t.(registered := c.registered, entered := true) else t.(registered := c.registered)
  {
    if GateOpen(t) {
      RegisterAlone(t, c, now);
    }
  }
}
