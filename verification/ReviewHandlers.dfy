/** What each handler does to a task when nothing interrupts it. */
module ReviewHandlers {
  import opened Lists
  import opened ReviewTasks
  import opened ReviewWorkflow

  function Tail(): seq<Instr> {
    [RequireDone, RequireApproved, RequireSpu, LogTemplate]
  }

  function Logged(t: Task, now: int): Task {
    t.(audit := t.audit + [AuditEvent(TemplateCreated, "", now)])
  }

  /** The end of the approve handler: the SPU becomes a template. */
  lemma {:induction false} TailAlone(t: Task, c: Choice, steps: nat, now: int)
    requires t.status == Done && t.review == Approved && steps >= 4
    ensures RunAlone(t, Tail(), c, steps, now) == if t.spu.Some? then Logged(t, now) else t
  {
    hide RunAlone;
    var todo := Tail();
    assert todo[1..][1..] == todo[2..] && todo[2..][1..] == todo[3..];
    Alone(t, todo, c, steps, now, t, todo[1..]);
    Alone(t, todo[1..], c, steps - 1, now, t, todo[2..]);
    Alone(t, todo[2..], c, steps - 2, now, t, if t.spu.Some? then todo[3..] else []);
    RunAloneOver(t, c, steps - 3, now);
    if t.spu.Some? {
      var u := Logged(t, now);
      assert todo[3..][1..] == [];
      Alone(t, todo[3..], c, steps - 3, now, u, []);
      RunAloneOver(u, c, steps - 4, now);
    }
  }

  /** Registration in between, for a task that is not registered. */
  lemma {:induction false} RegisterThenTail(t: Task, c: Choice, steps: nat, now: int)
    requires c.External? && t.status == Done && t.review == Approved && !t.registered && steps >= 9
    ensures RunAlone(t, EnsureRegistered() + Tail(), c, steps, now) ==
            if t.spu.None? || !c.ok then t else Logged(t.(registered := c.registered), now)
  {
    hide RunAlone, Tail, Logged;
    var todo := EnsureRegistered() + Tail();
    assert todo[1..][1..] == todo[2..] && todo[2..][1..] == todo[3..];
    assert todo[3..][1..] == todo[4..] && todo[4..][1..] == todo[5..];
    Alone(t, todo, c, steps, now, t, todo[1..]);
    Alone(t, todo[1..], c, steps - 1, now, t, todo[2..]);
    Alone(t, todo[2..], c, steps - 2, now, t, todo[3..]);
    Alone(t, todo[3..], c, steps - 3, now, t, if t.spu.Some? then todo[4..] else []);
    RunAloneOver(t, c, steps - 4, now);
    if t.spu.Some? {
      var u := if c.ok then t.(registered := c.registered) else t;
      Alone(t, todo[4..], c, steps - 4, now, u, if c.ok then todo[5..] else []);
      RunAloneOver(t, c, steps - 5, now);
      assert todo[5..] == Tail();
      if c.ok {
        TailAlone(u, c, steps - 5, now);
      }
    }
  }

  lemma HandlerParts(reviewer: string)
    ensures ApproveHandler(reviewer) ==
            [RequireDone] + ([Approve(reviewer)] + ([SkipIfRegistered(5)] + (EnsureRegistered() + Tail())))
    ensures Drop(EnsureRegistered() + Tail(), 5) == Tail()
  {
  }

  /** The task the approve handler makes of a finished task. */
  function AfterApproval(t: Task, reviewer: string, c: Choice, now: int): Task
    requires c.External?
  {
    var u := ApproveReview(t, reviewer, now);
    if t.registered then (if t.spu.Some? then Logged(u, now) else u)
    else if t.spu.None? || !c.ok then u
    else Logged(u.(registered := c.registered), now)
  }

  lemma {:induction false} ApprovalAlone(t: Task, reviewer: string, c: Choice, now: int)
    requires c.External?
    ensures RunAlone(t, ApproveHandler(reviewer), c, 12, now) ==
            if t.status == Done then AfterApproval(t, reviewer, c, now) else t
  {
    hide RunAlone, EnsureRegistered, Tail, ApproveHandler, Logged, Drop;
    HandlerParts(reviewer);
    var after := EnsureRegistered() + Tail();
    var skip := [SkipIfRegistered(5)] + after;
    var decide := [Approve(reviewer)] + skip;
    assert ([RequireDone] + decide)[1..] == decide && decide[1..] == skip && skip[1..] == after;
    Alone(t, [RequireDone] + decide, c, 12, now, t, if t.status == Done then decide else []);
    RunAloneOver(t, c, 11, now);
    if t.status == Done {
      var u := ApproveReview(t, reviewer, now);
      Alone(t, decide, c, 11, now, u, skip);
      Alone(u, skip, c, 10, now, u, if t.registered then Tail() else after);
      hide StepTask;
      if t.registered {
        TailAlone(u, c, 9, now);
      } else {
        RegisterThenTail(u, c, 9, now);
      }
    }
  }

  /**
   * The approve handler leaves an unfinished task alone. It approves a finished one, registers its SPU if the platform
   * answers, and logs a template if there is an SPU and it did not stop at the platform.
   */
  lemma ApproveAlone(t: Task, reviewer: string, c: Choice, now: int)
    requires c.External?
    ensures var u := RunAlone(t, ApproveHandler(reviewer), c, 12, now);
            if t.status != Done then u == t
            else
              && u.review == Approved && !u.required && u.decision == Some(Decision(true, reviewer, "", now))
              && u.registered == (if t.registered then true else t.spu.Some? && c.ok && c.registered)
              && u.audit == t.audit + [AuditEvent(ReviewApproved, reviewer, now)] +
                 (if t.spu.Some? && (t.registered || c.ok) then [AuditEvent(TemplateCreated, "", now)] else [])
              && u == t.(review := u.review, required := u.required, decision := u.decision,
                         registered := u.registered, history := u.history, audit := u.audit)
  {
    hide RunAlone, ApproveHandler;
    ApprovalAlone(t, reviewer, c, now);
  }

  /** The reject handler decides finished tasks only, and closes the gate of what it decides. */
  lemma RejectAlone(t: Task, reviewer: string, reason: string, c: Choice, now: int)
    ensures var u := RunAlone(t, RejectHandler(reviewer, reason), c, 2, now);
            if t.status != Done then u == t
            else
              && u.review == Rejected && u.required && u.decision == Some(Decision(false, reviewer, reason, now))
              && u.audit == t.audit + [AuditEvent(ReviewRejected, reviewer, now)] && !GateOpen(u)
              && u == t.(review := u.review, required := u.required, decision := u.decision,
                         history := u.history, audit := u.audit)
  {
    hide RunAlone;
    var todo := RejectHandler(reviewer, reason);
    Alone(t, todo, c, 2, now, t, if t.status == Done then todo[1..] else []);
    RunAloneOver(t, c, 1, now);
    if t.status == Done {
      var u := RejectReview(t, reviewer, reason, now);
      Alone(t, todo[1..], c, 1, now, u, todo[2..]);
      RunAloneOver(u, c, 0, now);
    }
  }

  /**
   * Applying a template starts a finished or failed task anew; only its history and trail, and the documents of the
   * run before, are not those of a new task.
   */
  lemma ApplyAlone(t: Task, c: Choice, now: int)
    ensures var u := RunAlone(t, ApplyHandler(), c, 2, now);
            if t.status == Processing then u == t
            else u == NewTask(now).(history := t.history, audit := t.audit)
  {
    hide RunAlone;
    var todo := ApplyHandler();
    Alone(t, todo, c, 2, now, t, if t.status == Processing then [] else todo[1..]);
    RunAloneOver(t, c, 1, now);
    if t.status != Processing {
      var u := RestartProcessing(t);
      Alone(t, todo[1..], c, 1, now, u, todo[2..]);
      NoStepsLeft(u, todo[2..], c, now);
    }
  }

  lemma NoStepsLeft(t: Task, todo: seq<Instr>, c: Choice, now: int)
    ensures RunAlone(t, todo, c, 0, now) == t
  {
  }
}
