/** Handlers that interleave: when an execute handler reaches its entry behind an open gate, and when it does not. */
module ReviewInterleavings {
  import opened Lists
  import opened ReviewTasks
  import opened ReviewWorkflow
  import V = ReviewValidator

  // ---------- the gate after a run ----------

  /** How an action moves the gate of `id`: it closes it, opens it, or leaves it as it is. */
  ghost function GateMove(s: System, a: Action, id: string): Option<bool> {
    var step := StepOn(s, a, id);
    if step.None? then None
    else if Closing(step.value) then Some(false)
    else if Opening(s.tasks[id], step.value) then Some(true)
    else None
  }

  /** The last move of the gate during a run, if there is one. */
  ghost function LastMove(s: System, actions: seq<Action>, id: string): Option<bool>
    decreases |actions|
  {
    if actions == [] then None
    else
      var later := LastMove(Next(s, actions[0]), actions[1..], id);
      if later.Some? then later else GateMove(s, actions[0], id)
  }

  lemma NewTaskIsClosed(s: System, a: Action, id: string)
    requires id !in s.tasks
    ensures !Open(s, id) && !Open(Next(s, a), id)
  {
    hide StepTask, ApproveHandler, RejectHandler, ApplyHandler, ExecuteHandler, SaveHandler;
  }

  lemma ClosingIsNotOpening(t: Task, step: (Instr, Choice))
    ensures !(Closing(step) && Opening(t, step))
  {
    hide Passes;
  }

  lemma GateAfter(s: System, a: Action, id: string)
    ensures Open(Next(s, a), id) <==> if GateMove(s, a, id).Some? then GateMove(s, a, id).value else Open(s, id)
  {
    hide Next, Open, Closing, Opening;
    if id in s.tasks {
      GateMovesExactly(s, a, id);
      if StepOn(s, a, id).Some? {
        ClosingIsNotOpening(s.tasks[id], StepOn(s, a, id).value);
      }
    } else {
      NewTaskIsClosed(s, a, id);
    }
  }

  /** After any run the gate is open exactly if its last move opened it, or it never moved and was open at the start. */
  lemma {:induction false} OpenAfterRun(s: System, actions: seq<Action>, id: string)
    ensures Open(Run(s, actions), id) <==>
            if LastMove(s, actions, id).Some? then LastMove(s, actions, id).value else Open(s, id)
    decreases |actions|
  {
    hide Next, Open, GateMove;
    if actions != [] {
      GateAfter(s, actions[0], id);
      OpenAfterRun(Next(s, actions[0]), actions[1..], id);
    }
  }

  // ---------- an execute handler among others ----------

  /**
   * How far thread `k`, an execute handler, has come: it has not looked, it has seen a finished task that is still
   * finished, it has given up, or the gate is open.
   */
  ghost predicate Looking(s: System, k: nat, id: string) {
    && k < |s.threads| && s.threads[k].task == id
    && var todo := s.threads[k].todo;
    || todo == ExecuteHandler() || todo == []
    || (todo == ExecuteHandler()[1..] && id in s.tasks && s.tasks[id].status == Done)
    || Open(s, id)
  }

  /** Only closing steps take a finished task back. */
  lemma DoneStays(t: Task, instr: Instr, rest: seq<Instr>, c: Choice, now: int)
    requires t.status == Done && !Closing((instr, c))
    ensures StepTask(t, instr, rest, c, now).0.status == Done
  {
    hide V.ReviewOf, V.AllIssues, Passes;
  }

  lemma HandlerStart()
    ensures ExecuteHandler() != [] && ExecuteHandler()[0] == RequireDone
    ensures ExecuteHandler()[1..] != [] && ExecuteHandler()[1..][0] == RequireAllowed
    ensures [MarkEntry] != ExecuteHandler() && [MarkEntry] != ExecuteHandler()[1..]
  {
  }

  /** The handler's own step. */
  lemma OwnStepLooks(s: System, k: nat, id: string, choice: Choice, now: int)
    requires Looking(s, k, id) && GateMove(s, Advance(k, choice, now), id) != Some(false)
    ensures Looking(Next(s, Advance(k, choice, now)), k, id)
  {
    GateAfter(s, Advance(k, choice, now), id);
    HandlerStart();
    hide ExecuteHandler, Complete, GateMove, ApproveReview, RejectReview, RestartProcessing, MarkError;
  }

  /** A step of somebody else, or a new handler. */
  lemma OtherStepLooks(s: System, k: nat, id: string, a: Action)
    requires Looking(s, k, id) && GateMove(s, a, id) != Some(false) && !(a.Advance? && a.thread == k)
    ensures Looking(Next(s, a), k, id)
  {
    GateAfter(s, a, id);
    hide ExecuteHandler, Open, StepTask, ApproveHandler, RejectHandler, ApplyHandler, SaveHandler, NewTask, Opening;
    if StepOn(s, a, id).Some? && s.tasks[id].status == Done {
      var th := s.threads[a.thread];
      DoneStays(s.tasks[id], th.todo[0], th.todo[1..], a.choice, a.now);
    }
  }

  lemma {:induction false} LooksHold(s: System, actions: seq<Action>, k: nat, id: string)
    requires Looking(s, k, id) && Quiet(s, actions, id)
    ensures Looking(Run(s, actions), k, id)
    decreases |actions|
  {
    hide Next, Looking, StepOn, Closing, Opening;
    if actions != [] {
      if actions[0].Advance? && actions[0].thread == k {
        OwnStepLooks(s, k, id, actions[0].choice, actions[0].now);
      } else {
        OtherStepLooks(s, k, id, actions[0]);
      }
      LooksHold(Next(s, actions[0]), actions[1..], k, id);
    }
  }

  /**
   * Whatever else happens in between: a handler that came as far as its entry while nobody took a closing step stands
   * behind an open gate, although its two looks at the task are separate steps and the gate may have been closed when
   * it began.
   */
  lemma QuietEntry(s: System, actions: seq<Action>, k: nat, id: string)
    requires k < |s.threads| && s.threads[k] == Thread(id, ExecuteHandler()) && Quiet(s, actions, id)
    requires var e := Run(s, actions); k < |e.threads| && e.threads[k].todo == [MarkEntry]
    ensures Open(Run(s, actions), id)
  {
    LooksHold(s, actions, k, id);
    HandlerStart();
    hide Run, Quiet, ExecuteHandler, Open;
  }

  lemma {:induction false} NoMoveIsQuiet(s: System, actions: seq<Action>, id: string)
    requires LastMove(s, actions, id).None?
    ensures Quiet(s, actions, id)
    decreases |actions|
  {
    hide Next, Closing, Opening;
    if actions != [] {
      NoMoveIsQuiet(Next(s, actions[0]), actions[1..], id);
    }
  }

  /**
   * In every interleaving an execute handler stands at its entry behind an open gate exactly if the last step that
   * moved the gate since the handler began was not a closing one.
   */
  lemma EntryBehindOpenGate(s: System, actions: seq<Action>, k: nat, id: string)
    requires k < |s.threads| && s.threads[k] == Thread(id, ExecuteHandler())
    requires var e := Run(s, actions); k < |e.threads| && e.threads[k].todo == [MarkEntry]
    ensures Open(Run(s, actions), id) <==> LastMove(s, actions, id) != Some(false)
  {
    OpenAfterRun(s, actions, id);
    hide Run, LastMove, ExecuteHandler, Open;
    if LastMove(s, actions, id).None? {
      NoMoveIsQuiet(s, actions, id);
      QuietEntry(s, actions, k, id);
    }
  }

  /** The entry itself leaves the gate as it is. */
  lemma EntryKeepsGate(s: System, k: nat, id: string, choice: Choice, now: int)
    requires k < |s.threads| && s.threads[k] == Thread(id, [MarkEntry])
    ensures Open(Next(s, Advance(k, choice, now)), id) <==> Open(s, id)
  {
    GateAfter(s, Advance(k, choice, now), id);
    hide Open, Next;
  }

  // ---------- a gate that closes between look and entry ----------

  lemma {:induction false} RunStep(s: System, actions: seq<Action>, next: System)
    requires actions != [] && Next(s, actions[0]) == next
    ensures Run(s, actions) == Run(next, actions[1..])
  {
  }

  /** Advancing one thread, when the outcome of its step is known. */
  lemma {:induction false} Move(s: System, actions: seq<Action>, k: nat, c: Choice, now: int, id: string,
                                todo: seq<Instr>, u: Task, left: seq<Instr>)
    requires actions != [] && actions[0] == Advance(k, c, now)
    requires k < |s.threads| && s.threads[k] == Thread(id, todo) && todo != [] && id in s.tasks
    requires StepTask(s.tasks[id], todo[0], todo[1..], c, now) == (u, left)
    ensures Run(s, actions) == Run(System(s.tasks[id := u], s.threads[k := Thread(id, left)]), actions[1..])
  {
    hide StepTask, Run;
    RunStep(s, actions, System(s.tasks[id := u], s.threads[k := Thread(id, left)]));
  }

  /** A step that only looks. */
  lemma {:induction false} Look(s: System, actions: seq<Action>, k: nat, c: Choice, now: int, id: string,
                                todo: seq<Instr>, left: seq<Instr>)
    requires actions != [] && actions[0] == Advance(k, c, now)
    requires k < |s.threads| && s.threads[k] == Thread(id, todo) && todo != [] && id in s.tasks
    requires StepTask(s.tasks[id], todo[0], todo[1..], c, now) == (s.tasks[id], left)
    ensures Run(s, actions) == Run(s.(threads := s.threads[k := Thread(id, left)]), actions[1..])
  {
    hide StepTask, Run;
    Move(s, actions, k, c, now, id, todo, s.tasks[id], left);
    assert s.tasks[id := s.tasks[id]] == s.tasks;
  }

  /** The looks of the execute handler at a registered task, one after the other. */
  lemma {:induction false} LooksPass(s: System, actions: seq<Action>, k: nat, c: Choice, now: int, id: string)
    requires k < |s.threads| && s.threads[k] == Thread(id, ExecuteHandler()) && id in s.tasks
    requires GateOpen(s.tasks[id]) && HasId(s.tasks[id]) && s.tasks[id].registered
    requires |actions| >= 6 && forall i :: 0 <= i < 6 ==> actions[i] == Advance(k, c, now)
    ensures Run(s, actions) == Run(s.(threads := s.threads[k := Thread(id, [MarkEntry])]), actions[6..])
  {
    hide Run;
    var todo := ExecuteHandler();
    var s1 := s.(threads := s.threads[k := Thread(id, todo[1..])]);
    var s2 := s.(threads := s.threads[k := Thread(id, todo[2..])]);
    var s3 := s.(threads := s.threads[k := Thread(id, todo[3..])]);
    var s4 := s.(threads := s.threads[k := Thread(id, todo[4..])]);
    var s5 := s.(threads := s.threads[k := Thread(id, [RequireSpuId, MarkEntry])]);
    var s6 := s.(threads := s.threads[k := Thread(id, [MarkEntry])]);
    assert Drop(todo[5..], 2) == [RequireSpuId, MarkEntry];
    assert [RequireSpuId, MarkEntry][1..] == [MarkEntry];
    Look(s, actions, k, c, now, id, todo, todo[1..]);
    Look(s1, actions[1..], k, c, now, id, todo[1..], todo[2..]);
    Look(s2, actions[2..], k, c, now, id, todo[2..], todo[3..]);
    Look(s3, actions[3..], k, c, now, id, todo[3..], todo[4..]);
    Look(s4, actions[4..], k, c, now, id, todo[4..], [RequireSpuId, MarkEntry]);
    Look(s5, actions[5..], k, c, now, id, [RequireSpuId, MarkEntry], [MarkEntry]);
    assert s1.threads[k := Thread(id, todo[2..])] == s2.threads;
    assert s2.threads[k := Thread(id, todo[3..])] == s3.threads;
    assert s3.threads[k := Thread(id, todo[4..])] == s4.threads;
    assert s4.threads[k := Thread(id, [RequireSpuId, MarkEntry])] == s5.threads;
    assert s5.threads[k := Thread(id, [MarkEntry])] == s6.threads;
  }

  lemma EnteringKeepsGate(t: Task)
    ensures GateOpen(t.(entered := true)) <==> GateOpen(t)
  {
  }

  /** A rejection between the last look and the entry: the task is entered although its gate is closed. */
  function Interruption(n: nat, id: string, c: Choice): seq<Action> {
    [StartExecute(id)] + seq(6, _ => Advance(n, c, 0)) +
    [StartReject(id, "reviewer", "reason"), Advance(n + 1, c, 0), Advance(n + 1, c, 0), Advance(n, c, 0)]
  }

  lemma {:induction false} RejectedThenEntered(s: System, id: string, n: nat, c: Choice)
    requires n + 1 == |s.threads| && s.threads[n] == Thread(id, [MarkEntry])
    requires id in s.tasks && GateOpen(s.tasks[id]) && c == External(true, true)
    ensures var e := Run(s, [StartReject(id, "reviewer", "reason"), Advance(n + 1, c, 0), Advance(n + 1, c, 0),
                             Advance(n, c, 0)]);
            id in e.tasks && e.tasks[id] == RejectReview(s.tasks[id], "reviewer", "reason", 0).(entered := true)
  {
    hide Run, RejectReview;
    var t := s.tasks[id];
    var u := RejectReview(t, "reviewer", "reason", 0);
    var look, reject, enter := Advance(n + 1, c, 0), Reject("reviewer", "reason"), Thread(id, [MarkEntry]);
    var actions := [StartReject(id, "reviewer", "reason"), look, look, Advance(n, c, 0)];
    var s1 := System(s.tasks, s.threads + [Thread(id, [RequireDone, reject])]);
    var s2 := System(s.tasks, s1.threads[n + 1 := Thread(id, [reject])]);
    var s3 := System(s.tasks[id := u], s2.threads[n + 1 := Thread(id, [])]);
    var s4 := System(s3.tasks[id := u.(entered := true)], s3.threads[n := Thread(id, [])]);
    RunStep(s, actions, s1);
    assert actions[1..] == [look, look, Advance(n, c, 0)] && [RequireDone, reject][1..] == [reject]
        && [reject][1..] == [];
    Look(s1, actions[1..], n + 1, c, 0, id, [RequireDone, reject], [reject]);
    Move(s2, actions[2..], n + 1, c, 0, id, [reject], u, []);
    assert s3.threads[n] == enter && [MarkEntry][1..] == [];
    Move(s3, actions[3..], n, c, 0, id, [MarkEntry], u.(entered := true), []);
    RunNothing(s4);
    assert actions[1..][1..] == actions[2..] && actions[2..][1..] == actions[3..] && actions[3..][1..] == [];
  }

  lemma {:induction false} RunNothing(s: System)
    ensures Run(s, []) == s
  {
  }

  /**
   * From every state with a registered task behind an open gate, some interleaving enters the task although its gate is
   * closed by then: the looks of the handler and its entry are separate steps.
   */
  lemma {:induction false} EntryBehindClosedGate(s: System, id: string)
    requires Open(s, id) && HasId(s.tasks[id]) && s.tasks[id].registered
    ensures var e := Run(s, Interruption(|s.threads|, id, External(true, true)));
            id in e.tasks && e.tasks[id].entered && !GateOpen(e.tasks[id])
  {
    var n, c := |s.threads|, External(true, true);
    var actions := Interruption(n, id, c);
    var s1 := System(s.tasks, s.threads + [Thread(id, ExecuteHandler())]);
    var s2 := System(s.tasks, s.threads + [Thread(id, [MarkEntry])]);
    hide Run, ExecuteHandler, GateOpen;
    RunStep(s, actions, s1);
    assert forall i :: 0 <= i < 6 ==> actions[1..][i] == Advance(n, c, 0);
    LooksPass(s1, actions[1..], n, c, 0, id);
    assert s1.threads[n := Thread(id, [MarkEntry])] == s2.threads;
    assert actions[1..][6..] == [StartReject(id, "reviewer", "reason"), Advance(n + 1, c, 0), Advance(n + 1, c, 0),
                                 Advance(n, c, 0)];
    RejectedThenEntered(s2, id, n, c);
    DecisionsMoveGate(s.tasks[id], "reviewer", "reason", AuditEvent(ReviewRejected, "", 0), 0);
    EnteringKeepsGate(RejectReview(s.tasks[id], "reviewer", "reason", 0));
  }

  // ---------- runs from the empty store ----------

  /** A store with one task and these handlers at work on it. */
  ghost function One(id: string, t: Task, todos: seq<seq<Instr>>): System {
    System(map[id := t], seq(|todos|, i requires 0 <= i < |todos| => Thread(id, todos[i])))
  }

  ghost predicate NeverOpen(s: System, actions: seq<Action>, id: string)
    decreases |actions|
  {
    !Open(s, id) && (actions == [] || NeverOpen(Next(s, actions[0]), actions[1..], id))
  }

  /** The path leads from the empty store to this one; `closed` says that the gate stayed closed all along. */
  ghost predicate Arrives(id: string, path: seq<Action>, closed: bool, t: Task, todos: seq<seq<Instr>>) {
    Run(EMPTY, path) == One(id, t, todos) && (closed ==> NeverOpen(EMPTY, path, id))
  }

  lemma {:induction false} RunConcat(s: System, a: seq<Action>, b: seq<Action>)
    ensures Run(s, a + b) == Run(Run(s, a), b)
    decreases |a|
  {
    hide Next;
    if a == [] {
      assert a + b == b;
    } else {
      assert (a + b)[0] == a[0] && (a + b)[1..] == a[1..] + b;
      RunConcat(Next(s, a[0]), a[1..], b);
    }
  }

  lemma {:induction false} NeverOpenSnoc(s: System, path: seq<Action>, a: Action, id: string)
    requires NeverOpen(s, path, id) && !Open(Next(Run(s, path), a), id)
    ensures NeverOpen(s, path + [a], id)
    decreases |path|
  {
    hide Next, Open;
    if path == [] {
      assert (path + [a])[1..] == [];
    } else {
      assert (path + [a])[0] == path[0] && (path + [a])[1..] == path[1..] + [a];
      NeverOpenSnoc(Next(s, path[0]), path[1..], a, id);
    }
  }

  lemma OneMore(s: System, a: Action)
    ensures Run(s, [a]) == Next(s, a)
  {
    hide Next;
    RunNothing(Next(s, a));
    assert [a][1..] == [];
    RunStep(s, [a], Next(s, a));
  }

  /** One more action. */
  lemma Go(id: string, path: seq<Action>, closed: bool, t: Task, todos: seq<seq<Instr>>, a: Action,
           u: Task, lefts: seq<seq<Instr>>) returns (more: seq<Action>)
    requires Arrives(id, path, closed, t, todos) && Next(One(id, t, todos), a) == One(id, u, lefts)
    requires closed ==> !GateOpen(u)
    ensures Arrives(id, more, closed, u, lefts) && more == path + [a]
  {
    hide Next, Run, GateOpen;
    more := path + [a];
    RunConcat(EMPTY, path, [a]);
    OneMore(One(id, t, todos), a);
    if closed {
      NeverOpenSnoc(EMPTY, path, a, id);
    }
  }

  /** One more step of handler `k`. */
  lemma Move1(id: string, path: seq<Action>, closed: bool, t: Task, todos: seq<seq<Instr>>, k: nat, c: Choice,
              u: Task, left: seq<Instr>) returns (more: seq<Action>)
    requires Arrives(id, path, closed, t, todos) && k < |todos| && todos[k] != []
    requires StepTask(t, todos[k][0], todos[k][1..], c, 0) == (u, left) && (closed ==> !GateOpen(u))
    ensures Arrives(id, more, closed, u, todos[k := left])
  {
    hide StepTask, GateOpen, Arrives;
    assert map[id := t][id := u] == map[id := u];
    assert One(id, t, todos).threads[k := Thread(id, left)] == One(id, u, todos[k := left]).threads;
    more := Go(id, path, closed, t, todos, Advance(k, c, 0), u, todos[k := left]);
  }

  /** A new handler. */
  lemma Start1(id: string, path: seq<Action>, closed: bool, t: Task, todos: seq<seq<Instr>>, a: Action,
               todo: seq<Instr>)
      returns (more: seq<Action>)
    requires Arrives(id, path, closed, t, todos) && (closed ==> !GateOpen(t))
    requires Next(One(id, t, todos), a) == Spawn(One(id, t, todos), id, todo)
    ensures Arrives(id, more, closed, t, todos + [todo])
  {
    hide GateOpen, Arrives, Next;
    assert One(id, t, todos).threads + [Thread(id, todo)] == One(id, t, todos + [todo]).threads;
    more := Go(id, path, closed, t, todos, a, t, todos + [todo]);
  }

  /** A document that needs review. */
  function Doubtful(): Outcome {
    Outcome(Some(V.Spu("spu", "", "", "", "", None, None, None, None)), V.Context([], [], s => s, s => None), 0.0,
            false)
  }

  lemma DoubtfulDoesNotPass()
    ensures !Passes(Doubtful())
  {
    hide V.AllIssues, V.WellStructured, V.ReviewOf;
    V.AutoValidatedMeans(Document(Doubtful()), Doubtful().context, 0.0);
  }

  /** Finished with a document that needs review: the gate stays closed, nothing is registered, the SPU is there. */
  lemma FinishedDoubtful(t: Task)
    ensures var u := Complete(t, Doubtful(), 0);
            u.status == Done && !Allowed(u.review) && HasId(u) && !u.registered
  {
    DoubtfulDoesNotPass();
    hide V.AllIssues, V.Count, V.Score;
  }

  lemma Translated(id: string) returns (path: seq<Action>)
    ensures Arrives(id, path, true, NewTask(0), [[Pipeline]])
  {
    path := [Translate(id, 0)];
    OneMore(EMPTY, path[0]);
    NewTaskIsClosed(EMPTY, path[0], id);
    hide Run, Open, NewTask;
    assert EMPTY.tasks[id := NewTask(0)] == map[id := NewTask(0)];
    assert EMPTY.threads + [Thread(id, [Pipeline])] == One(id, NewTask(0), [[Pipeline]]).threads;
    assert Next(EMPTY, path[0]) == One(id, NewTask(0), [[Pipeline]]);
    assert NeverOpen(Next(EMPTY, path[0]), [], id);
    assert path[1..] == [];
  }

  // ---------- an entry behind a gate that was never open ----------

  /**
   * One round of bad luck for a handler about to look: it sees a finished task, the pipeline marks an error, a reviewer
   * who had looked before approves, and the handler sees an approved task. The gate is closed throughout.
   */
  lemma Round(id: string, start: seq<Action>, t: Task, todos: seq<seq<Instr>>, h: nat, p: nat, a: nat, reviewer: string)
      returns (path: seq<Action>)
    requires Arrives(id, start, true, t, todos) && t.status == Done && !Allowed(t.review)
    requires h < |todos| && p < |todos| && a < |todos| && h != p && h != a && p != a
    requires |todos[h]| > 2 && todos[h][0] == RequireDone && todos[h][1] == RequireAllowed
    requires todos[p] == [Touch, Fail("")] && todos[a] != [] && todos[a][0] == Approve(reviewer)
    ensures Arrives(id, path, true, ApproveReview(MarkError(t, ""), reviewer, 0),
                    todos[h := todos[h][2..]][p := []][a := todos[a][1..]])
  {
    hide Arrives;
    var c, broken := Progress, MarkError(t, "");
    var u := ApproveReview(broken, reviewer, 0);
    var s1 := todos[h := todos[h][1..]];
    path := Move1(id, start, true, t, todos, h, c, t, todos[h][1..]);
    assert s1[p] == [Touch, Fail("")] && s1[p][1..] == [Fail("")] && [Fail("")][1..] == [];
    path := Move1(id, path, true, t, s1, p, c, t, [Fail("")]);
    var s2 := s1[p := [Fail("")]];
    path := Move1(id, path, true, t, s2, p, c, broken, []);
    var s3 := s2[p := []];
    assert s3[a] == todos[a];
    path := Move1(id, path, true, broken, s3, a, c, u, todos[a][1..]);
    var s4 := s3[a := todos[a][1..]];
    assert s4[h] == todos[h][1..] && todos[h][1..][1..] == todos[h][2..];
    path := Move1(id, path, true, u, s4, h, c, u, todos[h][2..]);
    assert s4[h := todos[h][2..]] == todos[h := todos[h][2..]][p := []][a := todos[a][1..]];
  }

  /**
   * A pipeline that finishes doubtfully and will break afterwards, two reviewers who have looked, an execute handler.
   */
  function Setting(): seq<seq<Instr>> {
    [[Touch, Fail("")], ApproveHandler("a")[1..], ApproveHandler("b")[1..], ExecuteHandler()]
  }

  lemma SetUp(id: string) returns (path: seq<Action>)
    ensures Arrives(id, path, true, Complete(NewTask(0), Doubtful(), 0), Setting())
  {
    hide Arrives, Complete, ApproveHandler, ExecuteHandler, NewTask, Passes;
    path := Translated(id);
    var t := Complete(NewTask(0), Doubtful(), 0);
    var p := [Touch, Fail("")];
    var a, b := ApproveHandler("a"), ApproveHandler("b");
    FinishedDoubtful(NewTask(0));
    StepFinish(NewTask(0), true);
    ApproverPart("a");
    ApproverPart("b");
    assert [[Pipeline]][0] == [Pipeline] && [Pipeline][1..] == [];
    path := Move1(id, path, true, NewTask(0), [[Pipeline]], 0, Finish(Doubtful(), true), t, p);
    assert [[Pipeline]][0 := p] == [p];
    path := Start1(id, path, true, t, [p], StartApprove(id, "a"), a);
    assert [p] + [a] == [p, a];
    path := Move1(id, path, true, t, [p, a], 1, Progress, t, a[1..]);
    assert [p, a][1 := a[1..]] == [p, a[1..]];
    path := Start1(id, path, true, t, [p, a[1..]], StartApprove(id, "b"), b);
    assert [p, a[1..]] + [b] == [p, a[1..], b];
    path := Move1(id, path, true, t, [p, a[1..], b], 2, Progress, t, b[1..]);
    assert [p, a[1..], b][2 := b[1..]] == [p, a[1..], b[1..]];
    path := Start1(id, path, true, t, [p, a[1..], b[1..]], StartExecute(id), ExecuteHandler());
    assert [p, a[1..], b[1..]] + [ExecuteHandler()] == Setting();
  }

  /** After the error the task is applied to again and finishes as doubtfully as before. */
  lemma AppliedAgain(id: string, start: seq<Action>, t: Task, todos: seq<seq<Instr>>) returns (path: seq<Action>)
    requires Arrives(id, start, true, t, todos) && t.status == Errored
    ensures Arrives(id, path, true, Complete(RestartProcessing(t), Doubtful(), 0), todos + [[Touch, Fail("")]])
  {
    hide Arrives, Complete, Passes;
    var k := |todos|;
    var u := RestartProcessing(t);
    FinishedDoubtful(u);
    StepFinish(u, true);
    ApplySteps();
    path := Start1(id, start, true, t, todos, StartApply(id), ApplyHandler());
    var s1 := todos + [ApplyHandler()];
    path := Move1(id, path, true, t, s1, k, Progress, t, [Restart, Pipeline]);
    var s2 := s1[k := [Restart, Pipeline]];
    path := Move1(id, path, true, t, s2, k, Progress, u, [Pipeline]);
    var s3 := s2[k := [Pipeline]];
    path := Move1(id, path, true, u, s3, k, Finish(Doubtful(), true), Complete(u, Doubtful(), 0), [Touch, Fail("")]);
    assert s3[k := [Touch, Fail("")]] == todos + [[Touch, Fail("")]];
  }

  lemma ApplySteps()
    ensures ApplyHandler() == [RequireRestartable, Restart, Pipeline] && ApplyHandler()[1..] == [Restart, Pipeline]
    ensures [Restart, Pipeline][1..] == [Pipeline] && [Pipeline][1..] == []
  {
  }

  /** What is left of the handler after its second pair of looks. */
  lemma LastSteps(id: string, start: seq<Action>, t: Task, todos: seq<seq<Instr>>) returns (path: seq<Action>)
    requires Arrives(id, start, true, t, todos) && t.status == Errored && HasId(t) && !t.registered
    requires |todos| > 3 && todos[3] == [SkipIfRegistered(2), RequireSpu, Register, RequireSpuId, MarkEntry]
    ensures Arrives(id, path, true, t.(registered := true, entered := true), todos[3 := []])
  {
    hide Arrives;
    var c, u := External(true, true), t.(registered := true);
    var todo := todos[3];
    path := Move1(id, start, true, t, todos, 3, c, t, todo[1..]);
    var s1 := todos[3 := todo[1..]];
    path := Move1(id, path, true, t, s1, 3, c, t, todo[2..]);
    var s2 := s1[3 := todo[2..]];
    path := Move1(id, path, true, t, s2, 3, c, u, todo[3..]);
    var s3 := s2[3 := todo[3..]];
    path := Move1(id, path, true, u, s3, 3, c, u, todo[4..]);
    var s4 := s3[3 := todo[4..]];
    assert todo[4..] == [MarkEntry] && [MarkEntry][1..] == [];
    path := Move1(id, path, true, u, s4, 3, c, u.(entered := true), []);
    assert s4[3 := []] == todos[3 := []];
  }

  lemma HandlerParts()
    ensures ExecuteHandler() == [RequireDone, RequireAllowed, RequireDone, RequireAllowed, SkipIfRegistered(2),
                                 RequireSpu, Register, RequireSpuId, MarkEntry]
    ensures ExecuteHandler()[2..] == [RequireDone, RequireAllowed, SkipIfRegistered(2), RequireSpu, Register,
                                      RequireSpuId, MarkEntry]
    ensures ExecuteHandler()[2..][2..] == [SkipIfRegistered(2), RequireSpu, Register, RequireSpuId, MarkEntry]
    ensures forall r :: |ApproveHandler(r)[1..]| > 0 && ApproveHandler(r)[1..][0] == Approve(r)
  {
  }

  /** From the empty store an execute handler can enter a task whose gate was closed in every state of the run. */
  lemma NeverOpenYetEntered(id: string) returns (path: seq<Action>)
    ensures NeverOpen(EMPTY, path, id)
    ensures var e := Run(EMPTY, path); id in e.tasks && e.tasks[id].entered
  {
    hide NeverOpen, Run, Complete, ApproveHandler, ExecuteHandler, NewTask;
    path := SetUp(id);
    HandlerParts();
    var t1 := Complete(NewTask(0), Doubtful(), 0);
    FinishedDoubtful(NewTask(0));
    path := Round(id, path, t1, Setting(), 3, 0, 1, "a");
    var t2 := ApproveReview(MarkError(t1, ""), "a", 0);
    var todos2 := Setting()[3 := Setting()[3][2..]][0 := []][1 := Setting()[1][1..]];
    path := AppliedAgain(id, path, t2, todos2);
    var t3 := Complete(RestartProcessing(t2), Doubtful(), 0);
    FinishedDoubtful(RestartProcessing(t2));
    var todos3 := todos2 + [[Touch, Fail("")]];
    path := Round(id, path, t3, todos3, 3, 4, 2, "b");
    var t4 := ApproveReview(MarkError(t3, ""), "b", 0);
    var todos4 := todos3[3 := todos3[3][2..]][4 := []][2 := todos3[2][1..]];
    path := LastSteps(id, path, t4, todos4);
  }

  // ---------- a run to an open gate ----------

  lemma ApproverPart(reviewer: string)
    ensures |ApproveHandler(reviewer)| >= 8
    ensures ApproveHandler(reviewer) == [RequireDone, Approve(reviewer)] + ApproveHandler(reviewer)[2..]
    ensures ApproveHandler(reviewer)[2..] == [SkipIfRegistered(5)] +
            (EnsureRegistered() + ApproveHandler(reviewer)[8..])
  {
  }

  /** The gate opens and the approving handler registers the task: everything an entry needs. */
  lemma OpenIsReachable(id: string) returns (path: seq<Action>)
    ensures var s := Run(EMPTY, path); Open(s, id) && HasId(s.tasks[id]) && s.tasks[id].registered
  {
    hide Run, StepTask, Complete, ApproveReview, GateOpen, ApproveHandler, NewTask;
    path := Translated(id);
    var t := Complete(NewTask(0), Doubtful(), 0);
    FinishedDoubtful(NewTask(0));
    path := Loosen(id, path, NewTask(0), [[Pipeline]]);
    StepFinish(NewTask(0), false);
    assert [[Pipeline]][0] == [Pipeline] && [Pipeline][1..] == [];
    path := Move1(id, path, false, NewTask(0), [[Pipeline]], 0, Finish(Doubtful(), false), t, []);
    assert [[Pipeline]][0 := []] == [[]];
    path := Start1(id, path, false, t, [[]], StartApprove(id, "reviewer"), ApproveHandler("reviewer"));
    path := ApprovedAndRegistered(id, path, t);
    RegisteredIsOpen(t);
  }

  lemma Loosen(id: string, path: seq<Action>, t: Task, todos: seq<seq<Instr>>) returns (same: seq<Action>)
    requires Arrives(id, path, true, t, todos)
    ensures Arrives(id, same, false, t, todos)
  {
    same := path;
  }

  lemma StepFinish(t: Task, breaks: bool)
    ensures StepTask(t, Pipeline, [], Finish(Doubtful(), breaks), 0) ==
            (Complete(t, Doubtful(), 0), if breaks then [Touch, Fail("")] else [])
  {
    hide Complete;
  }

  lemma RegisteredIsOpen(t: Task)
    requires t.status == Done && HasId(t)
    ensures var u := ApproveReview(t, "reviewer", 0).(registered := true); GateOpen(u) && HasId(u) && u.registered
  {
  }

  /** A handler's look at the task, when it passes. */
  lemma Pass1(id: string, start: seq<Action>, t: Task, todo: seq<Instr>) returns (path: seq<Action>)
    requires Arrives(id, start, false, t, [[], todo]) && todo != []
    requires StepTask(t, todo[0], todo[1..], External(true, true), 0) == (t, todo[1..])
    ensures Arrives(id, path, false, t, [[], todo[1..]])
  {
    hide Arrives, StepTask;
    path := Move1(id, start, false, t, [[], todo], 1, External(true, true), t, todo[1..]);
    assert [[], todo][1 := todo[1..]] == [[], todo[1..]];
  }

  lemma Registers(id: string, start: seq<Action>, t: Task, rest: seq<Instr>) returns (path: seq<Action>)
    requires t.status == Done && Allowed(t.review) && HasId(t) && !t.registered
    requires Arrives(id, start, false, t, [[], EnsureRegistered() + rest])
    ensures Arrives(id, path, false, t.(registered := true), [[], rest])
  {
    hide Arrives;
    var todo := EnsureRegistered() + rest;
    path := Pass1(id, start, t, todo);
    path := Pass1(id, path, t, todo[1..]);
    path := Pass1(id, path, t, todo[2..]);
    path := Pass1(id, path, t, todo[3..]);
    path := Move1(id, path, false, t, [[], todo[4..]], 1, External(true, true), t.(registered := true), todo[5..]);
    assert [[], todo[4..]][1 := todo[5..]] == [[], todo[5..]] && todo[5..] == rest;
  }

  lemma ApprovedAndRegistered(id: string, start: seq<Action>, t: Task) returns (path: seq<Action>)
    requires Arrives(id, start, false, t, [[]] + [ApproveHandler("reviewer")])
    requires t.status == Done && HasId(t) && !t.registered
    ensures exists todo :: Arrives(id, path, false, ApproveReview(t, "reviewer", 0).(registered := true), [[], todo])
  {
    ApproverPart("reviewer");
    hide Arrives, GateOpen, ApproveHandler, EnsureRegistered;
    var u := ApproveReview(t, "reviewer", 0);
    var rest := ApproveHandler("reviewer")[8..];
    var todo := [RequireDone, Approve("reviewer"), SkipIfRegistered(5)] + (EnsureRegistered() + rest);
    assert ApproveHandler("reviewer") == todo;
    assert [[]] + [todo] == [[], todo];
    path := Pass1(id, start, t, todo);
    path := Move1(id, path, false, t, [[], todo[1..]], 1, External(true, true), u, todo[2..]);
    assert [[], todo[1..]][1 := todo[2..]] == [[], todo[2..]];
    path := Pass1(id, path, u, todo[2..]);
    assert todo[3..] == EnsureRegistered() + rest;
    path := Registers(id, path, u, rest);
  }

  /** So the interrupted entry happens in a run from the empty store. */
  lemma InterruptionIsReachable(id: string) returns (path: seq<Action>)
    ensures var e := Run(EMPTY, path); id in e.tasks && e.tasks[id].entered && !GateOpen(e.tasks[id])
  {
    hide Run, Interruption;
    var before := OpenIsReachable(id);
    var s := Run(EMPTY, before);
    EntryBehindClosedGate(s, id);
    path := before + Interruption(|s.threads|, id, External(true, true));
    RunConcat(EMPTY, before, Interruption(|s.threads|, id, External(true, true)));
  }
}
