/**
 * The task objects and the store that changes them in place, one locked operation at a time. `View()` is what a reader
 * sees; every operation states its effect with the functions of `ReviewTasks`.
 */
module TaskStore {
  import opened Lists
  import R = ReviewTasks
  import V = ReviewValidator

  class TaskResult {
    var status: R.TaskStatus
    var review: R.ReviewState
    var required: bool
    var score: real
    var passed: bool
    var issues: seq<V.Issue>
    var confidence: real
    var history: seq<R.HistoryEntry>
    var decision: Option<R.Decision>
    var audit: seq<R.AuditEvent>
    var spu: Option<string>
    var registered: bool
    var entered: bool
    var error: string

    constructor (now: int)
      ensures View() == R.NewTask(now)
    {
      status, review, required, score, passed, issues, confidence := R.Processing, R.Draft, false, 0.0, false, [], 0.0;
      history := [R.HistoryEntry(None, R.Draft, R.Generated, now)];
      decision, audit, spu, registered, entered, error := None, [], None, false, false, "";
    }

    function View(): R.Task
      reads this
    {
      R.Task(status, review, required, score, passed, issues, confidence, history, decision, audit, spu, registered,
             entered, error)
    }

    /** `_append_review_history` */
    method AppendHistory(from: R.ReviewState, to: R.ReviewState, reason: R.HistoryReason, now: int)
      modifies this`history
      ensures View() == R.AppendHistory(old(View()), from, to, reason, now)
    {
      if from == to {
        return;
      }
      history := history + [R.HistoryEntry(Some(from), to, reason, now)];
    }

    /** `_append_review_audit` */
    method AppendAudit(e: R.AuditEvent)
      modifies this`audit
      ensures View() == R.AppendAudit(old(View()), e)
    {
      audit := audit + [e];
    }

    method StoreReview(required: bool, state: R.ReviewState, score: real, passed: bool, issues: seq<V.Issue>)
      modifies this`required, this`review, this`score, this`passed, this`issues
      ensures View() == old(View()).(required := required, review := state, score := score, passed := passed,
                                     issues := issues)
    {
      this.required, review := required, state;
      this.score, this.passed, this.issues := score, passed, issues;
    }

    method StoreResult(status: R.TaskStatus, confidence: real, spu: Option<string>, registered: bool)
      modifies this`status, this`confidence, this`spu, this`registered
      ensures View() == old(View()).(status := status, confidence := confidence, spu := spu, registered := registered)
    {
      this.status, this.confidence, this.spu, this.registered := status, confidence, spu, registered;
    }

    method ForgetRun()
      modifies this`error, this`entered, this`decision
      ensures View() == old(View()).(error := "", entered := false, decision := None)
    {
      error, entered, decision := "", false, None;
    }

    method Restart()
      modifies this
      ensures View() == R.RestartProcessing(old(View()))
    {
      hide View;
      StoreResult(R.Processing, 0.0, None, false);
      ForgetRun();
      StoreReview(false, R.Draft, 0.0, false, []);
    }

    method Finish(required: bool, state: R.ReviewState, r: V.Review, confidence: real, spu: Option<string>,
                  registered: bool, now: int)
      modifies this
      ensures View() == R.MarkDone(old(View()), required, state, r, confidence, spu, registered, now)
    {
      var previous := review;
      assert previous == old(View()).review;
      hide View;
      StoreResult(R.Done, confidence, spu, registered);
      StoreReview(required, state, r.score, r.passed, r.issues);
      AppendHistory(previous, state, R.AutoValidate, now);
    }

    method Approve(reviewer: string, now: int)
      modifies this
      ensures View() == R.ApproveReview(old(View()), reviewer, now)
    {
      var previous := review;
      review, required := R.Approved, false;
      decision := Some(R.Decision(true, reviewer, "", now));
      AppendHistory(previous, R.Approved, R.ManualApprove, now);
      AppendAudit(R.AuditEvent(R.ReviewApproved, reviewer, now));
    }

    method Reject(reviewer: string, reason: string, now: int)
      modifies this
      ensures View() == R.RejectReview(old(View()), reviewer, reason, now)
    {
      var previous := review;
      review, required := R.Rejected, true;
      decision := Some(R.Decision(false, reviewer, reason, now));
      AppendHistory(previous, R.Rejected, R.ManualReject, now);
      AppendAudit(R.AuditEvent(R.ReviewRejected, reviewer, now));
    }

    method Fail(error: string)
      modifies this
      ensures View() == R.MarkError(old(View()), error)
    {
      status, this.error := R.Errored, error;
    }
  }

  class Store {
    var items: map<string, TaskResult>

    /** Every task has an object of its own. */
    ghost predicate Valid()
      reads this
    {
      forall a, b :: a in items && b in items && a != b ==> items[a] != items[b]
    }

    ghost function View(): (r: map<string, R.Task>)
      reads this, items.Values
      ensures r.Keys == items.Keys
      ensures forall id :: id in items ==> r[id] == items[id].View()
    {
      map id | id in items :: items[id].View()
    }

    constructor ()
      ensures Valid() && View() == map[]
    {
      items := map[];
    }

    /** Only the object of `id` was written to, so only its entry may look different. */
    twostate lemma OnlyOneChanged(id: string)
      requires id in items && items == old(items) && Valid()
      requires forall other :: other in items && other != id ==> unchanged(items[other])
      ensures View() == old(View())[id := items[id].View()]
    {
    }

    /** A task created under a known id replaces the old one. */
    method Create(id: string, now: int)
      requires Valid()
      modifies this
      ensures Valid() && View() == old(View())[id := R.NewTask(now)]
    {
      hide TaskResult.View, R.NewTask;
      var result := new TaskResult(now);
      items := items[id := result];
    }

    method RestartProcessing(id: string) returns (found: bool)
      requires Valid()
      modifies items.Values
      ensures Valid() && found == (id in old(View()))
      ensures View() == if found then old(View())[id := R.RestartProcessing(old(View()[id]))] else old(View())
    {
      hide TaskResult.View, R.RestartProcessing;
      if id !in items {
        return false;
      }
      items[id].Restart();
      OnlyOneChanged(id);
      return true;
    }

    method MarkDone(id: string, required: bool, state: R.ReviewState, r: V.Review, confidence: real,
                    spu: Option<string>, registered: bool, now: int) returns (found: bool)
      requires Valid()
      modifies items.Values
      ensures Valid() && found == (id in old(View()))
      ensures View() ==
              if found
              then old(View())[id := R.MarkDone(old(View()[id]), required, state, r, confidence, spu, registered, now)]
              else old(View())
    {
      hide TaskResult.View, R.MarkDone;
      if id !in items {
        return false;
      }
      items[id].Finish(required, state, r, confidence, spu, registered, now);
      OnlyOneChanged(id);
      return true;
    }

    method ApproveReview(id: string, reviewer: string, now: int) returns (found: bool)
      requires Valid()
      modifies items.Values
      ensures Valid() && found == (id in old(View()))
      ensures View() ==
              if found then old(View())[id := R.ApproveReview(old(View()[id]), reviewer, now)] else old(View())
    {
      hide TaskResult.View, R.ApproveReview;
      if id !in items {
        return false;
      }
      items[id].Approve(reviewer, now);
      OnlyOneChanged(id);
      return true;
    }

    method RejectReview(id: string, reviewer: string, reason: string, now: int) returns (found: bool)
      requires Valid()
      modifies items.Values
      ensures Valid() && found == (id in old(View()))
      ensures View() ==
              if found then old(View())[id := R.RejectReview(old(View()[id]), reviewer, reason, now)] else old(View())
    {
      hide TaskResult.View, R.RejectReview;
      if id !in items {
        return false;
      }
      items[id].Reject(reviewer, reason, now);
      OnlyOneChanged(id);
      return true;
    }

    method MarkError(id: string, error: string) returns (found: bool)
      requires Valid()
      modifies items.Values
      ensures Valid() && found == (id in old(View()))
      ensures View() == if found then old(View())[id := R.MarkError(old(View()[id]), error)] else old(View())
    {
      hide TaskResult.View, R.MarkError;
      if id !in items {
        return false;
      }
      items[id].Fail(error);
      OnlyOneChanged(id);
      return true;
    }

    method UpdateAutoRegistry(id: string, registered: bool) returns (found: bool)
      requires Valid()
      modifies items.Values
      ensures Valid() && found == (id in old(View()))
      ensures View() == if found then old(View())[id := old(View()[id]).(registered := registered)] else old(View())
    {
      if id !in items {
        return false;
      }
      items[id].registered := registered;
      OnlyOneChanged(id);
      return true;
    }

    method MarkExecutionEntry(id: string) returns (found: bool)
      requires Valid()
      modifies items.Values
      ensures Valid() && found == (id in old(View()))
      ensures View() == if found then old(View())[id := old(View()[id]).(entered := true)] else old(View())
    {
      if id !in items {
        return false;
      }
      items[id].entered := true;
      OnlyOneChanged(id);
      return true;
    }

    method AppendAuditEvent(id: string, e: R.AuditEvent) returns (found: bool)
      requires Valid()
      modifies items.Values
      ensures Valid() && found == (id in old(View()))
      ensures View() == if found then old(View())[id := R.AppendAudit(old(View()[id]), e)] else old(View())
    {
      hide TaskResult.View, R.AppendAudit;
      if id !in items {
        return false;
      }
      items[id].AppendAudit(e);
      OnlyOneChanged(id);
      return true;
    }
  }
}
