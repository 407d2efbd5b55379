/** What every reachable container satisfies, and that every handler keeps it, successful or not. */
module InspectionInvariant {
  import opened Lists
  import opened Inspection
  import opened AttemptNumbering
  import opened AuditReplay
  import E = CompactionEngine

  ghost function ExpectedLife(a: Attempt): Life {
    Alive(a.status, a.signedBy, if a.status == Draft || a.status == Running then None else Some(a.gatePassed))
  }

  /** Signatures are sound whatever the status. */
  ghost predicate SignaturesOk(a: Attempt) {
    && a.required == REQUIRED_SIGNATURES
    && NoDup(a.signedBy)
    && (forall r :: r in a.signedBy ==> r in a.required)
    && a.pending == Pending(a.required, a.signedBy)
  }

  /**
   * Outputs and verdict are those of the form: an attempt is left running exactly if the engine rejects its form, and
   * otherwise it carries the calculated densities and the gate's answer to them.
   */
  ghost predicate Computed(a: Attempt) {
    && E.InputsOk(a.inputs)
    && (a.status == Running <==> E.RunPath(a.inputs).Failure?)
    && if a.status == Running then a.outputs == None
       else a.outputs == Some(E.RunPath(a.inputs).value) && a.gatePassed == E.GatePasses(a.outputs.value)
  }

  /** An attempt between two handler calls. */
  ghost predicate AttemptInv(a: Attempt, audit: seq<AuditRecord>) {
    && SignaturesOk(a)
    && a.status in {Running, Signing, FinalPass, FinalFail}
    && (Final(a.status) <==> a.pending == [])
    && (Final(a.status) ==> (a.status == FinalPass <==> a.gatePassed))
    && (a.status == Running ==> a.signedBy == [])
    && Computed(a)
    && Replay(audit, a.spuId, a.index) == ExpectedLife(a)
  }

  /** No entry speaks of an attempt that was never created. */
  ghost predicate NoStrays(c: Container) {
    forall k :: 0 <= k < |c.audit| && c.audit[k].AttemptRecord? ==>
                  1 <= c.audit[k].index <= AttemptCount(c.spus, c.audit[k].spuId)
  }

  ghost predicate Shape(c: Container) {
    && NoDup(c.catalog)
    && Numbered(c.spus)
    && (forall i :: 0 <= i < |c.spus| ==> c.spus[i].spuId in c.catalog)
    && NoStrays(c)
  }

  ghost predicate AttemptsInv(c: Container, except: int) {
    forall i :: 0 <= i < |c.spus| && i != except ==> AttemptInv(c.spus[i], c.audit)
  }

  /** An open container: no proof yet. */
  ghost predicate Open(c: Container) {
    c.status != Archived && c.proof == None
  }

  ghost predicate ResultOk(r: SpecResult, c: Container, s: string) {
    && r.spuId == s
    && Latest(c.spus, s).Some? && Final(Latest(c.spus, s).value.status)
    && (r.passed <==> Latest(c.spus, s).value.status == FinalPass)
    && r.gatePassed == r.passed
    && r.outputs == Latest(c.spus, s).value.outputs
    && r.attempts == r.latestIndex == AttemptCount(c.spus, s) > 0
  }

  /** The proof is a faithful summary of the container it closes. */
  ghost predicate ProofOk(c: Container, p: Proof) {
    && p.containerId == c.id
    && |p.results| == |c.catalog| > 0
    && (forall k :: 0 <= k < |c.catalog| ==> ResultOk(p.results[k], c, c.catalog[k]))
    && c.overall != OverallPending
    && (c.overall == OverallPass <==> forall k :: 0 <= k < |p.results| ==> p.results[k].passed)
    && NoDup(p.signatures)
    && (forall r :: r in p.signatures <==> r in REQUIRED_SIGNATURES)
    && p.audit == c.audit && c.audit != [] && c.audit[|c.audit| - 1] == ContainerArchived(c.id)
  }

  ghost predicate Closed(c: Container) {
    c.status == Archived && c.proof.Some? && ProofOk(c, c.proof.value)
  }

  ghost predicate Inv(c: Container) {
    Shape(c) && AttemptsInv(c, -1) && (Open(c) || Closed(c))
  }

  // ---------- one audit entry about one attempt ----------

  /** `d` is `c` with one more entry, about the attempt at `k`, whose fields may have changed. */
  ghost predicate Touched(c: Container, d: Container, k: nat, r: AuditRecord) {
    && k < |c.spus| && |d.spus| == |c.spus|
    && d.catalog == c.catalog && d.status == c.status && d.proof == c.proof
    && (forall i :: 0 <= i < |c.spus| && i != k ==> d.spus[i] == c.spus[i])
    && d.spus[k].spuId == c.spus[k].spuId && d.spus[k].index == c.spus[k].index
    && About(r, c.spus[k].spuId, c.spus[k].index)
    && d.audit == c.audit + [r]
  }

  lemma DistinctKeys(spus: seq<Attempt>, i: nat, j: nat)
    requires Numbered(spus) && i < |spus| && j < |spus| && i != j
    ensures spus[i].spuId != spus[j].spuId || spus[i].index != spus[j].index
  {
    if spus[i].spuId == spus[j].spuId {
      if i < j { IndicesIncrease(spus, i, j); } else { IndicesIncrease(spus, j, i); }
    }
  }

  lemma TouchKeepsShape(c: Container, d: Container, k: nat, r: AuditRecord)
    requires Touched(c, d, k, r) && Shape(c)
    ensures Shape(d)
  {
    NumberedOfSame(c.spus, d.spus);
    IndexInRange(c.spus, k);
    forall j | 0 <= j < |d.audit| && d.audit[j].AttemptRecord?
      ensures 1 <= d.audit[j].index <= AttemptCount(d.spus, d.audit[j].spuId)
    {
      CountOfSame(c.spus, d.spus, d.audit[j].spuId);
      if j < |c.audit| { assert d.audit[j] == c.audit[j]; }
    }
  }

  lemma TouchKeepsOthers(c: Container, d: Container, k: nat, r: AuditRecord)
    requires Touched(c, d, k, r) && Shape(c) && AttemptsInv(c, k)
    ensures AttemptsInv(d, k)
    ensures Replay(d.audit, d.spus[k].spuId, d.spus[k].index) ==
            Advance(Replay(c.audit, c.spus[k].spuId, c.spus[k].index), r)
  {
    ReplaySnoc(c.audit, r, c.spus[k].spuId, c.spus[k].index);
    forall i | 0 <= i < |d.spus| && i != k ensures AttemptInv(d.spus[i], d.audit) {
      DistinctKeys(c.spus, i, k);
      ReplaySnoc(c.audit, r, c.spus[i].spuId, c.spus[i].index);
      assert AttemptInv(c.spus[i], c.audit);
    }
  }

  /** Everything but the attempt at `k` is in order, and the trail agrees with that attempt. */
  ghost predicate Working(c: Container, k: nat) {
    && Shape(c) && AttemptsInv(c, k) && Open(c) && k < |c.spus|
    && SignaturesOk(c.spus[k])
    && Replay(c.audit, c.spus[k].spuId, c.spus[k].index) == ExpectedLife(c.spus[k])
  }

  lemma SettledInv(c: Container, k: nat)
    requires Working(c, k) && AttemptInv(c.spus[k], c.audit)
    ensures Inv(c)
  {
  }

  lemma WorkingOf(c: Container, k: nat)
    requires Inv(c) && Open(c) && k < |c.spus|
    ensures Working(c, k) && AttemptInv(c.spus[k], c.audit)
  {
  }

  // ---------- executing ----------

  lemma GrowKeepsInv(c: Container, spuId: string)
    requires Inv(c) && Open(c)
    ensures Inv(GrowCatalog(c, spuId)) && Open(GrowCatalog(c, spuId))
    ensures spuId in GrowCatalog(c, spuId).catalog
  {
    hide Replay, Numbered, AttemptInv, AttemptCount;
    var g := GrowCatalog(c, spuId);
    forall i | 0 <= i < |g.spus| ensures AttemptInv(g.spus[i], g.audit) && g.spus[i].spuId in g.catalog {
      assert AttemptInv(c.spus[i], c.audit) && c.spus[i].spuId in c.catalog;
    }
  }

  lemma CreateShape(c: Container, spuId: string)
    requires Shape(c) && spuId in c.catalog
    ensures Shape(CreateAttempt(c, spuId))
  {
    var d := CreateAttempt(c, spuId);
    var a := d.spus[|c.spus|];
    CreateKeepsNumbering(c.spus, a);
    MaxIndexIsCount(c.spus, spuId);
    forall j | 0 <= j < |d.audit| && d.audit[j].AttemptRecord?
      ensures 1 <= d.audit[j].index <= AttemptCount(d.spus, d.audit[j].spuId)
    {
      CountSnoc(c.spus, a, d.audit[j].spuId);
      if j < |c.audit| { assert d.audit[j] == c.audit[j]; }
    }
  }

  lemma AllPending()
    ensures Pending(REQUIRED_SIGNATURES, []) == REQUIRED_SIGNATURES
  {
    FilterAll(REQUIRED_SIGNATURES, r => r !in []);
  }

  lemma CreateKeepsOthers(c: Container, spuId: string)
    requires Shape(c) && AttemptsInv(c, -1) && spuId in c.catalog
    ensures AttemptsInv(CreateAttempt(c, spuId), |c.spus|)
  {
    var d := CreateAttempt(c, spuId);
    CreateShape(c, spuId);
    hide Replay, CreateAttempt;
    forall i | 0 <= i < |c.spus| ensures AttemptInv(c.spus[i], d.audit) {
      assert AttemptInv(c.spus[i], c.audit);
      DistinctKeys(d.spus, i, |c.spus|);
      ReplaySnoc(c.audit, d.audit[|c.audit|], c.spus[i].spuId, c.spus[i].index);
    }
  }

  lemma NewIndexUnrecorded(c: Container, spuId: string)
    requires Shape(c)
    ensures Replay(c.audit, spuId, MaxIndex(c.spus, spuId) + 1) == Unborn
  {
    MaxIndexIsCount(c.spus, spuId);
    NoRecordsNoLife(c.audit, spuId, MaxIndex(c.spus, spuId) + 1);
  }

  lemma CreateIsBorn(c: Container, spuId: string)
    requires Shape(c)
    ensures Replay(CreateAttempt(c, spuId).audit, spuId, MaxIndex(c.spus, spuId) + 1) == Alive(Draft, [], None)
  {
    hide Shape, Replay, MaxIndex;
    var index := MaxIndex(c.spus, spuId) + 1;
    NewIndexUnrecorded(c, spuId);
    ReplaySnoc(c.audit, AttemptRecord(c.id, CreateNode, spuId, index, None, Draft, None), spuId, index);
  }

  lemma CreateWorks(c: Container, spuId: string)
    requires Inv(c) && Open(c) && spuId in c.catalog
    ensures Working(CreateAttempt(c, spuId), |c.spus|)
  {
    hide AttemptsInv, Shape, Replay, MaxIndex, AttemptCount, Pending;
    var index := MaxIndex(c.spus, spuId) + 1;
    CreateShape(c, spuId);
    CreateKeepsOthers(c, spuId);
    CreateIsBorn(c, spuId);
    AllPending();
  }

  lemma WorkingStep(c: Container, d: Container, k: nat, r: AuditRecord)
    requires Working(c, k) && Touched(c, d, k, r)
    requires SignaturesOk(d.spus[k]) && Advance(ExpectedLife(c.spus[k]), r) == ExpectedLife(d.spus[k])
    ensures Working(d, k)
  {
    TouchKeepsShape(c, d, k, r);
    TouchKeepsOthers(c, d, k, r);
  }

  /** A form that waits for the engine. */
  ghost predicate Submitted(a: Attempt, inputs: Inputs) {
    a.status == Running && a.signedBy == [] && a.inputs == inputs && a.outputs == None
  }

  lemma SubmitWorks(c: Container, spuId: string, inputs: Inputs)
    requires Inv(c) && Open(c) && spuId in c.catalog
    ensures var d := Submit(c, spuId, inputs);
            Working(d, |c.spus|) && Submitted(d.spus[|c.spus|], inputs)
  {
    hide AttemptsInv, Shape, Replay, MaxIndex, Inv, Pending;
    var k := |c.spus|;
    var c1 := CreateAttempt(c, spuId);
    CreateWorks(c, spuId);
    var c2 := c1.(spus := c1.spus[k := c1.spus[k].(inputs := inputs)]);
    var d := Transition(c2, k, SubmitForm, Running, None);
    WorkingStep(c1, d, k, d.audit[|c1.audit|]);
  }

  lemma CalculateWorks(c: Container, k: nat, outputs: E.Outputs)
    requires Working(c, k) && c.spus[k].status == Running
    ensures var d := Calculate(c, k, outputs);
            Working(d, k) && d.spus[k] == c.spus[k].(outputs := Some(outputs))
  {
    hide AttemptsInv, Shape, Replay;
    var d := Calculate(c, k, outputs);
    WorkingStep(c, d, k, d.audit[|c.audit|]);
  }

  lemma TransitionWorks(c: Container, k: nat, event: Event, to: AttemptStatus, actor: Option<string>)
    requires Working(c, k)
    requires var a := c.spus[k];
             Advance(ExpectedLife(a), AttemptRecord(c.id, event, a.spuId, a.index, Some(a.status), to, actor)) ==
             ExpectedLife(a.(status := to))
    ensures var d := Transition(c, k, event, to, actor);
            Working(d, k) && d.spus[k] == c.spus[k].(status := to)
  {
    var d := Transition(c, k, event, to, actor);
    WorkingStep(c, d, k, d.audit[|c.audit|]);
  }

  /** While an attempt is RUNNING the trail does not speak of its verdict yet. */
  lemma VerdictWorks(c: Container, k: nat, passed: bool)
    requires Working(c, k) && c.spus[k].status == Running
    ensures Working(c.(spus := c.spus[k := c.spus[k].(gatePassed := passed)]), k)
  {
    hide Replay, Numbered, AttemptCount;
    var d := c.(spus := c.spus[k := c.spus[k].(gatePassed := passed)]);
    NumberedOfSame(c.spus, d.spus);
    forall j | 0 <= j < |d.audit| && d.audit[j].AttemptRecord?
      ensures 1 <= d.audit[j].index <= AttemptCount(d.spus, d.audit[j].spuId)
    {
      CountOfSame(c.spus, d.spus, d.audit[j].spuId);
    }
  }

  lemma JudgeWorks(c: Container, k: nat, passed: bool)
    requires Working(c, k) && c.spus[k].status == Running
    ensures var d := Judge(c, k, passed);
            Working(d, k) && d.spus[k] == c.spus[k].(gatePassed := passed, status := Signing)
  {
    hide AttemptsInv, Shape, Replay;
    var c1 := c.(spus := c.spus[k := c.spus[k].(gatePassed := passed)]);
    VerdictWorks(c, k, passed);
    TransitionWorks(c1, k, ExecuteRules, if passed then Pass else Fail, None);
    var c2 := Transition(c1, k, ExecuteRules, if passed then Pass else Fail, None);
    TransitionWorks(c2, k, ExecuteRules, Signing, None);
  }

  /** A freshly submitted attempt has no signature, so in RUNNING or SIGNING it is settled. */
  lemma UnsignedSettles(c: Container, k: nat)
    requires Working(c, k) && c.spus[k].status in {Running, Signing} && c.spus[k].signedBy == [] && Computed(c.spus[k])
    ensures Inv(c)
  {
    hide Computed;
    AllPending();
    SettledInv(c, k);
  }

  /** Recalculation touches nothing but the two status fields, and never archives. */
  lemma RecalcFields(c: Container)
    ensures Recalc(c) == c.(status := Recalc(c).status, overall := Recalc(c).overall)
    ensures Recalc(c).status == Archived <==> c.status == Archived
    ensures c.status == Archived ==> Recalc(c) == c
  {
  }

  lemma StatusFieldsKeepInv(c: Container, status: ContainerStatus, overall: OverallStatus)
    requires Inv(c) && Open(c) && status != Archived
    ensures Inv(c.(status := status, overall := overall)) && Open(c.(status := status, overall := overall))
  {
  }

  lemma RecalcKeepsInv(c: Container)
    requires Inv(c)
    ensures Inv(Recalc(c)) && (Open(c) ==> Open(Recalc(c)))
  {
    RecalcFields(c);
    if Open(c) {
      StatusFieldsKeepInv(c, Recalc(c).status, Recalc(c).overall);
    }
  }

  lemma EngineKeepsInv(c: Container, k: nat, inputs: Inputs)
    requires Working(c, k) && Submitted(c.spus[k], inputs) && E.InputsOk(inputs)
    ensures Inv(RunEngine(c, k, inputs).0)
  {
    hide Inv, Calculate, Judge, Recalc, Shape, AttemptsInv, Replay, SignaturesOk, E.RunPath, E.InputsOk, E.GatePasses;
    match E.RunPath(inputs) {
      case Failure(_) => UnsignedSettles(c, k);
      case Success(outputs) =>
        var calculated := Calculate(c, k, outputs);
        var passed := E.GatePasses(outputs);
        CalculateWorks(c, k, outputs);
        JudgeWorks(calculated, k, passed);
        UnsignedSettles(Judge(calculated, k, passed), k);
        RecalcKeepsInv(Judge(calculated, k, passed));
    }
  }

  lemma ExecuteKeepsInv(c: Container, spuId: string, inputs: Inputs)
    requires Inv(c)
    ensures Inv(Execute(c, spuId, inputs).0)
  {
    hide AttemptsInv, Shape, Replay, ProofOk, Working, RunEngine, Submit, GrowCatalog, E.InputsOk;
    if Open(c) && spuId != "" {
      var grown := GrowCatalog(c, spuId);
      GrowKeepsInv(c, spuId);
      GrowKeepsAttempts(c, spuId);
      if E.InputsOk(inputs) {
        SubmitWorks(grown, spuId, inputs);
        EngineKeepsInv(Submit(grown, spuId, inputs), |c.spus|, inputs);
      }
    }
  }

  lemma GrowKeepsAttempts(c: Container, spuId: string)
    ensures GrowCatalog(c, spuId).spus == c.spus
  {
  }

  // ---------- signing ----------

  ghost function SignedBy(a: Attempt, role: string): seq<string> {
    if role in a.signedBy then a.signedBy else a.signedBy + [role]
  }

  lemma SignatureSound(a: Attempt, role: string)
    requires SignaturesOk(a) && role in a.required
    ensures SignaturesOk(a.(signedBy := SignedBy(a, role), pending := Pending(a.required, SignedBy(a, role))))
    ensures Pending(a.required, SignedBy(a, role)) == [] ==>
              forall r :: r in REQUIRED_SIGNATURES ==> r in SignedBy(a, role)
  {
    var pending := Pending(a.required, SignedBy(a, role));
    forall r | r in REQUIRED_SIGNATURES ensures r in SignedBy(a, role) || r in pending {
    }
  }

  lemma RecordSignatureWorks(c: Container, k: nat, role: string)
    requires Working(c, k) && c.spus[k].status == Signing && role in c.spus[k].required
    ensures var a, d := c.spus[k], RecordSignature(c, k, role);
            && Working(d, k)
            && d.spus[k] == a.(signedBy := SignedBy(a, role), pending := Pending(a.required, SignedBy(a, role)))
  {
    hide AttemptsInv, Shape, Replay;
    var d := RecordSignature(c, k, role);
    SignatureSound(c.spus[k], role);
    WorkingStep(c, d, k, d.audit[|c.audit|]);
  }

  lemma StaysComputed(a: Attempt, b: Attempt)
    requires Computed(a) && a.status != Running && b.status != Running
    requires b.inputs == a.inputs && b.outputs == a.outputs && b.gatePassed == a.gatePassed
    ensures Computed(b)
  {
    hide E.RunPath, E.InputsOk, E.GatePasses;
  }

  lemma WaitingSettles(c: Container, k: nat)
    requires Working(c, k) && Computed(c.spus[k]) && c.spus[k].status == Signing && c.spus[k].pending != []
    ensures Inv(c) && Open(c)
  {
    hide Computed, Shape, Replay, SignaturesOk, AttemptsInv;
    SettledInv(c, k);
  }

  lemma FinalSettles(c: Container, k: nat)
    requires Working(c, k) && Computed(c.spus[k]) && Final(c.spus[k].status) && c.spus[k].pending == []
    requires c.spus[k].status == FinalPass <==> c.spus[k].gatePassed
    ensures Inv(c) && Open(c)
  {
    hide Computed, Shape, Replay, SignaturesOk, AttemptsInv;
    SettledInv(c, k);
  }

  lemma FinalizeWorks(c: Container, k: nat, role: string)
    requires Working(c, k) && c.spus[k].status == Signing && c.spus[k].pending == []
    requires forall r :: r in REQUIRED_SIGNATURES ==> r in c.spus[k].signedBy
    ensures var to := if c.spus[k].gatePassed then FinalPass else FinalFail;
            var d := Transition(c, k, Finalize, to, Some(role));
            Working(d, k) && d.spus[k] == c.spus[k].(status := to)
  {
    hide Shape, Replay, SignaturesOk, AttemptsInv;
    TransitionWorks(c, k, Finalize, if c.spus[k].gatePassed then FinalPass else FinalFail, Some(role));
  }

  lemma AddSignatureKeepsInv(c: Container, k: nat, role: string)
    requires Inv(c) && Open(c) && k < |c.spus| && c.spus[k].status == Signing && role in c.spus[k].required
    ensures Inv(AddSignature(c, k, role)) && Open(AddSignature(c, k, role))
  {
    WorkingOf(c, k);
    assert Computed(c.spus[k]) && SignaturesOk(c.spus[k]);
    hide Inv, Working, AttemptInv, Computed, SignaturesOk, RecordSignature, Transition, Pending;
    SignatureSound(c.spus[k], role);
    RecordSignatureWorks(c, k, role);
    var signed := RecordSignature(c, k, role);
    StaysComputed(c.spus[k], signed.spus[k]);
    if signed.spus[k].pending == [] {
      FinalizeWorks(signed, k, role);
      var done := AddSignature(c, k, role);
      StaysComputed(signed.spus[k], done.spus[k]);
      FinalSettles(done, k);
    } else {
      WaitingSettles(signed, k);
    }
  }

  lemma SignKeepsInv(c: Container, spuId: string, role: string, index: Option<int>)
    requires Inv(c)
    ensures Inv(SignSpu(c, spuId, role, index).0)
  {
    hide AddSignature, Recalc, AttemptAt, Shape, AttemptsInv, ProofOk;
    var at := AttemptAt(c.spus, spuId, index);
    if Open(c) && at.Some? && c.spus[at.value].status == Signing && role in c.spus[at.value].required {
      AddSignatureKeepsInv(c, at.value, role);
      RecalcKeepsInv(AddSignature(c, at.value, role));
    }
  }

  /** A role that had not signed leaves the pending list; one that had changes nothing. */
  lemma NewRoleShrinksPending(c: Container, k: nat, role: string)
    requires Inv(c) && Open(c) && k < |c.spus| && c.spus[k].status == Signing && role in c.spus[k].required
    ensures var a, b := c.spus[k], AddSignature(c, k, role).spus[k];
            && (role in a.pending <==> role !in a.signedBy)
            && (role in a.pending ==> |b.pending| < |a.pending|)
            && (role !in a.pending ==> b == a)
            && (forall r :: r in b.pending <==> r in a.pending && r != role)
  {
    hide Replay, Shape;
    var a, b := c.spus[k], AddSignature(c, k, role).spus[k];
    assert AttemptInv(a, c.audit);
    assert b.pending == Pending(a.required, SignedBy(a, role));
    assert NoDup(REQUIRED_SIGNATURES);
    FilterNoDup(a.required, r => r !in a.signedBy);
    FilterNoDup(a.required, r => r !in SignedBy(a, role));
    NoDupCard(a.pending);
    NoDupCard(b.pending);
    SubsetCard(Elems(b.pending), Elems(a.pending));
    if role in a.pending {
      assert role in Elems(a.pending) && role !in Elems(b.pending);
    }
  }
}
