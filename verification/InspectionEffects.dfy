/**
 * What each request does to a reachable container, told by positions, texts and constants alone: no look-up, helper or
 * handler of the protocol appears in what is promised.
 */
module InspectionEffects {
  import opened Lists
  import opened Inspection
  import opened AttemptNumbering
  import opened AuditReplay
  import opened InspectionInvariant
  import opened InspectionArchive
  import opened InspectionRuns
  import E = CompactionEngine

  // ---------- the status a container shows ----------

  /** The last attempt of `s` has one of these statuses. */
  ghost predicate Ends(spus: seq<Attempt>, s: string, statuses: set<AttemptStatus>) {
    exists i: nat :: LastOf(spus, s, i) && spus[i].status in statuses
  }

  ghost predicate AllEnd(spus: seq<Attempt>, catalog: seq<string>, statuses: set<AttemptStatus>) {
    forall s :: s in catalog ==> Ends(spus, s, statuses)
  }

  ghost predicate SomeEnds(spus: seq<Attempt>, catalog: seq<string>, statuses: set<AttemptStatus>) {
    exists s :: s in catalog && Ends(spus, s, statuses)
  }

  /** Status and verdict are those of the last attempts of the listed SPUs. */
  ghost predicate UpToDate(c: Container) {
    if c.spus == [] then c.status == Created && c.overall == OverallPending
    else
      && c.status == (if AllEnd(c.spus, c.catalog, {FinalPass, FinalFail}) then Verified else InProgress)
      && c.overall == (if SomeEnds(c.spus, c.catalog, {FinalFail}) then OverallFail
                       else if AllEnd(c.spus, c.catalog, {FinalPass}) then OverallPass else OverallPending)
  }

  /** `d` is `c` with its status brought up to date. */
  ghost predicate Refreshed(c: Container, d: Container) {
    d == c.(status := d.status, overall := d.overall) && UpToDate(d)
  }

  lemma LastIsLatest(spus: seq<Attempt>, s: string, i: nat)
    requires Numbered(spus) && LastOf(spus, s, i)
    ensures LatestAt(spus, s) == Some(i) && Latest(spus, s) == Some(spus[i])
  {
    LatestIsLastCreated(spus, s);
    hide Numbered, AttemptCount;
    assert spus[i] in spus;
  }

  lemma EndsAsLatest(spus: seq<Attempt>, s: string, statuses: set<AttemptStatus>)
    requires Numbered(spus)
    ensures Ends(spus, s, statuses) <==> Latest(spus, s).Some? && Latest(spus, s).value.status in statuses
  {
    LatestIsLastCreated(spus, s);
    hide Numbered, AttemptCount, LatestAt;
    if Latest(spus, s).Some? {
      assert LastOf(spus, s, LatestAt(spus, s).value);
    }
    if i: nat :| LastOf(spus, s, i) && spus[i].status in statuses {
      LastIsLatest(spus, s, i);
    }
  }

  lemma SomeFailed(c: Container)
    requires Numbered(c.spus)
    ensures SomeEnds(c.spus, c.catalog, {FinalFail}) <==>
            exists s | s in c.catalog :: Latest(c.spus, s).Some? && Latest(c.spus, s).value.status == FinalFail
  {
    forall s
      ensures Ends(c.spus, s, {FinalFail}) <==>
              Latest(c.spus, s).Some? && Latest(c.spus, s).value.status == FinalFail
    {
      EndsAsLatest(c.spus, s, {FinalFail});
    }
    hide Ends, Latest, Numbered;
  }

  lemma AllPassed(c: Container)
    requires Numbered(c.spus)
    ensures AllEnd(c.spus, c.catalog, {FinalPass}) <==>
            forall s | s in c.catalog :: Latest(c.spus, s).Some? && Latest(c.spus, s).value.status == FinalPass
  {
    forall s
      ensures Ends(c.spus, s, {FinalPass}) <==>
              Latest(c.spus, s).Some? && Latest(c.spus, s).value.status == FinalPass
    {
      EndsAsLatest(c.spus, s, {FinalPass});
    }
    hide Ends, Latest, Numbered;
  }

  lemma AllFinal(c: Container)
    requires Numbered(c.spus)
    ensures AllEnd(c.spus, c.catalog, {FinalPass, FinalFail}) <==>
            forall s | s in c.catalog :: Latest(c.spus, s).Some? && Final(Latest(c.spus, s).value.status)
  {
    forall s
      ensures Ends(c.spus, s, {FinalPass, FinalFail}) <==>
              Latest(c.spus, s).Some? && Final(Latest(c.spus, s).value.status)
    {
      EndsAsLatest(c.spus, s, {FinalPass, FinalFail});
    }
    hide Ends, Latest, Numbered;
  }

  lemma RecalcRefreshes(c: Container)
    requires Numbered(c.spus) && c.status != Archived
    ensures Refreshed(c, Recalc(c))
  {
    SomeFailed(c);
    AllPassed(c);
    AllFinal(c);
    hide Latest, AllEnd, SomeEnds, Numbered, Final;
  }

  // ---------- signing ----------

  /** A positive number names the attempt that carries it; anything else names the last one of the SPU. */
  ghost predicate Addressed(spus: seq<Attempt>, s: string, index: Option<int>, i: nat) {
    && i < |spus| && spus[i].spuId == s
    && if index.Some? && index.value > 0 then spus[i].index == index.value
       else forall j :: i < j < |spus| ==> spus[j].spuId != s
  }

  /** Exactly the numbers 1 to n of the n attempts of an SPU name an attempt, and they name one only. */
  lemma AddressedExactly(spus: seq<Attempt>, s: string, index: Option<int>)
    requires Numbered(spus)
    ensures (exists i :: Addressed(spus, s, index, i)) <==>
            AttemptCount(spus, s) > 0 && (index.Some? ==> index.value <= AttemptCount(spus, s))
    ensures forall i, j :: Addressed(spus, s, index, i) && Addressed(spus, s, index, j) ==> i == j
  {
    hide AttemptCount, LatestAt, FindAt;
    LatestIsLastCreated(spus, s);
    if index.Some? && index.value > 0 {
      if index.value <= AttemptCount(spus, s) {
        var i := IndicesComplete(spus, s, index.value);
        assert Addressed(spus, s, index, i);
      }
      forall i | Addressed(spus, s, index, i) ensures index.value <= AttemptCount(spus, s) {
        IndexInRange(spus, i);
      }
      forall i, j | Addressed(spus, s, index, i) && Addressed(spus, s, index, j) ensures i == j {
        if i != j { DistinctKeys(spus, i, j); }
      }
    } else if AttemptCount(spus, s) > 0 {
      assert Addressed(spus, s, index, LatestAt(spus, s).value);
    }
  }

  ghost predicate Signer(role: string) {
    role == "lab" || role == "supervision"
  }

  /** The attempt `b` is `a` with one more signature; the second of the two signers finishes it. */
  ghost predicate GainsSignature(a: Attempt, b: Attempt, role: string) {
    && b == a.(signedBy := b.signedBy, pending := b.pending, status := b.status)
    && b.signedBy == (if role in a.signedBy then a.signedBy else a.signedBy + [role])
    && (forall r :: r in b.pending <==> Signer(r) && r !in b.signedBy)
    && b.status == (if "lab" in b.signedBy && "supervision" in b.signedBy
                    then if a.gatePassed then FinalPass else FinalFail
                    else Signing)
  }

  ghost function SignEntries(id: string, b: Attempt, role: string): seq<AuditRecord> {
    [AttemptRecord(id, Sign, b.spuId, b.index, Some(Signing), Signing, Some(role))] +
    if b.status == Signing then []
    else [AttemptRecord(id, Finalize, b.spuId, b.index, Some(Signing), b.status, Some(role))]
  }

  /** Only the attempt at `i`, its trail and the status shown have changed. */
  ghost predicate SignedAt(c: Container, d: Container, i: nat, role: string) {
    && d == c.(spus := d.spus, audit := d.audit, status := d.status, overall := d.overall)
    && |d.spus| == |c.spus| && i < |c.spus|
    && (forall j :: 0 <= j < |c.spus| && j != i ==> d.spus[j] == c.spus[j])
    && GainsSignature(c.spus[i], d.spus[i], role)
    && d.audit == c.audit + SignEntries(c.id, d.spus[i], role)
    && UpToDate(d)
  }

  /** What comes of a signature for an attempt that was found. */
  ghost predicate SignOutcome(c: Container, d: Container, reply: Reply, i: nat, role: string)
    requires i < |c.spus|
  {
    if c.spus[i].status == Running then d == c && reply == Error(NotSignable)
    else if !Signer(role) then d == c && reply == Error(RoleUnknown)
    else if c.spus[i].status != Signing then d == c && reply == Ok
    else reply == Ok && SignedAt(c, d, i, role)
  }

  lemma AddressedIsFound(spus: seq<Attempt>, s: string, index: Option<int>, i: nat)
    requires Numbered(spus) && Addressed(spus, s, index, i)
    ensures AttemptAt(spus, s, index) == Some(i)
  {
    hide AttemptCount, LatestAt, FindAt;
    if index.Some? && index.value > 0 {
      IndexInRange(spus, i);
      var j := IndicesComplete(spus, s, index.value);
    } else {
      LastIsLatest(spus, s, i);
    }
  }

  lemma StillMissing(signedBy: seq<string>)
    ensures forall r :: r in Pending(REQUIRED_SIGNATURES, signedBy) <==> Signer(r) && r !in signedBy
    ensures Pending(REQUIRED_SIGNATURES, signedBy) == [] <==> "lab" in signedBy && "supervision" in signedBy
  {
    var missing := Pending(REQUIRED_SIGNATURES, signedBy);
    assert missing != [] ==> missing[0] in missing;
    assert Signer("lab") && Signer("supervision");
  }

  ghost function Recorded(a: Attempt, role: string): Attempt {
    a.(signedBy := SignedBy(a, role), pending := Pending(a.required, SignedBy(a, role)))
  }

  lemma SignatureSteps(c: Container, i: nat, role: string)
    requires i < |c.spus| && c.spus[i].status == Signing
    ensures var a, d := c.spus[i], AddSignature(c, i, role);
            var b := if Recorded(a, role).pending != [] then Recorded(a, role)
                     else Recorded(a, role).(status := if a.gatePassed then FinalPass else FinalFail);
            d == c.(spus := c.spus[i := b], audit := c.audit + SignEntries(c.id, b, role))
  {
    hide Pending;
  }

  lemma SignatureAdds(c: Container, i: nat, role: string)
    requires i < |c.spus| && SignaturesOk(c.spus[i]) && c.spus[i].status == Signing
    ensures var d := AddSignature(c, i, role);
            && d == c.(spus := d.spus, audit := d.audit)
            && |d.spus| == |c.spus|
            && (forall j :: 0 <= j < |c.spus| && j != i ==> d.spus[j] == c.spus[j])
            && GainsSignature(c.spus[i], d.spus[i], role)
            && d.audit == c.audit + SignEntries(c.id, d.spus[i], role)
  {
    StillMissing(SignedBy(c.spus[i], role));
    SignatureSteps(c, i, role);
    hide Pending, Signer, AddSignature, SignEntries;
  }

  lemma SignatureTaken(c: Container, i: nat, role: string)
    requires Inv(c) && c.status != Archived && i < |c.spus| && c.spus[i].status == Signing && Signer(role)
    ensures SignedAt(c, Recalc(AddSignature(c, i, role)), i, role)
  {
    assert AttemptInv(c.spus[i], c.audit);
    SignatureAdds(c, i, role);
    AddSignatureKeepsInv(c, i, role);
    RecalcRefreshes(AddSignature(c, i, role));
    hide AttemptInv, AttemptsInv, NoStrays, Numbered, ProofOk, AddSignature, Recalc, GainsSignature, SignEntries,
         UpToDate;
  }

  lemma WaitsOrIsOver(c: Container, i: nat)
    requires Inv(c) && i < |c.spus|
    ensures c.spus[i].status in {Running, Signing, FinalPass, FinalFail}
    ensures forall role :: role in c.spus[i].required <==> Signer(role)
  {
    hide Replay, Computed, Shape, ProofOk;
    assert AttemptInv(c.spus[i], c.audit);
  }

  lemma SignUnfolds(c: Container, s: string, role: string, index: Option<int>, i: nat)
    requires c.status != Archived && s != "" && role != "" && i < |c.spus| && AttemptAt(c.spus, s, index) == Some(i)
    ensures var a := c.spus[i];
            SignSpu(c, s, role, index) ==
            if a.status != Signing && !Final(a.status) then (c, Error(NotSignable))
            else if role !in a.required then (c, Error(RoleUnknown))
            else if Final(a.status) then (c, Ok)
            else (Recalc(AddSignature(c, i, role)), Ok)
  {
    hide AttemptAt, Recalc, AddSignature, Final;
  }

  /** A signature reaches the attempt it addresses, and no other. */
  lemma SignReaches(c: Container, s: string, role: string, index: Option<int>, i: nat)
    requires Inv(c) && c.status != Archived && s != "" && role != "" && Addressed(c.spus, s, index, i)
    ensures var r := SignSpu(c, s, role, index);
            SignOutcome(c, r.0, r.1, i, role)
  {
    WaitsOrIsOver(c, i);
    assert Numbered(c.spus);
    hide Inv, Numbered, AttemptAt, Addressed, Recalc, AddSignature, SignedAt, Signer, SignSpu;
    AddressedIsFound(c.spus, s, index, i);
    SignUnfolds(c, s, role, index, i);
    if c.spus[i].status == Signing && Signer(role) {
      SignatureTaken(c, i, role);
    }
  }

  /** A signature that addresses no attempt changes nothing. */
  lemma SignMisses(c: Container, s: string, role: string, index: Option<int>)
    requires Numbered(c.spus) && c.status != Archived && s != "" && role != ""
    requires !exists i :: Addressed(c.spus, s, index, i)
    ensures SignSpu(c, s, role, index) == (c, Error(AttemptMissing))
  {
    hide Numbered, AttemptAt, Addressed, Recalc;
    if AttemptAt(c.spus, s, index).Some? {
      FoundIsAddressed(c.spus, s, index);
    }
  }

  lemma FoundIsAddressed(spus: seq<Attempt>, s: string, index: Option<int>)
    requires Numbered(spus) && AttemptAt(spus, s, index).Some?
    ensures Addressed(spus, s, index, AttemptAt(spus, s, index).value)
  {
    LatestIsLastCreated(spus, s);
    hide AttemptCount, LatestAt, FindAt;
  }

  // ---------- executing ----------

  /** A new attempt of `s` with the form and the next number, waiting for both signatures. */
  ghost predicate NewlyNumbered(a: Attempt, c: Container, s: string, inputs: Inputs) {
    && a.spuId == s && a.index == AttemptCount(c.spus, s) + 1 && a.inputs == inputs
    && a.required == ["lab", "supervision"] && a.signedBy == [] && a.pending == ["lab", "supervision"]
  }

  /** What the engine makes of the form: nothing, or densities and a verdict that wait for signatures. */
  ghost predicate Evaluated(a: Attempt)
    requires E.InputsOk(a.inputs)
  {
    if E.EngineRejects(a.inputs) then a.status == Running && a.outputs == None && !a.gatePassed
    else
      && a.status == Signing && E.RunPath(a.inputs).Success? && a.outputs == Some(E.RunPath(a.inputs).value)
      && (a.gatePassed <==> E.AtLeast(E.RunPath(a.inputs).value.compactionDegree, 93.0))
  }

  ghost function Entry(id: string, a: Attempt, event: Event, from: Option<AttemptStatus>, to: AttemptStatus)
    : AuditRecord
  {
    AttemptRecord(id, event, a.spuId, a.index, from, to, None)
  }

  ghost function ExecuteEntries(id: string, a: Attempt): seq<AuditRecord> {
    [Entry(id, a, CreateNode, None, Draft), Entry(id, a, SubmitForm, Some(Draft), Running)] +
    if a.status == Running then []
    else
      var verdict := if a.gatePassed then Pass else Fail;
      [Entry(id, a, ExecutePath, Some(Running), Running), Entry(id, a, ExecuteRules, Some(Running), verdict),
       Entry(id, a, ExecuteRules, Some(verdict), Signing)]
  }

  /** One attempt more, its trail, and the status shown, which a failing engine leaves alone. */
  ghost predicate ExecutedAs(c: Container, d: Container, s: string, inputs: Inputs)
    requires E.InputsOk(inputs)
  {
    && |d.spus| == |c.spus| + 1
    && var a := d.spus[|c.spus|];
       && NewlyNumbered(a, c, s, inputs) && Evaluated(a)
       && d == c.(spus := c.spus + [a], audit := c.audit + ExecuteEntries(c.id, a), status := d.status,
                  overall := d.overall)
       && if E.EngineRejects(inputs) then d.status == c.status && d.overall == c.overall else UpToDate(d)
  }

  ghost predicate ExecuteOutcome(c: Container, d: Container, reply: Reply, s: string, inputs: Inputs) {
    if c.status == Archived then d == c && reply == Error(ContainerClosed)
    else if s == "" then d == c && reply == Error(SpuRequired)
    else
      var listed := if s in c.catalog then c else c.(catalog := c.catalog + [s]);
      if !E.InputsOk(inputs) then d == listed && reply == Error(BadInputs)
      else
        && ExecutedAs(listed, d, s, inputs)
        && reply == if E.EngineRejects(inputs) then Error(EngineFailed) else Ok
  }

  lemma SubmitsNext(c: Container, s: string, inputs: Inputs)
    requires Numbered(c.spus) && E.InputsOk(inputs)
    ensures var d := Submit(c, s, inputs); var a := d.spus[|c.spus|];
            && NewlyNumbered(a, c, s, inputs) && a.status == Running && a.outputs == None && !a.gatePassed
            && d == c.(spus := c.spus + [a], audit := c.audit + ExecuteEntries(c.id, a))
  {
    MaxIndexIsCount(c.spus, s);
    hide MaxIndex, AttemptCount, E.InputsOk;
  }

  lemma EvaluatesLast(c: Container, d: Container, inputs: Inputs, outputs: E.Outputs)
    requires |d.spus| == |c.spus| + 1 && E.InputsOk(inputs) && E.RunPath(inputs) == Success(outputs)
    requires var a := d.spus[|c.spus|];
             && a.inputs == inputs && a.status == Running
             && d == c.(spus := c.spus + [a], audit := c.audit + ExecuteEntries(c.id, a))
    ensures var e := Judge(Calculate(d, |c.spus|, outputs), |c.spus|, E.GatePasses(outputs));
            var a, b := d.spus[|c.spus|], e.spus[|c.spus|];
            && b == a.(outputs := Some(outputs), gatePassed := E.AtLeast(outputs.compactionDegree, 93.0),
                       status := Signing)
            && e == c.(spus := c.spus + [b], audit := c.audit + ExecuteEntries(c.id, b))
  {
    hide E.InputsOk, E.RunPath, E.AtLeast;
  }

  lemma NextIsNumbered(spus: seq<Attempt>, a: Attempt)
    requires Numbered(spus) && a.index == AttemptCount(spus, a.spuId) + 1
    ensures Numbered(spus + [a])
  {
    MaxIndexIsCount(spus, a.spuId);
    CreateKeepsNumbering(spus, a);
  }

  lemma EngineFails(c: Container, s: string, inputs: Inputs)
    requires Numbered(c.spus) && E.InputsOk(inputs) && E.EngineRejects(inputs)
    ensures var r := RunEngine(Submit(c, s, inputs), |c.spus|, inputs);
            ExecutedAs(c, r.0, s, inputs) && r.1 == Error(EngineFailed)
  {
    SubmitsNext(c, s, inputs);
    E.PathFailsExactly(inputs);
    hide Submit, ExecuteEntries, UpToDate, Numbered, E.InputsOk, E.RunPath, E.EngineRejects;
  }

  lemma EngineAnswers(c: Container, s: string, inputs: Inputs)
    requires Numbered(c.spus) && c.status != Archived && E.InputsOk(inputs) && !E.EngineRejects(inputs)
    ensures var r := RunEngine(Submit(c, s, inputs), |c.spus|, inputs);
            ExecutedAs(c, r.0, s, inputs) && r.1 == Ok
  {
    SubmitsNext(c, s, inputs);
    E.PathFailsExactly(inputs);
    hide Submit, Recalc, Calculate, Judge, ExecuteEntries, UpToDate, Numbered, E.InputsOk, E.RunPath, E.EngineRejects,
         E.GatePasses, E.AtLeast;
    var d, outputs := Submit(c, s, inputs), E.RunPath(inputs).value;
    EvaluatesLast(c, d, inputs, outputs);
    var e := Judge(Calculate(d, |c.spus|, outputs), |c.spus|, E.GatePasses(outputs));
    NextIsNumbered(c.spus, e.spus[|c.spus|]);
    RecalcRefreshes(e);
  }

  /** What an execution leaves behind, accepted or not. */
  lemma ExecuteReaches(c: Container, s: string, inputs: Inputs)
    requires Inv(c)
    ensures var r := Execute(c, s, inputs);
            ExecuteOutcome(c, r.0, r.1, s, inputs)
  {
    hide AttemptsInv, Open, Closed, NoStrays, ExecutedAs, Submit, RunEngine, E.InputsOk, E.EngineRejects;
    if c.status != Archived && s != "" && E.InputsOk(inputs) {
      var listed := GrowCatalog(c, s);
      if E.EngineRejects(inputs) {
        EngineFails(listed, s, inputs);
      } else {
        EngineAnswers(listed, s, inputs);
      }
    }
  }

  // ---------- archiving ----------

  /** The result of the SPU `s` repeats its last attempt. */
  ghost predicate ResultOf(r: SpecResult, spus: seq<Attempt>, s: string) {
    exists i: nat :: LastOf(spus, s, i) && ResultRepeats(r, spus, spus[i])
  }

  ghost predicate ResultRepeats(r: SpecResult, spus: seq<Attempt>, a: Attempt) {
    && r.spuId == a.spuId && (a.status == FinalPass || a.status == FinalFail)
    && r.passed == (a.status == FinalPass) && r.gatePassed == r.passed && r.outputs == a.outputs
    && r.attempts == AttemptCount(spus, a.spuId) && r.latestIndex == a.index
  }

  ghost predicate ProofSays(p: Proof, c: Container) {
    && p.containerId == c.id && p.audit == c.audit
    && |p.results| == |c.catalog| && (forall k :: 0 <= k < |c.catalog| ==> ResultOf(p.results[k], c.spus, c.catalog[k]))
    && NoDup(p.signatures) && (forall r :: r in p.signatures <==> Signer(r))
  }

  /** Closing changes the status, the verdict and the trail, and adds the proof. */
  ghost predicate ClosedAs(c: Container, d: Container) {
    && d.proof.Some? && ProofSays(d.proof.value, d)
    && d == c.(status := Archived, overall := if AllEnd(c.spus, c.catalog, {FinalPass}) then OverallPass
                                             else OverallFail,
               audit := c.audit + [ContainerArchived(c.id)], proof := d.proof)
  }

  ghost predicate ArchiveOutcome(c: Container, d: Container, reply: Reply) {
    if c.status == Archived then d == c && reply == Error(AlreadyArchived)
    else if c.spus != [] && AllEnd(c.spus, c.catalog, {FinalPass, FinalFail}) then ClosedAs(c, d) && reply == Ok
    else Refreshed(c, d) && reply == Error(NotVerified)
  }

  lemma LastResult(r: SpecResult, c: Container, s: string)
    requires Numbered(c.spus) && ResultOk(r, c, s)
    ensures ResultOf(r, c.spus, s)
  {
    LatestIsLastCreated(c.spus, s);
    hide AttemptCount, Numbered, LatestAt;
    var i := LatestAt(c.spus, s).value;
    assert LastOf(c.spus, s, i) && ResultRepeats(r, c.spus, c.spus[i]);
  }

  lemma ResultsSay(c: Container, p: Proof)
    requires Numbered(c.spus) && ProofOk(c, p)
    ensures ProofSays(p, c)
  {
    hide Numbered, ResultOf, ResultOk;
    forall k | 0 <= k < |c.catalog| ensures ResultOf(p.results[k], c.spus, c.catalog[k]) {
      assert ResultOk(p.results[k], c, c.catalog[k]);
      LastResult(p.results[k], c, c.catalog[k]);
    }
  }

  /** Once all have finished, the verdict is a failure unless all have passed. */
  lemma FinishedVerdict(c: Container)
    requires UpToDate(c) && c.spus != [] && AllEnd(c.spus, c.catalog, {FinalPass, FinalFail})
    ensures c.overall == if AllEnd(c.spus, c.catalog, {FinalPass}) then OverallPass else OverallFail
  {
    forall s | Ends(c.spus, s, {FinalPass, FinalFail})
      ensures Ends(c.spus, s, {FinalPass}) <==> !Ends(c.spus, s, {FinalFail})
    {
      var i: nat :| LastOf(c.spus, s, i) && c.spus[i].status in {FinalPass, FinalFail};
      assert forall j: nat :: LastOf(c.spus, s, j) ==> j == i;
    }
    hide Ends;
  }

  lemma VerifiedExactly(c: Container)
    requires Inv(c) && Open(c)
    ensures Refreshed(c, Recalc(c))
    ensures Recalc(c).status == Verified <==> c.spus != [] && AllEnd(c.spus, c.catalog, {FinalPass, FinalFail})
    ensures Recalc(c).status == Verified ==>
              Recalc(c).overall == if AllEnd(c.spus, c.catalog, {FinalPass}) then OverallPass else OverallFail
  {
    RecalcRefreshes(c);
    hide AttemptsInv, NoStrays, Numbered, Recalc, AllEnd, SomeEnds;
    if Recalc(c).status == Verified {
      FinishedVerdict(Recalc(c));
    }
  }

  lemma ArchiveUnfolds(c: Container)
    requires Open(c) && Recalc(c).status == Verified && BuildProof(Closing(c)).Success?
    ensures Archive(c) == (Closing(c).(proof := Some(BuildProof(Closing(c)).value)), Ok)
  {
    hide Recalc, BuildProof;
  }

  lemma ProofStillSays(p: Proof, c: Container, proof: Option<Proof>)
    requires ProofSays(p, c)
    ensures ProofSays(p, c.(proof := proof))
  {
    hide ResultOf;
  }

  lemma ClosedForm(c: Container)
    requires Open(c) && Recalc(c).status == Verified && BuildProof(Closing(c)).Success?
    requires Recalc(c).overall == if AllEnd(c.spus, c.catalog, {FinalPass}) then OverallPass else OverallFail
    requires var p := BuildProof(Closing(c)).value;
             ProofSays(p, Closing(c).(proof := Some(p)))
    ensures ClosedAs(c, Archive(c).0) && Archive(c).1 == Ok
  {
    ArchiveUnfolds(c);
    RecalcFields(c);
    hide Recalc, ProofSays, AllEnd, BuildProof, Archive;
  }

  lemma ClosingSays(c: Container)
    requires Inv(c) && Open(c) && Recalc(c).status == Verified
    ensures BuildProof(Closing(c)).Success?
    ensures var p := BuildProof(Closing(c)).value;
            ProofSays(p, Closing(c).(proof := Some(p)))
  {
    FinishedCloses(c);
    ClosingKeepsAttempts(c);
    hide Recalc, ProofSays, ProofOk, BuildProof, AttemptsInv, NoStrays, Numbered, Closing;
    var p := BuildProof(Closing(c)).value;
    ResultsSay(Closing(c), p);
    ProofStillSays(p, Closing(c), Some(p));
  }

  lemma FinishedIsClosed(c: Container)
    requires Inv(c) && Open(c) && Recalc(c).status == Verified
    ensures var r := Archive(c);
            ClosedAs(c, r.0) && r.1 == Ok
  {
    hide *;
    VerifiedExactly(c);
    ClosingSays(c);
    ClosedForm(c);
  }

  /** What archiving leaves behind, refused or not. */
  lemma ArchiveReaches(c: Container)
    requires Inv(c)
    ensures var r := Archive(c);
            ArchiveOutcome(c, r.0, r.1)
  {
    hide Shape, AttemptsInv, ProofOk, Recalc, AllEnd, BuildProof, Refreshed, ClosedAs;
    if c.status != Archived {
      VerifiedExactly(c);
      if Recalc(c).status == Verified {
        FinishedIsClosed(c);
      }
    }
  }

  // ---------- creating ----------

  /** The id asked for, or a fresh one, under the container prefix; the prefix is not doubled. */
  ghost predicate IdOf(cid: string, id: string, uuid: string) {
    && (id == "" ==> cid == "v://space/container/" + uuid)
    && (id != "" && "v://space/container/" <= id ==> cid == id)
    && (id != "" && !("v://space/container/" <= id) ==> cid == "v://space/container/" + id)
  }

  /** The SPUs asked for, blank ones left out and each once; without any, the two of the subgrade. */
  ghost predicate CatalogOf(catalog: seq<string>, spuIds: Option<seq<string>>) {
    if spuIds == None || spuIds == Some([])
    then catalog == ["highway.subgrade.compaction.soil@v1", "highway.subgrade.compaction.base@v1"]
    else
      && NoDup(catalog) && (forall s :: s in catalog <==> s in spuIds.value && s != "")
      && forall s, t :: FirstBefore(spuIds.value, s, t) && s != "" && t != "" ==> Before(catalog, s, t)
  }

  /** What comes of a request to create a container. */
  ghost predicate CreateOutcome(store: Store, next: Store, reply: Reply, id: string, uuid: string, slotRef: string,
                                spuIds: Option<seq<string>>) {
    exists cid :: IdOf(cid, id, uuid) &&
      if slotRef == "" then next == store && reply == Error(SlotRequired)
      else if cid in store then next == store && reply == Error(ContainerExists)
      else
        && reply == Ok && cid in next && CatalogOf(next[cid].catalog, spuIds)
        && next == store[cid := Container(cid, slotRef, Created, OverallPending, [], next[cid].catalog, None,
                                          [ContainerCreated(cid)])]
  }

  lemma CreateReaches(store: Store, id: string, uuid: string, slotRef: string, spuIds: Option<seq<string>>)
    ensures var r := Step(store, CreateContainer(id, uuid, slotRef, spuIds));
            CreateOutcome(store, r.0, r.1, id, uuid, slotRef, spuIds)
  {
    var cid := NormalizeContainerId(id, uuid);
    assert IdOf(cid, id, uuid);
    CatalogIs(spuIds);
    hide IdOf, NormalizeContainerId, CatalogOf, InitialCatalog;
  }

  lemma CatalogIs(spuIds: Option<seq<string>>)
    ensures CatalogOf(InitialCatalog(spuIds), spuIds)
  {
    if spuIds.Some? && spuIds.value != [] {
      forall s, t | FirstBefore(spuIds.value, s, t) && s != "" && t != ""
        ensures Before(InitialCatalog(spuIds), s, t)
      {
        FilterInOrder(spuIds.value, NonBlank, s, t);
        DedupInOrder(Filter(spuIds.value, NonBlank), s, t);
      }
    }
    hide FirstBefore, Before;
  }

  // ---------- requests ----------

  /** What one container becomes when a request reaches it. */
  ghost predicate Outcome(c: Container, d: Container, reply: Reply, req: Request) {
    match req
    case CreateContainer(_, _, _, _) => false
    case ExecuteSpu(_, s, inputs) => ExecuteOutcome(c, d, reply, s, inputs)
    case SignAttempt(_, s, role, index) =>
      if c.status == Archived then d == c && reply == Error(ContainerClosed)
      else if s == "" || role == "" then d == c && reply == Error(RoleRequired)
      else if exists i :: Addressed(c.spus, s, index, i)
      then exists i :: Addressed(c.spus, s, index, i) && SignOutcome(c, d, reply, i, role)
      else d == c && reply == Error(AttemptMissing)
    case ArchiveContainer(_) => ArchiveOutcome(c, d, reply)
    case GetContainer(_) => reply == Ok && if c.status == Archived then d == c else Refreshed(c, d)
  }

  /** The answer to a request for a container: none is known, or this one changes and all others stay. */
  ghost predicate Answered(store: Store, next: Store, reply: Reply, req: Request, id: string) {
    if id !in store then next == store && reply == Error(ContainerMissing)
    else id in next && next == store[id := next[id]] && Outcome(store[id], next[id], reply, req)
  }

  lemma SignOutcomeOf(c: Container, id: string, s: string, role: string, index: Option<int>)
    requires Inv(c)
    ensures var r := SignSpu(c, s, role, index);
            Outcome(c, r.0, r.1, SignAttempt(id, s, role, index))
  {
    hide Numbered, AttemptsInv, NoStrays, Closed, SignOutcome, Addressed, AttemptAt;
    if c.status != Archived && s != "" && role != "" {
      if i: nat :| Addressed(c.spus, s, index, i) {
        SignReaches(c, s, role, index, i);
        hide SignSpu;
      } else {
        SignMisses(c, s, role, index);
        hide SignSpu;
      }
    }
  }

  lemma ExecuteAnswered(store: Store, id: string, s: string, inputs: Inputs)
    requires StoreInv(store)
    ensures var r := Step(store, ExecuteSpu(id, s, inputs));
            Answered(store, r.0, r.1, ExecuteSpu(id, s, inputs), id)
  {
    if id in store { ExecuteReaches(store[id], s, inputs); }
    hide Inv, Execute, ExecuteOutcome;
  }

  lemma SignAnswered(store: Store, id: string, s: string, role: string, index: Option<int>)
    requires StoreInv(store)
    ensures var r := Step(store, SignAttempt(id, s, role, index));
            Answered(store, r.0, r.1, SignAttempt(id, s, role, index), id)
  {
    if id in store { SignOutcomeOf(store[id], id, s, role, index); }
    hide Inv, SignSpu, Outcome;
  }

  lemma ArchiveAnswered(store: Store, id: string)
    requires StoreInv(store)
    ensures var r := Step(store, ArchiveContainer(id));
            Answered(store, r.0, r.1, ArchiveContainer(id), id)
  {
    if id in store { ArchiveReaches(store[id]); }
    hide Inv, Archive, ArchiveOutcome;
  }

  lemma GetAnswered(store: Store, id: string)
    requires StoreInv(store)
    ensures var r := Step(store, GetContainer(id));
            Answered(store, r.0, r.1, GetContainer(id), id)
  {
    hide AttemptsInv, NoStrays, NoDup, Closed, Numbered, Recalc, Refreshed;
    if id in store {
      RecalcFields(store[id]);
      if store[id].status != Archived {
        RecalcRefreshes(store[id]);
      }
    }
  }

  /**
   * In every run each request does to the store what `Answered` says: it creates, executes, signs, archives or reads
   * the one container it names, with the reply that goes with it.
   */
  lemma EveryRequest(reqs: seq<Request>, req: Request)
    ensures var store := Run(map[], reqs);
            var (next, reply) := Step(store, req);
            match req
            case CreateContainer(id, uuid, slotRef, spuIds) =>
              CreateOutcome(store, next, reply, id, uuid, slotRef, spuIds)
            case ExecuteSpu(id, _, _) => Answered(store, next, reply, req, id)
            case SignAttempt(id, _, _, _) => Answered(store, next, reply, req, id)
            case ArchiveContainer(id) => Answered(store, next, reply, req, id)
            case GetContainer(id) => Answered(store, next, reply, req, id)
  {
    RunSound(map[], reqs);
    var store := Run(map[], reqs);
    hide Run, Inv, Step, CreateOutcome, Answered;
    match req {
      case CreateContainer(id, uuid, slotRef, spuIds) => CreateReaches(store, id, uuid, slotRef, spuIds);
      case ExecuteSpu(id, s, inputs) => ExecuteAnswered(store, id, s, inputs);
      case SignAttempt(id, s, role, index) => SignAnswered(store, id, s, role, index);
      case ArchiveContainer(id) => ArchiveAnswered(store, id);
      case GetContainer(id) => GetAnswered(store, id);
    }
  }
}
