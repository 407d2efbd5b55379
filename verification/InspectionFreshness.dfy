/** Whether the stored status of a container is up to date after a request. */
module InspectionFreshness {
  import opened Lists
  import opened Inspection
  import opened AttemptNumbering
  import opened InspectionInvariant
  import opened InspectionRuns
  import E = CompactionEngine

  /** The stored status is what a recalculation would store. */
  ghost predicate Fresh(c: Container) {
    Recalc(c) == c
  }

  ghost predicate Failed(c: Container, s: string) {
    Latest(c.spus, s).Some? && Latest(c.spus, s).value.status == FinalFail
  }

  /** Some other SPU of the catalog has failed. */
  ghost predicate FailsBeside(c: Container, spuId: string) {
    exists s :: s in c.catalog && s != spuId && Failed(c, s)
  }

  /** The stored status is that of a container with an unfinished SPU `spuId`. */
  ghost predicate ShowsUnfinished(c: Container, spuId: string) {
    c.status == InProgress && c.overall == if FailsBeside(c, spuId) then OverallFail else OverallPending
  }

  // ---------- recalculation ----------

  lemma RecalcTwice(c: Container)
    ensures Fresh(Recalc(c))
  {
    hide Latest, LatestAt;
  }

  ghost predicate Unfinished(c: Container, spuId: string) {
    c.status != Archived && c.spus != [] && spuId in c.catalog &&
    (Latest(c.spus, spuId).None? || !Final(Latest(c.spus, spuId).value.status))
  }

  /** While an SPU is unfinished, only a failure elsewhere decides the verdict. */
  lemma RecalcUnfinished(c: Container, spuId: string)
    requires Unfinished(c, spuId)
    ensures Recalc(c) ==
            c.(status := InProgress, overall := if FailsBeside(c, spuId) then OverallFail else OverallPending)
  {
    hide Latest, LatestAt;
    if FailsBeside(c, spuId) {
      var s :| s in c.catalog && s != spuId && Failed(c, s);
      assert Latest(c.spus, s).Some? && Latest(c.spus, s).value.status == FinalFail;
    }
  }

  lemma UnfinishedIsFresh(c: Container, spuId: string)
    requires Unfinished(c, spuId)
    ensures Fresh(c) <==> ShowsUnfinished(c, spuId)
  {
    RecalcUnfinished(c, spuId);
    hide Recalc, FailsBeside, Unfinished;
  }

  // ---------- execute ----------

  lemma {:induction false} LatestIndexBound(spus: seq<Attempt>, s: string)
    ensures LatestAt(spus, s).Some? ==> spus[LatestAt(spus, s).value].index <= MaxIndex(spus, s)
  {
    if spus != [] {
      LatestIndexBound(spus[..|spus| - 1], s);
    }
  }

  /** A new attempt becomes the latest of its SPU and leaves the others alone. */
  lemma LatestAppend(spus: seq<Attempt>, a: Attempt, s: string)
    requires a.index > MaxIndex(spus, a.spuId)
    ensures Latest(spus + [a], s) == if s == a.spuId then Some(a) else Latest(spus, s)
  {
    LatestIndexBound(spus, s);
    assert (spus + [a])[..|spus|] == spus;
  }

  lemma UnknownHasNoAttempt(c: Container, s: string)
    requires Inv(c) && s !in c.catalog
    ensures Latest(c.spus, s).None?
  {
    hide AttemptsInv, NoStrays, Numbered;
  }

  /** A container like `c` with `spuId` listed and nothing else that a verdict elsewhere could see. */
  ghost predicate Alike(c: Container, d: Container, spuId: string) {
    && d.status == c.status && d.overall == c.overall
    && (forall s :: s in d.catalog <==> s in c.catalog || s == spuId)
    && (forall s :: s != spuId ==> Latest(d.spus, s) == Latest(c.spus, s))
  }

  lemma AlikeShows(c: Container, d: Container, spuId: string)
    requires Alike(c, d, spuId)
    ensures ShowsUnfinished(d, spuId) <==> ShowsUnfinished(c, spuId)
  {
    hide Latest;
    assert forall s :: s != spuId ==> (Failed(d, s) <==> Failed(c, s));
  }

  /** The form is refused; an unlisted SPU has been listed. */
  lemma RefusedForm(c: Container, spuId: string)
    requires Inv(c) && c.status != Archived
    ensures Fresh(GrowCatalog(c, spuId)) <==>
            if spuId in c.catalog || c.spus == [] then Fresh(c) else ShowsUnfinished(c, spuId)
  {
    var d := GrowCatalog(c, spuId);
    if c.spus != [] && spuId !in c.catalog {
      UnknownHasNoAttempt(c, spuId);
      hide Inv, Latest, Recalc, FailsBeside;
      assert Alike(c, d, spuId);
      UnfinishedIsFresh(d, spuId);
      AlikeShows(c, d, spuId);
    }
  }

  /** What submitting leaves behind: one more attempt, running. */
  lemma SubmitAppends(c: Container, spuId: string, inputs: Inputs)
    ensures var d := Submit(GrowCatalog(c, spuId), spuId, inputs); var a := d.spus[|c.spus|];
            && d.status == c.status && d.overall == c.overall && d.catalog == GrowCatalog(c, spuId).catalog
            && d.spus == c.spus + [a] && a.spuId == spuId && a.index > MaxIndex(c.spus, spuId) && a.status == Running
  {
    hide MaxIndex;
  }

  /** The engine rejects the form: the submitted attempt stays as it is. */
  lemma RejectedForm(c: Container, spuId: string, inputs: Inputs)
    requires c.status != Archived && E.InputsOk(inputs) && E.EngineRejects(inputs)
    ensures Fresh(RunEngine(Submit(GrowCatalog(c, spuId), spuId, inputs), |c.spus|, inputs).0) <==>
            ShowsUnfinished(c, spuId)
  {
    SubmitAppends(c, spuId, inputs);
    E.PathFailsExactly(inputs);
    var d := Submit(GrowCatalog(c, spuId), spuId, inputs);
    hide Submit, Latest, Recalc, FailsBeside, MaxIndex, E.RunPath, E.InputsOk, E.EngineRejects;
    var a := d.spus[|c.spus|];
    forall s ensures Latest(d.spus, s) == if s == spuId then Some(a) else Latest(c.spus, s) {
      LatestAppend(c.spus, a, s);
    }
    assert Alike(c, d, spuId);
    UnfinishedIsFresh(d, spuId);
    AlikeShows(c, d, spuId);
  }

  /** When the stored status is up to date after an execution, in terms of the container and the form before it. */
  ghost predicate FreshAfterExecute(c: Container, spuId: string, inputs: Inputs) {
    if c.status == Archived || spuId == "" then Fresh(c)
    else if E.InputsOk(inputs) then !E.EngineRejects(inputs) || ShowsUnfinished(c, spuId)
    else if spuId in c.catalog || c.spus == [] then Fresh(c)
    else ShowsUnfinished(c, spuId)
  }

  lemma ExecuteFresh(c: Container, spuId: string, inputs: Inputs)
    requires Inv(c)
    ensures Fresh(Execute(c, spuId, inputs).0) <==> FreshAfterExecute(c, spuId, inputs)
  {
    hide Inv, Fresh, ShowsUnfinished, Submit, GrowCatalog, E.InputsOk, E.EngineRejects, RunEngine;
    if c.status != Archived && spuId != "" {
      if !E.InputsOk(inputs) {
        RefusedForm(c, spuId);
      } else if E.EngineRejects(inputs) {
        RejectedForm(c, spuId, inputs);
      } else {
        GrowKeepsAttempts(c, spuId);
        EvaluatedIsFresh(Submit(GrowCatalog(c, spuId), spuId, inputs), |c.spus|, inputs);
      }
    }
  }

  lemma EvaluatedIsFresh(c: Container, k: nat, inputs: Inputs)
    requires k < |c.spus| && E.InputsOk(inputs) && !E.EngineRejects(inputs)
    ensures Fresh(RunEngine(c, k, inputs).0)
  {
    hide Fresh, Recalc, Judge, Calculate, E.InputsOk, E.EngineRejects, E.RunPath, E.GatePasses;
    E.PathFailsExactly(inputs);
    var outputs := E.RunPath(inputs).value;
    RecalcTwice(Judge(Calculate(c, k, outputs), k, E.GatePasses(outputs)));
  }

  // ---------- the other handlers ----------

  /** The signature is taken: the handler gets as far as the recalculation. */
  ghost predicate Signs(c: Container, spuId: string, role: string, index: Option<int>) {
    && c.status != Archived && spuId != "" && role != ""
    && AttemptAt(c.spus, spuId, index).Some?
    && var a := c.spus[AttemptAt(c.spus, spuId, index).value];
    a.status == Signing && role in a.required
  }

  lemma SignFresh(c: Container, spuId: string, role: string, index: Option<int>)
    ensures Fresh(SignSpu(c, spuId, role, index).0) <==> Signs(c, spuId, role, index) || Fresh(c)
  {
    hide Fresh, Recalc, AddSignature, AttemptAt;
    if Signs(c, spuId, role, index) {
      RecalcTwice(AddSignature(c, AttemptAt(c.spus, spuId, index).value, role));
    }
  }

  lemma ArchiveFresh(c: Container)
    requires Inv(c)
    ensures Fresh(Archive(c).0)
  {
    ArchivedIsFresh();
    RecalcTwice(c);
    hide Fresh, Recalc, BuildProof, Shape, AttemptsInv, ProofOk;
  }

  lemma ArchivedIsFresh()
    ensures forall c: Container :: c.status == Archived ==> Fresh(c)
  {
  }

  // ---------- every request ----------

  /** When the status of container `id` is up to date after a request, in terms of the store before it. */
  ghost predicate FreshAfter(store: Store, req: Request, id: string) {
    match req
    case CreateContainer(_, _, _, _) => id in store ==> Fresh(store[id])
    case ExecuteSpu(cid, spuId, inputs) =>
      id in store && if cid == id then FreshAfterExecute(store[id], spuId, inputs) else Fresh(store[id])
    case SignAttempt(cid, spuId, role, index) =>
      id in store && ((cid == id && Signs(store[id], spuId, role, index)) || Fresh(store[id]))
    case ArchiveContainer(cid) => id in store && (cid == id || Fresh(store[id]))
    case GetContainer(cid) => id in store && (cid == id || Fresh(store[id]))
  }

  /**
   * After any request a container's stored status is up to date exactly if: a recalculation ended the request, or the
   * request left the container as it was and it was up to date, or it left an SPU unfinished without a recalculation
   * and the status shown fits that.
   */
  lemma FreshAfterRequest(store: Store, req: Request, id: string)
    requires StoreInv(store) && id in Step(store, req).0
    ensures Fresh(Step(store, req).0[id]) <==> FreshAfter(store, req, id)
  {
    hide Inv, Fresh, Execute, SignSpu, Archive, Recalc, FreshAfterExecute, Signs, EmptyContainer;
    match req {
      case CreateContainer(_, _, slotRef, spuIds) =>
        NewIsFresh(NormalizeContainerId(req.id, req.uuid), slotRef, InitialCatalog(spuIds));
      case ExecuteSpu(cid, spuId, inputs) =>
        if cid == id { ExecuteFresh(store[id], spuId, inputs); }
      case SignAttempt(cid, spuId, role, index) =>
        if cid == id { SignFresh(store[id], spuId, role, index); }
      case ArchiveContainer(cid) =>
        if cid == id { ArchiveFresh(store[id]); }
      case GetContainer(cid) =>
        if cid == id { RecalcTwice(store[id]); }
    }
  }

  lemma NewIsFresh(id: string, slotRef: string, catalog: seq<string>)
    ensures Fresh(EmptyContainer(id, slotRef, catalog))
  {
  }

  // ---------- starting from an up-to-date status ----------

  /**
   * An up-to-date status shows an unfinished SPU exactly if it is in progress and no failure of that SPU alone decides
   * it.
   */
  lemma FreshShows(c: Container, spuId: string)
    requires Fresh(c) && c.status != Archived
    ensures ShowsUnfinished(c, spuId) <==>
            c.status == InProgress && (c.overall == OverallFail ==> FailsBeside(c, spuId))
  {
    hide Latest, LatestAt;
    if FailsBeside(c, spuId) {
      var s :| s in c.catalog && s != spuId && Failed(c, s);
      assert Latest(c.spus, s).Some? && Latest(c.spus, s).value.status == FinalFail;
    }
  }

  /**
   * A form refused for its inputs has already put the SPU into the catalog. The stored status is out of date from then
   * on exactly when the container was verified and did not list the SPU.
   */
  lemma StaleAfterBadInputs(c: Container, spuId: string, inputs: Inputs)
    requires Inv(c) && Fresh(c) && c.status != Archived && spuId != "" && !E.InputsOk(inputs)
    ensures Fresh(Execute(c, spuId, inputs).0) <==> c.status != Verified || spuId in c.catalog
  {
    ExecuteFresh(c, spuId, inputs);
    FreshShows(c, spuId);
    if c.spus != [] && spuId !in c.catalog {
      UnlistedDecidesNothing(c, spuId);
    }
    hide Execute, Inv, E.InputsOk, ShowsUnfinished, FailsBeside, Latest, LatestAt;
  }

  lemma UnlistedDecidesNothing(c: Container, spuId: string)
    requires Fresh(c) && c.status != Archived && c.spus != [] && spuId !in c.catalog
    ensures c.overall == OverallFail ==> FailsBeside(c, spuId)
    ensures c.status == InProgress || c.status == Verified
  {
    hide Latest, LatestAt;
    if c.overall == OverallFail {
      var s :| s in c.catalog && Latest(c.spus, s).Some? && Latest(c.spus, s).value.status == FinalFail;
      assert Failed(c, s);
    }
  }

  /**
   * A form that converts to numbers keeps the stored status up to date exactly if its volume and greatest dry density
   * are positive numbers, or the container was in progress and its verdict did not rest on a failure of that SPU alone.
   */
  lemma StaleAfterEngineFailure(c: Container, spuId: string, inputs: Inputs)
    requires Inv(c) && Fresh(c) && c.status != Archived && spuId != "" && E.InputsOk(inputs)
    ensures Fresh(Execute(c, spuId, inputs).0) <==>
            || !E.EngineRejects(inputs)
            || (c.status == InProgress && (c.overall == OverallFail ==> FailsBeside(c, spuId)))
  {
    ExecuteFresh(c, spuId, inputs);
    FreshShows(c, spuId);
    hide Execute, Inv, E.InputsOk, E.EngineRejects, ShowsUnfinished, FailsBeside, Fresh;
  }

  // ---------- a run that shows it ----------

  /** An open container with one SPU and one attempt that `signers` have signed. */
  ghost predicate OneAttempt(c: Container, s: string, signers: seq<string>, status: AttemptStatus) {
    && c.status != Archived && c.proof == None && c.catalog == [s] && |c.spus| == 1
    && var a := c.spus[0];
    && a.spuId == s && a.index == 1 && a.status == status && a.required == REQUIRED_SIGNATURES && a.signedBy == signers
  }

  lemma SingleLatest(c: Container, s: string)
    requires |c.spus| == 1 && c.spus[0].spuId == s
    ensures AttemptAt(c.spus, s, None) == Some(0) && Latest(c.spus, s) == Some(c.spus[0])
  {
    assert c.spus[..0] == [];
  }

  lemma FirstExecution(c: Container, s: string, inputs: Inputs)
    requires c.status == Created && c.proof == None && c.catalog == [s] && c.spus == [] && s != ""
    requires E.InputsOk(inputs) && !E.EngineRejects(inputs)
    ensures OneAttempt(Execute(c, s, inputs).0, s, [], Signing)
  {
    hide Recalc, E.InputsOk, E.RunPath, E.GatePasses, E.EngineRejects;
    E.PathFailsExactly(inputs);
    var outputs := E.RunPath(inputs).value;
    var passed := E.GatePasses(outputs);
    var d := Judge(Calculate(Submit(c, s, inputs), 0, outputs), 0, passed);
    RecalcFields(d);
  }

  lemma FirstSignature(c: Container, s: string)
    requires OneAttempt(c, s, [], Signing) && s != ""
    ensures OneAttempt(SignSpu(c, s, "lab", None).0, s, ["lab"], Signing)
  {
    hide Recalc, AttemptAt, Latest;
    SingleLatest(c, s);
    PendingAfter();
    hide Pending;
    RecalcFields(AddSignature(c, 0, "lab"));
  }

  lemma PendingAfter()
    ensures Pending(REQUIRED_SIGNATURES, ["lab"]) == ["supervision"]
    ensures Pending(REQUIRED_SIGNATURES, ["lab", "supervision"]) == []
  {
    var signed := ["lab"];
    assert REQUIRED_SIGNATURES == ["lab"] + ["supervision"];
    FilterSnoc(["lab"], "supervision", r => r !in signed);
    FilterNone(["lab"], r => r !in signed);
    FilterNone(REQUIRED_SIGNATURES, r => r !in ["lab", "supervision"]);
  }

  lemma SecondSignature(c: Container, s: string)
    requires OneAttempt(c, s, ["lab"], Signing) && s != ""
    ensures var d := SignSpu(c, s, "supervision", None).0;
            d.status == Verified && d.catalog == [s]
  {
    hide AttemptAt, Latest, Recalc;
    SingleLatest(c, s);
    PendingAfter();
    hide Pending;
    assert ["lab"] + ["supervision"] == ["lab", "supervision"];
    var d := AddSignature(c, 0, "supervision");
    SingleLatest(d, s);
    FinishedIsVerified(d, s);
    RecalcFields(d);
  }

  lemma FinishedIsVerified(c: Container, s: string)
    requires c.status != Archived && c.spus != [] && c.catalog == [s]
    requires Latest(c.spus, s).Some? && Final(Latest(c.spus, s).value.status)
    ensures Recalc(c).status == Verified
  {
    hide Latest;
  }

  const SAMPLE_ID := CONTAINER_PREFIX + "1"

  function SampleInputs(): Inputs {
    map f | f in E.INPUT_FIELDS :: E.Number(1.0)
  }

  /** Four requests to a verified container with one SPU. */
  function ToVerified(id: string, slotRef: string, s: string, inputs: Inputs): seq<Request> {
    [CreateContainer(id, "", slotRef, Some([s])), ExecuteSpu(id, s, inputs),
     SignAttempt(id, s, "lab", None), SignAttempt(id, s, "supervision", None)]
  }

  function SampleRun(): seq<Request> {
    ToVerified(SAMPLE_ID, "slot", "a", SampleInputs())
  }

  lemma RunOne(store: Store, reqs: seq<Request>)
    requires reqs != []
    ensures Run(store, reqs) == Run(Step(store, reqs[0]).0, reqs[1..])
  {
  }

  lemma RunOfFour(store: Store, a: Request, b: Request, c: Request, d: Request)
    ensures Run(store, [a, b, c, d]) == Step(Step(Step(Step(store, a).0, b).0, c).0, d).0
  {
    hide Step;
    var s3 := Step(Step(Step(store, a).0, b).0, c).0;
    RunOne(store, [a, b, c, d]);
    RunOne(Step(store, a).0, [b, c, d]);
    RunOne(Step(Step(store, a).0, b).0, [c, d]);
    RunOne(s3, [d]);
    assert [a, b, c, d][1..] == [b, c, d] && [b, c, d][1..] == [c, d] && [c, d][1..] == [d] && [d][1..] == [];
  }

  lemma ReachesVerified(id: string, slotRef: string, s: string, inputs: Inputs)
    requires NormalizeContainerId(id, "") == id && slotRef != "" && s != ""
    requires E.InputsOk(inputs) && !E.EngineRejects(inputs)
    requires InitialCatalog(Some([s])) == [s]
    ensures var store := Run(map[], ToVerified(id, slotRef, s, inputs));
            id in store && store[id].status == Verified && store[id].catalog == [s]
  {
    hide Run, Execute, SignSpu, E.InputsOk, E.EngineRejects, InitialCatalog, NormalizeContainerId;
    var reqs := ToVerified(id, slotRef, s, inputs);
    RunOfFour(map[], reqs[0], reqs[1], reqs[2], reqs[3]);
    var c1 := EmptyContainer(id, slotRef, [s]);
    var c2 := Execute(c1, s, inputs).0;
    var c3 := SignSpu(c2, s, "lab", None).0;
    FirstExecution(c1, s, inputs);
    FirstSignature(c2, s);
    SecondSignature(c3, s);
  }

  lemma SampleCatalog()
    ensures InitialCatalog(Some(["a"])) == ["a"]
  {
    hide Filter, Dedup;
    FilterAll(["a"], NonBlank);
    DedupOfNoDup(["a"]);
  }

  lemma SampleIsComplete()
    ensures E.InputsOk(SampleInputs()) && !E.EngineRejects(SampleInputs())
  {
    assert E.InputsOk(SampleInputs()) by {
      hide E.INPUT_FIELDS;
    }
  }

  /** The sample with a volume of zero, or with its greatest dry density sent as the text "1". */
  function RejectedInputs(zeroVolume: bool): Inputs {
    if zeroVolume then SampleInputs()["volumeSand" := E.Number(0.0)]
    else SampleInputs()["maxDryDensity" := E.Convertible(1.0)]
  }

  lemma RejectedIsComplete(zeroVolume: bool)
    ensures E.InputsOk(RejectedInputs(zeroVolume)) && E.EngineRejects(RejectedInputs(zeroVolume))
  {
    assert E.InputsOk(RejectedInputs(zeroVolume)) by {
      hide E.INPUT_FIELDS;
    }
  }

  lemma SampleContainer()
    ensures NormalizeContainerId(SAMPLE_ID, "") == SAMPLE_ID
    ensures InitialCatalog(Some(["a"])) == ["a"]
    ensures E.InputsOk(SampleInputs()) && !E.EngineRejects(SampleInputs())
  {
    hide InitialCatalog, E.InputsOk, E.EngineRejects, SampleInputs;
    SampleCatalog();
    SampleIsComplete();
  }

  /**
   * From there a refused form for an unlisted SPU, a volume of zero, and a number sent as a text leave the stored
   * status out of date.
   */
  lemma StaleIsReachable()
    ensures var store := Run(map[], SampleRun());
            && SAMPLE_ID in store
            && !Fresh(Step(store, ExecuteSpu(SAMPLE_ID, "b", map[])).0[SAMPLE_ID])
            && !Fresh(Step(store, ExecuteSpu(SAMPLE_ID, "a", RejectedInputs(true))).0[SAMPLE_ID])
            && !Fresh(Step(store, ExecuteSpu(SAMPLE_ID, "a", RejectedInputs(false))).0[SAMPLE_ID])
  {
    hide Run, Inv, SampleInputs, E.InputsOk, E.EngineRejects, RejectedInputs, ToVerified, SAMPLE_ID, E.INPUT_FIELDS,
         Fresh, NormalizeContainerId, InitialCatalog;
    SampleContainer();
    ReachesVerified(SAMPLE_ID, "slot", "a", SampleInputs());
    EmptyFormIsRefused();
    RejectedIsComplete(true);
    RejectedIsComplete(false);
    RunSound(map[], SampleRun());
    var store := Run(map[], SampleRun());
    VerifiedGoesStale(store, SAMPLE_ID, "b", map[]);
    VerifiedGoesStale(store, SAMPLE_ID, "a", RejectedInputs(true));
    VerifiedGoesStale(store, SAMPLE_ID, "a", RejectedInputs(false));
  }

  lemma EmptyFormIsRefused()
    ensures !E.InputsOk(map[])
  {
    assert "massHoleSand" in E.INPUT_FIELDS;
  }

  lemma VerifiedGoesStale(store: Store, id: string, spuId: string, inputs: Inputs)
    requires StoreInv(store) && id in store && store[id].status == Verified && spuId != ""
    requires if E.InputsOk(inputs) then E.EngineRejects(inputs) else spuId !in store[id].catalog
    ensures id in Step(store, ExecuteSpu(id, spuId, inputs)).0
    ensures !Fresh(Step(store, ExecuteSpu(id, spuId, inputs)).0[id])
  {
    hide Inv, Execute, E.InputsOk, E.EngineRejects, FailsBeside;
    FreshAfterRequest(store, ExecuteSpu(id, spuId, inputs), id);
  }
}
