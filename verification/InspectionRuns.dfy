/** Runs of the quality API: what holds in every reachable store, and what no later request undoes. */
module InspectionRuns {
  import opened Lists
  import opened Inspection
  import opened AttemptNumbering
  import opened AuditReplay
  import opened InspectionInvariant
  import opened InspectionArchive
  import E = CompactionEngine

  ghost predicate StoreInv(store: Store) {
    forall id :: id in store ==> store[id].id == id && Inv(store[id])
  }

  // ---------- what a handler may do to a container ----------

  /** How one attempt may change: signatures are only added, and a final attempt not at all. */
  ghost predicate AttemptGrows(a: Attempt, b: Attempt) {
    && a.spuId == b.spuId && a.index == b.index && a.required == b.required && a.inputs == b.inputs
    && a.signedBy <= b.signedBy
    && (Final(a.status) ==> b == a)
  }

  ghost predicate Grows(c: Container, d: Container) {
    && d.id == c.id && d.slotRef == c.slotRef
    && c.audit <= d.audit && c.catalog <= d.catalog
    && |c.spus| <= |d.spus| && (forall i :: 0 <= i < |c.spus| ==> AttemptGrows(c.spus[i], d.spus[i]))
    && (c.status == Archived ==> d == c)
  }

  lemma GrowsKeepsId(c: Container, d: Container)
    requires Grows(c, d)
    ensures d.id == c.id
  {
  }

  lemma GrowsReflexive()
    ensures forall c: Container :: Grows(c, c)
  {
  }

  lemma GrowsTransitive(c: Container, d: Container, e: Container)
    requires Grows(c, d) && Grows(d, e)
    ensures Grows(c, e)
  {
    forall i | 0 <= i < |c.spus| ensures AttemptGrows(c.spus[i], e.spus[i]) {
      assert AttemptGrows(c.spus[i], d.spus[i]) && AttemptGrows(d.spus[i], e.spus[i]);
    }
  }

  lemma RecalcGrows(c: Container)
    ensures Grows(c, Recalc(c))
  {
    RecalcFields(c);
    hide Recalc;
  }

  lemma EngineGrows(c: Container, d: Container, inputs: Inputs)
    requires Grows(c, d) && c.status != Archived && |d.spus| == |c.spus| + 1 && E.InputsOk(inputs)
    ensures Grows(c, RunEngine(d, |c.spus|, inputs).0)
  {
    hide Recalc, E.RunPath, E.InputsOk, E.GatePasses;
    var path := E.RunPath(inputs);
    if path.Success? {
      var e := Calculate(d, |c.spus|, path.value);
      assert Grows(c, e);
      var f := Judge(e, |c.spus|, E.GatePasses(path.value));
      assert Grows(c, f);
      RecalcGrows(f);
      GrowsTransitive(c, f, Recalc(f));
    }
  }

  lemma ExecuteGrows(c: Container, spuId: string, inputs: Inputs)
    ensures Grows(c, Execute(c, spuId, inputs).0)
  {
    hide MaxIndex, RunEngine, E.InputsOk;
    if c.status != Archived && spuId != "" && E.InputsOk(inputs) {
      var d := Submit(GrowCatalog(c, spuId), spuId, inputs);
      assert Grows(c, d);
      EngineGrows(c, d, inputs);
    }
  }

  lemma AddSignatureGrows(c: Container, k: nat, role: string)
    requires c.status != Archived && k < |c.spus| && !Final(c.spus[k].status)
    ensures Grows(c, AddSignature(c, k, role))
  {
    hide Pending;
    var d := RecordSignature(c, k, role);
    assert Grows(c, d);
  }

  lemma SignGrows(c: Container, spuId: string, role: string, index: Option<int>)
    ensures Grows(c, SignSpu(c, spuId, role, index).0)
  {
    hide Recalc, AddSignature, AttemptAt;
    var at := AttemptAt(c.spus, spuId, index);
    if c.status != Archived && at.Some? && c.spus[at.value].status == Signing {
      AddSignatureGrows(c, at.value, role);
      var d := AddSignature(c, at.value, role);
      RecalcGrows(d);
      GrowsTransitive(c, d, Recalc(d));
    }
  }

  lemma ArchiveGrows(c: Container)
    requires Inv(c)
    ensures Grows(c, Archive(c).0)
  {
    hide Recalc, BuildProof, Shape, AttemptsInv, ProofOk;
    RecalcFields(c);
  }

  // ---------- one request ----------

  lemma EmptyContainerInv(id: string, slotRef: string, spuIds: Option<seq<string>>)
    ensures Inv(EmptyContainer(id, slotRef, InitialCatalog(spuIds)))
  {
  }

  /** `next` is a sound successor of `store`. */
  ghost predicate Successor(store: Store, next: Store) {
    && StoreInv(next) && store.Keys <= next.Keys
    && forall id :: id in store ==> Grows(store[id], next[id])
  }

  lemma StoredAgain(store: Store, id: string, d: Container)
    requires StoreInv(store) && id in store && Inv(d) && Grows(store[id], d)
    ensures Successor(store, store[id := d])
  {
    hide Inv, Grows;
    GrowsReflexive();
    GrowsKeepsId(store[id], d);
  }

  lemma StoredNew(store: Store, id: string, slotRef: string, spuIds: Option<seq<string>>)
    requires StoreInv(store) && id !in store
    ensures Successor(store, store[id := EmptyContainer(id, slotRef, InitialCatalog(spuIds))])
  {
    assert EmptyContainer(id, slotRef, InitialCatalog(spuIds)).id == id;
    hide Inv, Grows, EmptyContainer;
    GrowsReflexive();
    EmptyContainerInv(id, slotRef, spuIds);
  }

  lemma StepSound(store: Store, req: Request)
    requires StoreInv(store)
    ensures Successor(store, Step(store, req).0)
  {
    hide Inv, Grows, Execute, SignSpu, Archive, Recalc, EmptyContainer;
    GrowsReflexive();
    match req {
      case CreateContainer(id, uuid, slotRef, spuIds) =>
        var cid := NormalizeContainerId(id, uuid);
        if slotRef != "" && cid !in store {
          StoredNew(store, cid, slotRef, spuIds);
        }
      case ExecuteSpu(id, spuId, inputs) =>
        if id in store {
          ExecuteKeepsInv(store[id], spuId, inputs);
          ExecuteGrows(store[id], spuId, inputs);
          StoredAgain(store, id, Execute(store[id], spuId, inputs).0);
        }
      case SignAttempt(id, spuId, role, index) =>
        if id in store {
          SignKeepsInv(store[id], spuId, role, index);
          SignGrows(store[id], spuId, role, index);
          StoredAgain(store, id, SignSpu(store[id], spuId, role, index).0);
        }
      case ArchiveContainer(id) =>
        if id in store {
          ArchiveKeepsInv(store[id]);
          ArchiveGrows(store[id]);
          StoredAgain(store, id, Archive(store[id]).0);
        }
      case GetContainer(id) =>
        if id in store {
          RecalcKeepsInv(store[id]);
          RecalcGrows(store[id]);
          StoredAgain(store, id, Recalc(store[id]));
        }
    }
  }

  // ---------- every run ----------

  /** Every request list keeps the invariant of every container and lets containers only grow. */
  lemma {:induction false} RunSound(store: Store, reqs: seq<Request>)
    requires StoreInv(store)
    ensures Successor(store, Run(store, reqs))
    decreases |reqs|
  {
    hide Inv, Step, Grows;
    GrowsReflexive();
    if reqs != [] {
      var next := Step(store, reqs[0]).0;
      StepSound(store, reqs[0]);
      RunSound(next, reqs[1..]);
      forall id | id in store ensures Grows(store[id], Run(store, reqs)[id]) {
        GrowsTransitive(store[id], next[id], Run(store, reqs)[id]);
      }
    }
  }

  /** An archived container and its proof stay exactly as they are, whatever is requested afterwards. */
  lemma ArchivedForever(before: seq<Request>, after: seq<Request>, id: string)
    requires var store := Run(map[], before); id in store && store[id].status == Archived
    ensures var end := Run(Run(map[], before), after); id in end && end[id] == Run(map[], before)[id]
  {
    RunSound(map[], before);
    RunSound(Run(map[], before), after);
    hide Inv, Run;
  }

  /** A final attempt never changes, and no audit entry is ever lost or rewritten. */
  lemma HistoryForever(before: seq<Request>, after: seq<Request>, id: string)
    requires id in Run(map[], before)
    ensures id in Run(Run(map[], before), after)
    ensures var c, d := Run(map[], before)[id], Run(Run(map[], before), after)[id];
            && c.audit <= d.audit
            && |c.spus| <= |d.spus|
            && forall i :: 0 <= i < |c.spus| && Final(c.spus[i].status) ==> d.spus[i] == c.spus[i]
  {
    RunSound(map[], before);
    RunSound(Run(map[], before), after);
    hide Inv, Run;
    var c, d := Run(map[], before)[id], Run(Run(map[], before), after)[id];
    assert Grows(c, d);
    forall i | 0 <= i < |c.spus| && Final(c.spus[i].status) ensures d.spus[i] == c.spus[i] {
      assert AttemptGrows(c.spus[i], d.spus[i]);
    }
  }

  /**
   * The trail of every reachable container is a faithful history: the entries of each attempt start with its creation,
   * hang together, end in its status, and name its signers in the order in which they signed.
   */
  lemma TrailIsFaithful(reqs: seq<Request>, id: string, i: nat)
    requires id in Run(map[], reqs) && i < |Run(map[], reqs)[id].spus|
    ensures var c := Run(map[], reqs)[id];
            var rs := RecordsOf(c.audit, c.spus[i].spuId, c.spus[i].index);
            Chained(rs, c.spus[i].status) && Dedup(SignActors(rs)) == c.spus[i].signedBy
  {
    RunSound(map[], reqs);
    var c := Run(map[], reqs)[id];
    hide Run, Replay, RecordsOf;
    assert Inv(c) && AttemptInv(c.spus[i], c.audit);
    ReplayIsChain(c.audit, c.spus[i].spuId, c.spus[i].index);
  }

  /** The signature protocol in every reachable container. */
  lemma SignatureProtocol(reqs: seq<Request>, id: string, i: nat)
    requires id in Run(map[], reqs) && i < |Run(map[], reqs)[id].spus|
    ensures var a := Run(map[], reqs)[id].spus[i];
            && NoDup(a.signedBy) && (forall r :: r in a.signedBy ==> r in a.required)
            && a.required == REQUIRED_SIGNATURES && a.pending == Filter(a.required, r => r !in a.signedBy)
            && (Final(a.status) <==> a.pending == [])
            && (Final(a.status) ==> (a.status == FinalPass <==> a.gatePassed))
  {
    RunSound(map[], reqs);
    hide Run, Replay, Shape;
    assert AttemptInv(Run(map[], reqs)[id].spus[i], Run(map[], reqs)[id].audit);
  }

  /** Attempt numbering in every reachable container: a look-up by index is unique, and latest means last created. */
  lemma NumberingProtocol(reqs: seq<Request>, id: string, s: string)
    requires id in Run(map[], reqs)
    ensures var spus := Run(map[], reqs)[id].spus;
            && Numbered(spus)
            && (s !in Run(map[], reqs)[id].catalog ==> LatestAt(spus, s) == None)
            && (LatestAt(spus, s).Some? ==>
                  && LastOf(spus, s, LatestAt(spus, s).value)
                  && spus[LatestAt(spus, s).value].index == AttemptCount(spus, s))
            && forall k: nat :: 1 <= k <= AttemptCount(spus, s) ==>
                  exists i: nat :: FindAt(spus, s, k) == Some(i)
  {
    RunSound(map[], reqs);
    hide Run, Replay, AttemptCount, FindAt;
    var c := Run(map[], reqs)[id];
    LatestIsLastCreated(c.spus, s);
    forall k: nat | 1 <= k <= AttemptCount(c.spus, s) ensures exists i: nat :: FindAt(c.spus, s, k) == Some(i) {
      var i := IndicesComplete(c.spus, s, k);
    }
  }

  /** In every reachable state a container is archived exactly when it has a proof, and the proof is faithful. */
  lemma ProofExactlyWhenArchived(reqs: seq<Request>, id: string)
    requires id in Run(map[], reqs)
    ensures var c := Run(map[], reqs)[id];
            && (c.status == Archived <==> c.proof.Some?)
            && (c.proof.Some? ==> ProofOk(c, c.proof.value) && NoDup(c.catalog))
  {
    RunSound(map[], reqs);
    hide Run, Replay;
    assert Inv(Run(map[], reqs)[id]);
  }

  // ---------- what the calculation has to do with it ----------

  /**
   * In every reachable container an attempt is running exactly if the engine rejected its form; a finished attempt
   * carries the densities of its own form, and passed exactly if their compaction degree reaches the threshold.
   */
  lemma VerdictIsComputed(reqs: seq<Request>, id: string, i: nat)
    requires id in Run(map[], reqs) && i < |Run(map[], reqs)[id].spus|
    ensures var a := Run(map[], reqs)[id].spus[i];
            && E.InputsOk(a.inputs)
            && (a.status == Running <==> E.EngineRejects(a.inputs))
            && (a.status != Running ==> a.outputs == Some(E.RunPath(a.inputs).value))
            && (Final(a.status) ==>
                  (a.status == FinalPass <==> E.AtLeast(a.outputs.value.compactionDegree, E.GATE_THRESHOLD)))
  {
    RunSound(map[], reqs);
    hide Run, Replay, Shape, E.RunPath, E.AtLeast;
    var c := Run(map[], reqs)[id];
    assert AttemptInv(c.spus[i], c.audit);
    E.PathFailsExactly(c.spus[i].inputs);
  }

  /** A result of a proof was calculated from the form of the SPU's latest attempt, and says what its degree says. */
  ghost predicate ResultComputed(r: SpecResult, c: Container) {
    exists i :: 0 <= i < |c.spus| && LatestAt(c.spus, r.spuId) == Some(i) && ComputedFrom(r, c.spus[i])
  }

  ghost predicate ComputedFrom(r: SpecResult, a: Attempt) {
    && E.InputsOk(a.inputs) && !E.EngineRejects(a.inputs) && E.RunPath(a.inputs).Success?
    && r.outputs == Some(E.RunPath(a.inputs).value)
    && (r.passed <==> E.AtLeast(r.outputs.value.compactionDegree, E.GATE_THRESHOLD))
  }

  /** Every result of every archived proof stands on a calculated compaction degree. */
  lemma ProofIsComputed(reqs: seq<Request>, id: string, k: nat)
    requires id in Run(map[], reqs) && Run(map[], reqs)[id].proof.Some?
    requires k < |Run(map[], reqs)[id].proof.value.results|
    ensures ResultComputed(Run(map[], reqs)[id].proof.value.results[k], Run(map[], reqs)[id])
  {
    RunSound(map[], reqs);
    hide Run, Shape, E.RunPath, E.InputsOk, E.AtLeast, AttemptCount, LatestAt;
    var c := Run(map[], reqs)[id];
    var r := c.proof.value.results[k];
    assert ResultOk(r, c, c.catalog[k]);
    FinalIsComputed(c, r);
  }

  lemma FinalIsComputed(c: Container, r: SpecResult)
    requires Inv(c) && ResultOk(r, c, r.spuId) && Closed(c)
    requires exists k :: 0 <= k < |c.catalog| && c.catalog[k] == r.spuId
    ensures ResultComputed(r, c)
  {
    hide Shape, Replay, E.RunPath, E.InputsOk, E.AtLeast, AttemptCount, LatestAt, ProofOk;
    var i := LatestAt(c.spus, r.spuId).value;
    assert AttemptInv(c.spus[i], c.audit);
    E.PathFailsExactly(c.spus[i].inputs);
  }
}
