/** Archiving is all or nothing: a container that recalculates to VERIFIED always yields a proof. */
module InspectionArchive {
  import opened Lists
  import opened Inspection
  import opened AttemptNumbering
  import opened AuditReplay
  import opened InspectionInvariant

  /** The last attempt of `s` is final, and in order. */
  ghost predicate Finished(c: Container, s: string) {
    && Latest(c.spus, s).Some?
    && var a := Latest(c.spus, s).value;
       && Final(a.status) && SignaturesOk(a) && a.pending == []
       && (a.status == FinalPass <==> a.gatePassed)
       && a.index == AttemptCount(c.spus, s) > 0
  }

  ghost predicate AllFinished(c: Container, catalog: seq<string>) {
    forall s :: s in catalog ==> Finished(c, s)
  }

  lemma FinalIsFinished(c: Container, s: string)
    requires Inv(c) && Latest(c.spus, s).Some? && Final(Latest(c.spus, s).value.status)
    ensures Finished(c, s)
  {
    LatestIsLastCreated(c.spus, s);
    hide Replay;
    var k := LatestAt(c.spus, s).value;
    assert AttemptInv(c.spus[k], c.audit);
  }

  /** VERIFIED means: some attempt exists, and every SPU of the catalog has finished. */
  lemma VerifiedMeansFinished(c: Container)
    requires Inv(c) && Open(c)
    ensures Recalc(c).status == Verified <==> c.spus != [] && AllFinished(c, c.catalog)
  {
    if forall s :: s in c.catalog ==> Latest(c.spus, s).Some? && Final(Latest(c.spus, s).value.status) {
      forall s | s in c.catalog ensures Finished(c, s) {
        FinalIsFinished(c, s);
      }
    }
    hide AttemptCount, LatestAt, Inv;
  }

  lemma FinishedResult(c: Container, s: string)
    requires Finished(c, s)
    ensures Latest(c.spus, s).Some? && Final(Latest(c.spus, s).value.status)
    ensures var a := Latest(c.spus, s).value;
            var r := SpecResult(s, a.status == FinalPass, AttemptCount(c.spus, s), a.index, a.outputs, a.gatePassed);
            ResultOk(r, c, s)
  {
    hide AttemptCount, LatestAt, SignaturesOk;
  }

  lemma {:induction false} FinishedYieldsResults(c: Container, catalog: seq<string>)
    requires AllFinished(c, catalog)
    ensures var r := SpecResults(c, catalog);
            && r.Success? && |r.value| == |catalog|
            && forall k :: 0 <= k < |catalog| ==> ResultOk(r.value[k], c, catalog[k])
  {
    if catalog != [] {
      hide AttemptCount, Latest, SignaturesOk, Finished, ResultOk;
      var n := |catalog| - 1;
      FinishedYieldsResults(c, catalog[..n]);
      FinishedResult(c, catalog[n]);
    }
  }

  /** Nothing pending means that every required role has signed. */
  lemma NothingPending(a: Attempt)
    requires SignaturesOk(a) && a.pending == []
    ensures forall r :: r in REQUIRED_SIGNATURES <==> r in a.signedBy
  {
    forall r | r in REQUIRED_SIGNATURES ensures r in a.signedBy || r in a.pending {
    }
  }

  lemma {:induction false} SignersAreRequired(c: Container, catalog: seq<string>)
    requires AllFinished(c, catalog)
    ensures forall r :: r in LatestSigners(c.spus, catalog) <==> catalog != [] && r in REQUIRED_SIGNATURES
  {
    if catalog != [] {
      var n := |catalog| - 1;
      SignersAreRequired(c, catalog[..n]);
      assert Finished(c, catalog[n]);
      NothingPending(Latest(c.spus, catalog[n]).value);
      hide SignaturesOk, AttemptCount, LatestAt;
    }
  }

  /** The proof of a finished container can be built, and summarises it faithfully. */
  lemma FinishedBuildsProof(c: Container)
    requires AllFinished(c, c.catalog) && c.catalog != []
    requires c.overall != OverallPending
    requires c.overall == OverallPass <==>
             forall s :: s in c.catalog ==> Latest(c.spus, s).Some? && Latest(c.spus, s).value.status == FinalPass
    requires c.audit != [] && c.audit[|c.audit| - 1] == ContainerArchived(c.id)
    ensures BuildProof(c).Success? && ProofOk(c, BuildProof(c).value)
  {
    hide AttemptCount, LatestAt, LatestSigners, SpecResults, AllFinished, Filter;
    FinishedYieldsResults(c, c.catalog);
    SignersAreRequired(c, c.catalog);
    var p := BuildProof(c).value;
    forall s | s in c.catalog
      ensures exists k :: 0 <= k < |c.catalog| && c.catalog[k] == s && ResultOk(p.results[k], c, s)
    {
      var k :| 0 <= k < |c.catalog| && c.catalog[k] == s;
      assert ResultOk(p.results[k], c, s);
    }
  }

  /** When all have finished the verdict is decided: a failed SPU fails the container. */
  lemma VerdictDecided(c: Container)
    requires c.status != Archived && c.spus != [] && AllFinished(c, c.catalog)
    ensures Recalc(c).overall != OverallPending
    ensures Recalc(c).overall == OverallPass <==>
            forall s :: s in c.catalog ==> Latest(c.spus, s).Some? && Latest(c.spus, s).value.status == FinalPass
  {
    assert forall s :: s in c.catalog ==> Finished(c, s);
    hide AttemptCount, LatestAt, SignaturesOk;
  }

  lemma CatalogCoversAttempts(c: Container)
    requires Shape(c) && c.spus != []
    ensures c.catalog != []
  {
    assert c.spus[0].spuId in c.catalog;
  }

  ghost function Closing(c: Container): Container {
    PushAudit(Recalc(c), ContainerArchived(c.id)).(status := Archived)
  }

  lemma FinishedCloses(c: Container)
    requires Inv(c) && Open(c) && Recalc(c).status == Verified
    ensures BuildProof(Closing(c)).Success? && ProofOk(Closing(c), BuildProof(Closing(c)).value)
  {
    hide Recalc, Shape, AttemptsInv, ProofOk, AttemptCount, LatestAt;
    var d := Closing(c);
    VerifiedMeansFinished(c);
    VerdictDecided(c);
    CatalogCoversAttempts(c);
    RecalcFields(c);
    assert d.spus == c.spus && d.catalog == c.catalog && d.id == c.id;
    assert AllFinished(d, d.catalog) by {
      forall s | s in d.catalog ensures Finished(d, s) {
        assert Finished(c, s);
      }
    }
    FinishedBuildsProof(d);
  }

  lemma {:induction false} ReplayIgnores(audit: seq<AuditRecord>, r: AuditRecord, spuId: string, index: nat)
    requires !r.AttemptRecord?
    ensures Replay(audit + [r], spuId, index) == Replay(audit, spuId, index)
  {
    ReplaySnoc(audit, r, spuId, index);
  }

  lemma ClosingKeepsAttempts(c: Container)
    requires Shape(c) && AttemptsInv(c, -1)
    ensures Shape(Closing(c)) && AttemptsInv(Closing(c), -1)
  {
    RecalcFields(c);
    hide Recalc, Replay, Numbered, AttemptCount;
    var d := Closing(c);
    forall i | 0 <= i < |d.spus| ensures AttemptInv(d.spus[i], d.audit) {
      assert AttemptInv(c.spus[i], c.audit);
      ReplayIgnores(c.audit, ContainerArchived(c.id), c.spus[i].spuId, c.spus[i].index);
    }
  }

  lemma ProofCloses(c: Container, p: Proof)
    requires Shape(c) && AttemptsInv(c, -1) && c.status == Archived && ProofOk(c, p)
    ensures Inv(c.(proof := Some(p))) && Closed(c.(proof := Some(p)))
  {
    hide Replay, Numbered, AttemptCount, AttemptInv;
  }

  lemma ArchiveKeepsInv(c: Container)
    requires Inv(c)
    ensures Inv(Archive(c).0)
  {
    hide ProofOk, Shape, AttemptsInv, Recalc, BuildProof;
    if Open(c) {
      RecalcKeepsInv(c);
      if Recalc(c).status == Verified {
        FinishedCloses(c);
        ClosingKeepsAttempts(c);
        ProofCloses(Closing(c), BuildProof(Closing(c)).value);
      }
    }
  }

  /**
   * Archiving succeeds exactly on an open container whose SPUs have all finished; it never gets as far as closing a
   * container without a proof.
   */
  lemma ArchiveAllOrNothing(c: Container)
    requires Inv(c)
    ensures var (d, reply) := Archive(c);
            && (reply == Ok <==> Open(c) && c.spus != [] && AllFinished(c, c.catalog))
            && reply != Error(NotFinal)
            && (reply == Ok ==> Closed(d) && d.spus == c.spus && d.catalog == c.catalog)
            && (reply != Ok && Open(c) ==> Open(d))
            && (d.status == Archived <==> d.proof.Some?)
  {
    hide ProofOk, Shape, AttemptsInv, Recalc, BuildProof, AllFinished;
    ArchiveKeepsInv(c);
    if Open(c) {
      VerifiedMeansFinished(c);
      RecalcFields(c);
      if Recalc(c).status == Verified {
        FinishedCloses(c);
      }
    }
  }
}
