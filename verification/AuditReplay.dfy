/** Reading an attempt's life back from the audit trail alone. */
module AuditReplay {
  import opened Lists
  import opened Inspection

  /** What the trail says of one attempt: nothing yet, its state so far, or that the trail is inconsistent. */
  datatype Life =
    | Unborn
    | Alive(status: AttemptStatus, signers: seq<string>, verdict: Option<bool>)
    | Broken

  ghost predicate About(r: AuditRecord, spuId: string, index: nat) {
    r.AttemptRecord? && r.spuId == spuId && r.index == index
  }

  /** The protocol of one attempt: which event may lead from which status to which. */
  ghost function Advance(l: Life, r: AuditRecord): Life
    requires r.AttemptRecord?
  {
    match l
    case Broken => Broken
    case Unborn =>
      if r.event == CreateNode && r.from == None && r.to == Draft then Alive(Draft, [], None) else Broken
    case Alive(s, signers, verdict) =>
      if r.from != Some(s) then Broken
      else
        match r.event
        case CreateNode => Broken
        case SubmitForm => if s == Draft && r.to == Running then Alive(Running, signers, verdict) else Broken
        case ExecutePath => if s == Running && r.to == Running then l else Broken
        case ExecuteRules =>
          if s == Running && (r.to == Pass || r.to == Fail) then Alive(r.to, signers, Some(r.to == Pass))
          else if (s == Pass || s == Fail) && r.to == Signing then Alive(Signing, signers, verdict)
          else Broken
        case Sign =>
          if s == Signing && r.to == Signing && r.actor.Some? && r.actor.value in REQUIRED_SIGNATURES
          then Alive(Signing, if r.actor.value in signers then signers else signers + [r.actor.value], verdict)
          else Broken
        case Finalize =>
          if s == Signing && (forall role :: role in REQUIRED_SIGNATURES ==> role in signers) &&
             verdict.Some? && r.to == (if verdict.value then FinalPass else FinalFail)
          then Alive(r.to, signers, verdict)
          else Broken
  }

  ghost function Replay(audit: seq<AuditRecord>, spuId: string, index: nat): Life {
    if audit == [] then Unborn
    else
      var n := |audit| - 1;
      var l := Replay(audit[..n], spuId, index);
      if About(audit[n], spuId, index) then Advance(l, audit[n]) else l
  }

  lemma ReplaySnoc(audit: seq<AuditRecord>, r: AuditRecord, spuId: string, index: nat)
    ensures Replay(audit + [r], spuId, index) ==
            if About(r, spuId, index) then Advance(Replay(audit, spuId, index), r) else Replay(audit, spuId, index)
  {
    assert (audit + [r])[..|audit|] == audit;
  }

  lemma {:induction false} NoRecordsNoLife(audit: seq<AuditRecord>, spuId: string, index: nat)
    requires forall k :: 0 <= k < |audit| ==> !About(audit[k], spuId, index)
    ensures Replay(audit, spuId, index) == Unborn
  {
    if audit != [] {
      NoRecordsNoLife(audit[..|audit| - 1], spuId, index);
    }
  }

  /** The entries about one attempt, in the order they were written. */
  ghost function RecordsOf(audit: seq<AuditRecord>, spuId: string, index: nat): seq<AuditRecord> {
    if audit == [] then []
    else
      var n := |audit| - 1;
      RecordsOf(audit[..n], spuId, index) + if About(audit[n], spuId, index) then [audit[n]] else []
  }

  /** The roles named by the signature entries of a list, in order and with repetitions. */
  ghost function SignActors(rs: seq<AuditRecord>): seq<string> {
    if rs == [] then []
    else
      var n := |rs| - 1;
      SignActors(rs[..n]) +
      if rs[n].AttemptRecord? && rs[n].event == Sign && rs[n].actor.Some? then [rs[n].actor.value] else []
  }

  /** A list of entries that hang together: creation first, and each leaving the status the previous one reached. */
  ghost predicate Chained(rs: seq<AuditRecord>, status: AttemptStatus) {
    && rs != []
    && (forall k :: 0 <= k < |rs| ==> rs[k].AttemptRecord?)
    && rs[0].event == CreateNode && rs[0].from == None && rs[0].to == Draft
    && (forall k :: 0 < k < |rs| ==> rs[k].event != CreateNode && rs[k].from == Some(rs[k - 1].to))
    && rs[|rs| - 1].to == status
  }

  /** One surviving step: birth, or a step out of the current status that may add a signer. */
  lemma AdvanceShape(l: Life, r: AuditRecord)
    requires r.AttemptRecord? && Advance(l, r).Alive?
    ensures Advance(l, r).status == r.to
    ensures l == Unborn ==> r.event == CreateNode && r.from == None && r.to == Draft && Advance(l, r).signers == []
    ensures l.Alive? ==>
              && r.event != CreateNode && r.from == Some(l.status)
              && (r.event == Sign ==> r.actor.Some?)
              && Advance(l, r).signers ==
                 if r.event == Sign && r.actor.value !in l.signers then l.signers + [r.actor.value] else l.signers
  {
  }

  lemma ChainGrows(rs: seq<AuditRecord>, status: AttemptStatus, r: AuditRecord)
    requires Chained(rs, status)
    requires r.AttemptRecord? && r.event != CreateNode && r.from == Some(status)
    ensures Chained(rs + [r], r.to)
  {
  }

  lemma SignersGrow(rs: seq<AuditRecord>, r: AuditRecord)
    requires r.AttemptRecord? && (r.event == Sign ==> r.actor.Some?)
    ensures var before := Dedup(SignActors(rs));
            Dedup(SignActors(rs + [r])) ==
            if r.event == Sign && r.actor.value !in before then before + [r.actor.value] else before
  {
    assert (rs + [r])[..|rs|] == rs;
    if r.event == Sign {
      DedupSnoc(SignActors(rs), r.actor.value);
    } else {
      assert SignActors(rs + [r]) == SignActors(rs);
    }
  }

  /**
   * A list of entries tells the life `l`: none before birth, then a chain ending in its status, signed by its signers.
   */
  ghost predicate Tells(rs: seq<AuditRecord>, l: Life) {
    && (l == Unborn ==> rs == [])
    && (l.Alive? ==> Chained(rs, l.status) && Dedup(SignActors(rs)) == l.signers)
  }

  lemma BirthTells(r: AuditRecord)
    requires r.AttemptRecord? && Advance(Unborn, r).Alive?
    ensures Tells([r], Advance(Unborn, r))
  {
    assert [r][..0] == [];
    DedupOfNoDup<string>([]);
  }

  lemma StepTells(rs: seq<AuditRecord>, l: Life, r: AuditRecord)
    requires r.AttemptRecord? && Tells(rs, l)
    ensures Tells(rs + [r], Advance(l, r))
  {
    hide Advance, Chained, SignActors, Dedup;
    if Advance(l, r).Alive? {
      AdvanceShape(l, r);
      if l == Unborn {
        BirthTells(r);
        assert rs + [r] == [r];
      } else if l.Alive? {
        SignersGrow(rs, r);
        ChainGrows(rs, l.status, r);
      } else {
        BrokenStays(r);
      }
    } else {
      NotUnborn(l, r);
    }
  }

  lemma BrokenStays(r: AuditRecord)
    requires r.AttemptRecord?
    ensures Advance(Broken, r) == Broken
  {
  }

  lemma NotUnborn(l: Life, r: AuditRecord)
    requires r.AttemptRecord?
    ensures Advance(l, r) != Unborn
  {
  }

  lemma LastEntry(audit: seq<AuditRecord>, spuId: string, index: nat)
    requires audit != []
    ensures var n := |audit| - 1;
            if About(audit[n], spuId, index)
            then Replay(audit, spuId, index) == Advance(Replay(audit[..n], spuId, index), audit[n]) &&
                 RecordsOf(audit, spuId, index) == RecordsOf(audit[..n], spuId, index) + [audit[n]]
            else Replay(audit, spuId, index) == Replay(audit[..n], spuId, index) &&
                 RecordsOf(audit, spuId, index) == RecordsOf(audit[..n], spuId, index)
  {
    hide Advance;
  }

  /** A trail that replays to a living attempt is a chain ending in its status, signed in the order of `signers`. */
  lemma {:induction false} ReplayIsChain(audit: seq<AuditRecord>, spuId: string, index: nat)
    ensures Tells(RecordsOf(audit, spuId, index), Replay(audit, spuId, index))
  {
    if audit != [] {
      hide Advance, Tells, Replay, RecordsOf;
      var n := |audit| - 1;
      ReplayIsChain(audit[..n], spuId, index);
      LastEntry(audit, spuId, index);
      if About(audit[n], spuId, index) {
        StepTells(RecordsOf(audit[..n], spuId, index), Replay(audit[..n], spuId, index), audit[n]);
      }
    }
  }
}
