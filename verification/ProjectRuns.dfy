/** What holds of the project store after any run, and of a store loaded from its own saved form. */
module ProjectRuns {
  import opened Lists
  import opened Text
  import opened Projects

  // ---------- the invariant ----------

  ghost predicate NormalRoles(rs: seq<Role>) {
    forall r :: r in rs ==>
      r.did != "" && Trimmed(r.did) && NormalList(r.measured) && NormalList(r.specs) && NormalList(r.actions)
  }

  ghost predicate NormalBound(b: Option<string>) {
    b.Some? ==> b.value != "" && Trimmed(b.value)
  }

  ghost predicate IsNormal(i: Instrument) {
    && i.id != "" && Trimmed(i.id) && NormalList(i.measured) && NormalList(i.specs)
    && NormalBound(i.startStake) && NormalBound(i.endStake) && NormalBound(i.validFrom) && NormalBound(i.validTo)
  }

  ghost predicate NormalInstruments(rs: seq<Instrument>) {
    forall r :: r in rs ==> IsNormal(r)
  }

  ghost predicate FiltersAreNormal(f: Filters) {
    && NormalList(f.includeCategories) && NormalList(f.includeWorkItems)
    && NormalList(f.excludeCategories) && NormalList(f.excludeWorkItems)
  }

  ghost predicate ProjectOk(p: Project) {
    && p.catalog != "" && Trimmed(p.catalog) && p.source != "" && Trimmed(p.source)
    && p.specs != [] && NormalList(p.specs)
    && NormalRoles(p.roles) && NormalInstruments(p.instruments) && FiltersAreNormal(p.filters)
  }

  /** The main branch and the project's own overrides are the same map. */
  ghost predicate Mirrored(s: State, id: string) {
    id in s.projects && id in s.branches && "main" in s.branches[id]
        && s.branches[id]["main"] == s.projects[id].overrides
  }

  ghost predicate Inv(s: State) {
    && s.projects.Keys == s.branches.Keys
    && (forall id :: id in s.projects ==> Mirrored(s, id) && s.projects[id].id == id && ProjectOk(s.projects[id]))
  }

  lemma ReadNormal(r: Raw)
    ensures Trimmed(Read(r))
  {
    if r.Txt? {
      StripTrims(r.text);
    }
  }

  lemma {:induction false} RolesNormal(rs: seq<RawRole>)
    ensures NormalRoles(Roles(rs))
  {
    hide Read, TextList, NormalList, Trimmed;
    if rs != [] {
      var n := |rs| - 1;
      RolesNormal(rs[..n]);
      ReadNormal(rs[n].did);
      TextListNormal(rs[n].measured);
      TextListNormal(rs[n].specs);
      TextListNormal(rs[n].actions);
    }
  }

  lemma InstrumentNormal(r: RawInstrument)
    requires Read(r.id) != ""
    ensures IsNormal(NormalInstrument(r))
  {
    hide Read, TextList, NormalList, Trimmed;
    ReadNormal(r.id);
    TextListNormal(r.measured);
    TextListNormal(r.specs);
    ReadNormal(r.startStake);
    ReadNormal(r.endStake);
    ReadNormal(r.validFrom);
    ReadNormal(r.validTo);
  }

  lemma {:induction false} InstrumentsNormal(rs: seq<RawInstrument>)
    ensures NormalInstruments(Instruments(rs))
  {
    hide Read, IsNormal, NormalInstrument;
    if rs != [] {
      var n := |rs| - 1;
      InstrumentsNormal(rs[..n]);
      if Read(rs[n].id) != "" {
        InstrumentNormal(rs[n]);
      }
    }
  }

  lemma FiltersNormal(f: Filters)
    ensures FiltersAreNormal(NormalFilters(f))
  {
    hide TextList, NormalList;
    TextListNormal(f.includeCategories);
    TextListNormal(f.includeWorkItems);
    TextListNormal(f.excludeCategories);
    TextListNormal(f.excludeWorkItems);
  }

  lemma SourceNormal(source: string)
    ensures NormalSource(source) != "" && Trimmed(NormalSource(source))
  {
    StripTrims(source);
  }

  lemma RefreshedOk(o: Option<Project>, id: string, catalog: string, specs: seq<string>, source: string,
                    filters: Filters, now: Instant)
    requires CreateError(id, catalog, specs).None? && (o.Some? ==> ProjectOk(o.value))
    ensures ProjectOk(Refreshed(o, id, catalog, specs, source, filters, now))
  {
    hide Strip, TextList, NormalList, Trimmed, NormalRoles, NormalInstruments, FiltersAreNormal, NormalFilters,
         NormalSource;
    StripTrims(catalog);
    SourceNormal(source);
    TextListNormal(specs);
    FiltersNormal(filters);
    RolesNormal([]);
    InstrumentsNormal([]);
  }

  lemma StepKeepsInv(s: State, op: Op)
    requires Inv(s)
    ensures Inv(Step(s, op))
  {
    hide ProjectOk, Strip, TextList, NormalBranch, Refreshed, Roles, Instruments, Reloaded;
    match op {
      case Create(id, catalog, specs, source, filters, now) =>
        if CreateError(id, catalog, specs).None? {
          CreateKeepsInv(s, id, catalog, specs, source, filters, now);
        }
      case Put(id, spec, branch, doc) =>
        if OverrideError(s, id, spec).None? {
          PutKeepsInv(s, Strip(id), Strip(spec), NormalBranch(branch), doc);
        }
      case BindRoles(id, roles) =>
        if Strip(id) in s.projects {
          BindRolesOk(s.projects[Strip(id)], roles);
        }
      case BindInstruments(id, instruments) =>
        if Strip(id) in s.projects {
          BindInstrumentsOk(s.projects[Strip(id)], instruments);
        }
      case Clear =>
      case Restart => SecondLoadChangesNothing(s); RestartRereads(s);
    }
  }

  lemma RestartRereads(s: State)
    requires Inv(s)
    ensures Reloaded(s) == RereadState(s)
  {
    hide Inv, Loaded, Saved, RereadState;
    LoadAfterSave(s);
  }

  lemma BindRolesOk(p: Project, rs: seq<RawRole>)
    requires ProjectOk(p)
    ensures ProjectOk(p.(roles := Roles(rs)))
  {
    hide NormalRoles, NormalInstruments, FiltersAreNormal, NormalList;
    RolesNormal(rs);
  }

  lemma BindInstrumentsOk(p: Project, rs: seq<RawInstrument>)
    requires ProjectOk(p)
    ensures ProjectOk(p.(instruments := Instruments(rs)))
  {
    hide NormalRoles, NormalInstruments, FiltersAreNormal, NormalList;
    InstrumentsNormal(rs);
  }

  lemma CreateKeepsInv(s: State, id: string, catalog: string, specs: seq<string>, source: string, filters: Filters,
                       now: Instant)
    requires Inv(s) && CreateError(id, catalog, specs).None?
    ensures Inv(CreateProject(s, id, catalog, specs, source, filters, now).0)
  {
    hide ProjectOk, Strip, TextList;
    var pid := Strip(id);
    RefreshedOk(Lookup(s.projects, pid), id, catalog, specs, source, filters, now);
  }

  lemma PutKeepsInv(s: State, pid: string, spec: string, branch: string, doc: Doc)
    requires Inv(s) && pid in s.projects
    ensures Inv(PutOverride(s, pid, spec, branch, doc))
  {
    hide NormalRoles, NormalInstruments, FiltersAreNormal, NormalList, Trimmed;
  }

  lemma {:induction false} RunKeepsInv(ops: seq<Op>)
    ensures Inv(Run(ops))
  {
    if ops != [] {
      RunKeepsInv(ops[..|ops| - 1]);
      StepKeepsInv(Run(ops[..|ops| - 1]), ops[|ops| - 1]);
    }
  }

  /** In every reachable state the overrides of each project are its main branch. */
  lemma OverridesAreMainBranch(ops: seq<Op>, id: string)
    ensures id in Run(ops).projects <==> id in Run(ops).branches
    ensures id in Run(ops).projects ==> Mirrored(Run(ops), id)
  {
    RunKeepsInv(ops);
    hide Run, ProjectOk;
  }

  // ---------- reading an override finds the last write ----------

  /** Some operation since the last clearing created the project. */
  predicate Exists(ops: seq<Op>, pid: string) {
    ops != [] &&
    var op := ops[|ops| - 1];
    !op.Clear? &&
    ((op.Create? && CreateError(op.id, op.catalog, op.specs).None? && Strip(op.id) == pid)
        || Exists(ops[..|ops| - 1], pid))
  }

  /** The document last written for a spec on a branch of a project that existed, since the last clearing. */
  function LastWrite(ops: seq<Op>, pid: string, branch: string, spec: string): Option<Doc> {
    if ops == [] then None
    else
      var op := ops[|ops| - 1];
      if op.Clear? then None
      else if op.Put? && Exists(ops[..|ops| - 1], pid) && Strip(op.id) == pid && NormalBranch(op.branch) == branch
          && Strip(op.spec) == spec
      then Some(op.doc)
      else LastWrite(ops[..|ops| - 1], pid, branch, spec)
  }

  function Stored(s: State, pid: string, branch: string, spec: string): Option<Doc> {
    if pid in s.branches && branch in s.branches[pid] && spec in s.branches[pid][branch]
    then Some(s.branches[pid][branch][spec]) else None
  }

  lemma StepExists(s: State, op: Op, pid: string)
    requires Inv(s)
    ensures pid in Step(s, op).projects <==>
            !op.Clear? && (pid in s.projects || (op.Create? && CreateError(op.id, op.catalog, op.specs).None?
                && Strip(op.id) == pid))
  {
    hide Strip, TextList, Refreshed, Roles, Instruments, NormalBranch, Reloaded, Inv;
    if op.Restart? {
      RestartRereads(s);
    }
  }

  lemma {:induction false} ExistsMeans(ops: seq<Op>, pid: string)
    ensures Exists(ops, pid) <==> pid in Run(ops).projects
  {
    hide Step, CreateError, Strip, Inv;
    if ops != [] {
      ExistsMeans(ops[..|ops| - 1], pid);
      RunKeepsInv(ops[..|ops| - 1]);
      StepExists(Run(ops[..|ops| - 1]), ops[|ops| - 1], pid);
    }
  }

  /** One step changes the stored document of exactly the place it writes. */
  lemma StepStores(s: State, op: Op, pid: string, branch: string, spec: string)
    requires Inv(s) && pid != "" && spec != ""
    ensures Stored(Step(s, op), pid, branch, spec) ==
            if op.Clear? then None
            else if op.Put? && pid in s.projects && Strip(op.id) == pid && NormalBranch(op.branch) == branch
                && Strip(op.spec) == spec
            then Some(op.doc) else Stored(s, pid, branch, spec)
  {
    hide Strip, TextList, Refreshed, Roles, Instruments, NormalBranch, ProjectOk, Reloaded;
    if op.Restart? {
      RestartRereads(s);
    } else if op.Create? && CreateError(op.id, op.catalog, op.specs).None? {
      NewProjectIsEmpty(s, op);
    }
  }

  lemma NewProjectIsEmpty(s: State, op: Op)
    requires op.Create?
    ensures Strip(op.id) !in s.projects ==>
              Refreshed(Lookup(s.projects, Strip(op.id)), op.id, op.catalog, op.specs, op.source, op.filters,
                        op.now).overrides == map[]
  {
    hide Strip, TextList, NormalSource, NormalFilters;
  }

  lemma {:induction false} StoredIsLastWrite(ops: seq<Op>, pid: string, branch: string, spec: string)
    requires pid != "" && spec != ""
    ensures Stored(Run(ops), pid, branch, spec) == LastWrite(ops, pid, branch, spec)
  {
    if ops != [] {
      var front := ops[..|ops| - 1];
      RunKeepsInv(front);
      StoredIsLastWrite(front, pid, branch, spec);
      ExistsMeans(front, pid);
      StepStores(Run(front), ops[|ops| - 1], pid, branch, spec);
      hide Step, Strip, NormalBranch, Exists, Stored, Inv;
    }
  }

  /**
   * After any run, restarts included, a reader gets what was last written on the branch, and failing that what was last
   * written on main.
   */
  lemma GetOverrideFindsLastWrite(ops: seq<Op>, id: string, spec: string, branch: string)
    requires Strip(id) != "" && Strip(spec) != ""
    ensures var own := LastWrite(ops, Strip(id), NormalBranch(branch), Strip(spec));
            var main := LastWrite(ops, Strip(id), "main", Strip(spec));
            GetOverride(Run(ops), id, spec, branch) == Success(if own.Some? then own else main)
  {
    hide Strip, NormalBranch, Run, LastWrite;
    StoredIsLastWrite(ops, Strip(id), NormalBranch(branch), Strip(spec));
    StoredIsLastWrite(ops, Strip(id), "main", Strip(spec));
  }

  lemma ReadsStored(s: State, id: string, spec: string, branch: string)
    requires Strip(id) != "" && Strip(spec) != ""
    ensures var own := Stored(s, Strip(id), NormalBranch(branch), Strip(spec));
            GetOverride(s, id, spec, branch) ==
            Success(if own.Some? then own else Stored(s, Strip(id), "main", Strip(spec)))
  {
    hide Strip, NormalBranch;
  }

  /**
   * A write is seen on its branch, and a write on main on every branch that has no document of its own; nowhere else.
   */
  lemma PutIsSeen(s: State, put: Op, id: string, spec: string, branch: string)
    requires Inv(s) && put.Put? && Strip(put.id) in s.projects && Strip(put.spec) != "" && Strip(id) != ""
             && Strip(spec) != ""
    ensures var here := NormalBranch(branch);
            GetOverride(Step(s, put), id, spec, branch) ==
            if Strip(id) == Strip(put.id) && Strip(spec) == Strip(put.spec) &&
               (NormalBranch(put.branch) == here
                   || (NormalBranch(put.branch) == "main" && Stored(s, Strip(id), here, Strip(spec)).None?))
            then Success(Some(put.doc)) else GetOverride(s, id, spec, branch)
  {
    ReadsStored(s, id, spec, branch);
    ReadsStored(Step(s, put), id, spec, branch);
    StepStores(s, put, Strip(id), NormalBranch(branch), Strip(spec));
    StepStores(s, put, Strip(id), "main", Strip(spec));
    hide Strip, NormalBranch, Stored, GetOverride, Step, Inv;
  }

  /**
   * Creating or refreshing a project, binding roles or instruments, and restarting change no override of any project.
   */
  lemma OtherStepsKeepOverrides(s: State, op: Op, id: string, spec: string, branch: string)
    requires Inv(s) && !op.Put? && !op.Clear? && Strip(id) != "" && Strip(spec) != ""
    ensures GetOverride(Step(s, op), id, spec, branch) == GetOverride(s, id, spec, branch)
  {
    ReadsStored(s, id, spec, branch);
    ReadsStored(Step(s, op), id, spec, branch);
    StepStores(s, op, Strip(id), NormalBranch(branch), Strip(spec));
    StepStores(s, op, Strip(id), "main", Strip(spec));
    hide Strip, NormalBranch, Stored, GetOverride, Step, Inv;
  }

  // ---------- saving and loading ----------

  function Seconds(p: Project): Project {
    p.(created := Instant(p.created.seconds, 0))
  }

  function Truncated(s: State): State {
    s.(projects := map id | id in s.projects :: Seconds(s.projects[id]))
  }

  predicate AllBounds(i: Instrument) {
    i.startStake.Some? && i.endStake.Some? && i.validFrom.Some? && i.validTo.Some?
  }

  ghost predicate BoundsComplete(s: State) {
    forall id, i :: id in s.projects && i in s.projects[id].instruments ==> AllBounds(i)
  }

  /** A bound that was missing comes back as the text "None". */
  function Reread(b: Option<string>): Option<string> {
    if b.None? then Some("None") else b
  }

  function RereadInstrument(i: Instrument): Instrument {
    i.(startStake := Reread(i.startStake), endStake := Reread(i.endStake), validFrom := Reread(i.validFrom),
       validTo := Reread(i.validTo))
  }

  function RereadInstruments(is_: seq<Instrument>): (r: seq<Instrument>)
    ensures |r| == |is_| && forall k :: 0 <= k < |is_| ==> r[k] == RereadInstrument(is_[k])
  {
    seq(|is_|, k requires 0 <= k < |is_| => RereadInstrument(is_[k]))
  }

  function RereadProject(p: Project): Project {
    p.(instruments := RereadInstruments(p.instruments), created := Instant(p.created.seconds, 0))
  }

  function RereadState(s: State): State {
    s.(projects := map id | id in s.projects :: RereadProject(s.projects[id]))
  }

  lemma BoundRoundTrip(b: Option<string>)
    requires NormalBound(b)
    ensures Bound(SavedBound(b)) == Reread(b)
  {
    hide Strip, Trimmed;
    if b.Some? {
      StripOfTrimmed(b.value);
    }
  }

  lemma {:induction false} RolesRoundTrip(rs: seq<Role>)
    requires NormalRoles(rs)
    ensures Roles(SavedRoles(rs)) == rs
  {
    hide Strip, Trimmed, TextList, NormalList;
    if rs != [] {
      var n := |rs| - 1;
      assert SavedRoles(rs)[..n] == SavedRoles(rs[..n]);
      RolesRoundTrip(rs[..n]);
      var r := rs[n];
      assert r in rs;
      StripOfTrimmed(r.did);
      TextListOfNormal(r.measured);
      TextListOfNormal(r.specs);
      TextListOfNormal(r.actions);
      assert rs == rs[..n] + [r];
    }
  }

  lemma InstrumentRoundTrip(i: Instrument)
    requires IsNormal(i)
    ensures Read(SavedInstrument(i).id) == i.id != "" && NormalInstrument(SavedInstrument(i)) == RereadInstrument(i)
  {
    hide Strip, Trimmed, TextList, NormalList, Bound, SavedBound, Reread, NormalBound;
    StripOfTrimmed(i.id);
    TextListOfNormal(i.measured);
    TextListOfNormal(i.specs);
    BoundRoundTrip(i.startStake);
    BoundRoundTrip(i.endStake);
    BoundRoundTrip(i.validFrom);
    BoundRoundTrip(i.validTo);
  }

  lemma {:induction false} InstrumentsRoundTrip(rs: seq<Instrument>)
    requires NormalInstruments(rs)
    ensures Instruments(SavedInstruments(rs)) == RereadInstruments(rs)
  {
    hide Read, NormalInstrument, SavedInstrument, RereadInstrument, IsNormal;
    if rs != [] {
      var n := |rs| - 1;
      assert SavedInstruments(rs)[..n] == SavedInstruments(rs[..n]);
      InstrumentsRoundTrip(rs[..n]);
      assert rs[n] in rs;
      InstrumentRoundTrip(rs[n]);
      assert RereadInstruments(rs) == RereadInstruments(rs[..n]) + [RereadInstrument(rs[n])];
    }
  }

  lemma ProjectRoundTrip(id: string, p: Project)
    requires ProjectOk(p) && p.id == id
    ensures LoadedProject(id, SavedProject(p)) == Success(RereadProject(p))
  {
    hide Strip, Trimmed, TextList, NormalList, Roles, SavedRoles, Instruments, SavedInstruments, RereadInstruments,
         NormalRoles, NormalInstruments;
    StripOfTrimmed(p.catalog);
    StripOfTrimmed(p.source);
    TextListOfNormal(p.specs);
    RolesRoundTrip(p.roles);
    InstrumentsRoundTrip(p.instruments);
    TextListOfNormal(p.filters.includeCategories);
    TextListOfNormal(p.filters.includeWorkItems);
    TextListOfNormal(p.filters.excludeCategories);
    TextListOfNormal(p.filters.excludeWorkItems);
  }

  lemma MainIsThere(projects: map<string, Project>, branches: map<string, Branches>)
    requires projects.Keys <= branches.Keys && forall id :: id in projects ==> "main" in branches[id]
    ensures WithMain(projects, branches) == branches
  {
    assert forall id :: id in branches ==> MainOf(projects, branches, id) == branches[id];
  }

  /** Loading what was saved always succeeds, and changes nothing but sub-second times and missing bounds. */
  lemma LoadAfterSave(s: State)
    requires Inv(s)
    ensures Loaded(Saved(s)) == Success(RereadState(s))
  {
    hide ProjectOk, SavedProject, LoadedProject, RereadProject, Loaded, WithMain;
    var p := Saved(s);
    forall id | id in s.projects ensures LoadedProject(id, p.projects[id]) == Success(RereadProject(s.projects[id])) {
      ProjectRoundTrip(id, s.projects[id]);
    }
    LoadedProjects(p, RereadState(s).projects);
    MainIsThere(RereadState(s).projects, s.branches);
  }

  lemma RereadKeeps(p: Project)
    ensures RereadProject(p) == Seconds(p) <==> forall i :: i in p.instruments ==> AllBounds(i)
  {
    if forall i :: i in p.instruments ==> AllBounds(i) {
      forall k | 0 <= k < |p.instruments| ensures RereadInstrument(p.instruments[k]) == p.instruments[k] {
        assert p.instruments[k] in p.instruments;
      }
      assert RereadInstruments(p.instruments) == p.instruments;
    } else {
      var i :| i in p.instruments && !AllBounds(i);
      var k :| 0 <= k < |p.instruments| && p.instruments[k] == i;
      assert RereadInstruments(p.instruments)[k] != p.instruments[k];
    }
  }

  lemma RereadStateKeeps(s: State)
    ensures RereadState(s) == Truncated(s) <==> BoundsComplete(s)
  {
    hide RereadProject, AllBounds, Seconds;
    forall id | id in s.projects
      ensures RereadProject(s.projects[id]) == Seconds(s.projects[id]) <==>
              forall i :: i in s.projects[id].instruments ==> AllBounds(i)
    {
      RereadKeeps(s.projects[id]);
    }
    if BoundsComplete(s) {
      assert RereadState(s).projects == Truncated(s).projects;
    } else {
      var id, i :| id in s.projects && i in s.projects[id].instruments && !AllBounds(i);
      assert RereadState(s).projects[id] != Truncated(s).projects[id];
    }
  }

  /** After any run the saved store reads back as it was, up to sub-second times, exactly when no bound is missing. */
  lemma RestoresExactly(ops: seq<Op>)
    ensures Loaded(Saved(Run(ops))) == Success(Truncated(Run(ops))) <==> BoundsComplete(Run(ops))
  {
    RunKeepsInv(ops);
    LoadAfterSave(Run(ops));
    RereadStateKeeps(Run(ops));
    hide Run, Inv, Saved, Loaded, RereadState, Truncated, BoundsComplete;
  }

  lemma RereadOk(p: Project)
    requires ProjectOk(p)
    ensures ProjectOk(RereadProject(p)) && forall i :: i in RereadProject(p).instruments ==> AllBounds(i)
  {
    hide Strip, NormalList, NormalRoles, FiltersAreNormal;
    forall k | 0 <= k < |p.instruments| ensures IsNormal(RereadInstruments(p.instruments)[k]) {
      assert p.instruments[k] in p.instruments;
    }
  }

  /** What a load may change it changes once: a second restart brings back exactly the same store. */
  lemma SecondLoadChangesNothing(s: State)
    requires Inv(s)
    ensures Inv(RereadState(s)) && Loaded(Saved(RereadState(s))) == Success(RereadState(s))
  {
    hide ProjectOk, RereadProject, Loaded, Saved, AllBounds;
    var t := RereadState(s);
    forall id | id in s.projects
      ensures ProjectOk(t.projects[id]) && forall i :: i in t.projects[id].instruments ==> AllBounds(i)
    {
      RereadOk(s.projects[id]);
    }
    RereadSame(s);
    LoadAfterSave(t);
    RereadStateKeeps(t);
    SecondsTwice(s);
  }

  lemma RereadSame(s: State)
    ensures forall id :: id in s.projects ==>
              && RereadState(s).projects[id].id == s.projects[id].id
              && RereadState(s).projects[id].overrides == s.projects[id].overrides
  {
  }

  lemma SecondsTwice(s: State)
    ensures Truncated(RereadState(s)) == RereadState(s)
  {
    hide RereadInstruments;
    assert forall id :: id in s.projects ==> Seconds(RereadProject(s.projects[id])) == RereadProject(s.projects[id]);
    assert Truncated(RereadState(s)).projects == RereadState(s).projects;
  }

  /** A restart after a restart changes nothing. */
  lemma RestartSettles(s: State)
    requires Inv(s)
    ensures Loaded(Saved(s)) == Success(Reloaded(s)) && Reloaded(Reloaded(s)) == Reloaded(s)
  {
    hide Inv, Loaded, Saved, RereadState;
    LoadAfterSave(s);
    SecondLoadChangesNothing(s);
  }

  lemma EmptyRestarts()
    ensures Reloaded(EMPTY) == EMPTY
  {
    LoadAfterSave(EMPTY);
    assert RereadState(EMPTY).projects == map[];
  }

  // ---------- a missing bound is reachable ----------

  function UnboundedRun(now: Instant): seq<Op> {
    [Create("p", "c", ["s"], "", Filters([], [], [], []), now),
     BindInstruments("p", [RawInstrument(Txt("i"), [], [], Absent, Absent, Absent, Absent)])]
  }

  lemma UnboundedRunOps(now: Instant)
    ensures var ops := UnboundedRun(now); Run(ops) == Step(Step(EMPTY, ops[0]), ops[1])
  {
    hide Step;
    var ops := UnboundedRun(now);
    assert ops[..1] == [ops[0]] && [ops[0]][..0] == [];
    assert Run([ops[0]]) == Step(Run([]), ops[0]);
    assert Run(ops) == Step(Run(ops[..1]), ops[1]);
  }

  lemma OneText(s: string)
    requires s != "" && Trimmed(s)
    ensures TextList([s]) == [s]
  {
    assert NoDup([s]);
    TextListOfNormal([s]);
  }

  lemma CreatedIsThere(op: Op)
    requires op.Create? && CreateError(op.id, op.catalog, op.specs).None?
    ensures Strip(op.id) in Step(EMPTY, op).projects
  {
    hide CreateError, Strip, Refreshed;
  }

  lemma BoundIsThere(s: State, op: Op)
    requires op.BindInstruments? && Strip(op.id) != "" && Strip(op.id) in s.projects
    ensures Strip(op.id) in Step(s, op).projects
            && Step(s, op).projects[Strip(op.id)].instruments == Instruments(op.instruments)
  {
    hide Strip, Instruments;
  }

  lemma OneUnbounded(s: State, id: string)
    requires id in s.projects && |s.projects[id].instruments| == 1 && !AllBounds(s.projects[id].instruments[0])
    ensures !BoundsComplete(s)
  {
    hide AllBounds;
    assert s.projects[id].instruments[0] in s.projects[id].instruments;
  }

  lemma UnboundedRunIsValid(now: Instant)
    ensures var ops := UnboundedRun(now);
            CreateError(ops[0].id, ops[0].catalog, ops[0].specs).None? && Strip(ops[0].id) == Strip(ops[1].id) != ""
  {
    StripOfTrimmed("p");
    StripOfTrimmed("c");
    OneText("s");
    hide Strip, TextList;
  }

  /** Two ordinary requests lead to a binding without bounds, which a restart changes. */
  lemma RestartCanChangeBounds(now: Instant)
    ensures var s := Run(UnboundedRun(now));
            !BoundsComplete(s) && Loaded(Saved(s)) != Success(Truncated(s))
  {
    UnboundedRunOps(now);
    UnboundedRunIsValid(now);
    UnboundedInstrument();
    RestoresExactly(UnboundedRun(now));
    hide Run, Step, Strip, CreateError, Instruments, AllBounds, BoundsComplete, Loaded, Saved, Truncated;
    var ops := UnboundedRun(now);
    CreatedIsThere(ops[0]);
    BoundIsThere(Step(EMPTY, ops[0]), ops[1]);
    OneUnbounded(Run(ops), Strip(ops[1].id));
  }

  lemma UnboundedInstrument()
    ensures var is_ := Instruments([RawInstrument(Txt("i"), [], [], Absent, Absent, Absent, Absent)]);
            |is_| == 1 && !AllBounds(is_[0])
  {
    StripOfTrimmed("i");
    hide Strip, TextList;
    var raw := [RawInstrument(Txt("i"), [], [], Absent, Absent, Absent, Absent)];
    assert raw[..0] == [];
  }
}
