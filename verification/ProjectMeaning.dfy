/**
 * What creating, binding and restarting make of a project, told by the texts of the requests: what a refresh keeps and
 * replaces, and which requests of a run a project remembers.
 */
module ProjectMeaning {
  import opened Lists
  import opened Text
  import opened Projects
  import opened ProjectRuns

  // ---------- normalised values ----------

  /** The trimmed, non-blank texts of `raw`, each once, in the order in which they first occur. */
  ghost predicate Tidy(list: seq<string>, raw: seq<string>) {
    && NoDup(list)
    && (forall y :: y in list <==> y != "" && exists i :: 0 <= i < |raw| && Strip(raw[i]) == y)
    && forall y, z :: y in list && z in list && FirstBefore(Strips(raw), y, z) ==> Before(list, y, z)
  }

  lemma TextListTidies(raw: seq<string>)
    ensures Tidy(TextList(raw), raw)
  {
    var stripped := Strips(raw);
    var list := TextList(raw);
    forall y ensures y in list <==> y != "" && exists i :: 0 <= i < |raw| && Strip(raw[i]) == y {
      hide Strip;
      if y in stripped {
        var i :| 0 <= i < |stripped| && stripped[i] == y;
      }
      if i :| 0 <= i < |raw| && Strip(raw[i]) == y {
        assert stripped[i] == y;
      }
    }
    forall y, z | y in list && z in list && FirstBefore(stripped, y, z) ensures Before(list, y, z) {
      hide FirstBefore, Before, Strip;
      FilterInOrder(stripped, x => x != "", y, z);
      DedupInOrder(Filter(stripped, x => x != ""), y, z);
    }
  }

  /** The text a field of a record gives: nothing when it is missing, "None" when it is null. */
  ghost predicate Gives(raw: Raw, text: string) {
    (raw == Absent && text == "") || (raw == Null && text == "None") || (raw.Txt? && text == Strip(raw.text))
  }

  ghost predicate GivesBound(raw: Raw, bound: Option<string>) {
    (Gives(raw, "") && bound == None) || (bound.Some? && bound.value != "" && Gives(raw, bound.value))
  }

  ghost predicate RoleOf(raw: RawRole, r: Role) {
    && Gives(raw.did, r.did) && Tidy(r.measured, raw.measured) && Tidy(r.specs, raw.specs)
    && Tidy(r.actions, raw.actions)
  }

  ghost predicate InstrumentOf(raw: RawInstrument, i: Instrument) {
    && Gives(raw.id, i.id) && Tidy(i.measured, raw.measured) && Tidy(i.specs, raw.specs)
    && GivesBound(raw.startStake, i.startStake) && GivesBound(raw.endStake, i.endStake)
    && GivesBound(raw.validFrom, i.validFrom) && GivesBound(raw.validTo, i.validTo)
  }

  /** Record by record: those without an identity are left out, every other one gives one role. */
  ghost predicate RolesOf(raw: seq<RawRole>, roles: seq<Role>) {
    if raw == [] then roles == []
    else
      var n := |raw| - 1;
      if Gives(raw[n].did, "") then RolesOf(raw[..n], roles)
      else roles != [] && RoleOf(raw[n], roles[|roles| - 1]) && RolesOf(raw[..n], roles[..|roles| - 1])
  }

  ghost predicate InstrumentsOf(raw: seq<RawInstrument>, instruments: seq<Instrument>) {
    if raw == [] then instruments == []
    else
      var n, m := |raw| - 1, |instruments| - 1;
      if Gives(raw[n].id, "") then InstrumentsOf(raw[..n], instruments)
      else m >= 0 && InstrumentOf(raw[n], instruments[m]) && InstrumentsOf(raw[..n], instruments[..m])
  }

  lemma ReadGives(raw: Raw)
    ensures forall text :: Gives(raw, text) <==> text == Read(raw)
    ensures GivesBound(raw, Bound(raw))
  {
    hide Strip;
  }

  lemma RoleIs(raw: RawRole)
    ensures RoleOf(raw, NormalRole(raw))
  {
    ReadGives(raw.did);
    TextListTidies(raw.measured);
    TextListTidies(raw.specs);
    TextListTidies(raw.actions);
    hide Tidy, TextList, Gives, Read;
  }

  lemma {:induction false} RolesAre(raw: seq<RawRole>)
    ensures RolesOf(raw, Roles(raw))
  {
    hide RoleOf, NormalRole, Gives, Read;
    if raw != [] {
      var n := |raw| - 1;
      ReadGives(raw[n].did);
      RoleIs(raw[n]);
      RolesAre(raw[..n]);
      assert (Roles(raw[..n]) + [NormalRole(raw[n])])[..|Roles(raw[..n])|] == Roles(raw[..n]);
    }
  }

  lemma InstrumentIs(raw: RawInstrument)
    ensures InstrumentOf(raw, NormalInstrument(raw))
  {
    ReadGives(raw.id);
    ReadGives(raw.startStake);
    ReadGives(raw.endStake);
    ReadGives(raw.validFrom);
    ReadGives(raw.validTo);
    TextListTidies(raw.measured);
    TextListTidies(raw.specs);
    hide Tidy, TextList, Gives, GivesBound, Read, Bound;
  }

  lemma {:induction false} InstrumentsAre(raw: seq<RawInstrument>)
    ensures InstrumentsOf(raw, Instruments(raw))
  {
    hide InstrumentOf, NormalInstrument, Gives, Read;
    if raw != [] {
      var n := |raw| - 1;
      ReadGives(raw[n].id);
      InstrumentIs(raw[n]);
      InstrumentsAre(raw[..n]);
      var front := Instruments(raw[..n]);
      assert (front + [NormalInstrument(raw[n])])[..|front|] == front;
    }
  }

  // ---------- creating ----------

  /** A text, or the fallback where it is blank. */
  ghost predicate OrFallback(text: string, raw: string, fallback: string) {
    text == if Strip(raw) == "" then fallback else Strip(raw)
  }

  /** The project shows what the request said. */
  ghost predicate Requested(p: Project, id: string, catalog: string, specs: seq<string>, source: string,
                            filters: Filters) {
    && p.id == Strip(id) && p.catalog == Strip(catalog) && Tidy(p.specs, specs)
    && OrFallback(p.source, source, "explicit_specs")
    && Tidy(p.filters.includeCategories, filters.includeCategories)
    && Tidy(p.filters.includeWorkItems, filters.includeWorkItems)
    && Tidy(p.filters.excludeCategories, filters.excludeCategories)
    && Tidy(p.filters.excludeWorkItems, filters.excludeWorkItems)
  }

  /** What no request to create a project touches. */
  ghost predicate SameInside(p: Project, q: Project) {
    p.overrides == q.overrides && p.roles == q.roles && p.instruments == q.instruments && p.created == q.created
  }

  ghost predicate AllBlank(texts: seq<string>) {
    forall i :: 0 <= i < |texts| ==> Strip(texts[i]) == ""
  }

  /**
   * What comes of a request to create a project: a refusal, a refresh that keeps the inside of the project and its
   * branches, or a new project with nothing inside and an empty main branch. Other projects stay as they are.
   */
  ghost predicate CreateOutcome(s: State, t: State, r: Result<Project, Error>, id: string, catalog: string,
                                specs: seq<string>, source: string, filters: Filters, now: Instant) {
    if Strip(id) == "" then t == s && r == Failure(ProjectRequired)
    else if Strip(catalog) == "" then t == s && r == Failure(CatalogRequired)
    else if AllBlank(specs) then t == s && r == Failure(SpecsRequired)
    else
      && r.Success? && Requested(r.value, id, catalog, specs, source, filters)
      && t.projects == s.projects[Strip(id) := r.value]
      && (if Strip(id) in s.projects then SameInside(r.value, s.projects[Strip(id)])
          else r.value.overrides == map[] && r.value.roles == [] && r.value.instruments == [] &&
               r.value.created == now)
      && t.branches == (if Strip(id) in s.branches then s.branches
                        else s.branches[Strip(id) := map["main" := r.value.overrides]])
  }

  lemma BlankLists(specs: seq<string>)
    ensures TextList(specs) == [] <==> AllBlank(specs)
  {
    TextListTidies(specs);
    hide TextList, Strip;
    var list := TextList(specs);
    if list != [] { assert list[0] in list; }
    if i :| 0 <= i < |specs| && Strip(specs[i]) != "" { assert Strip(specs[i]) in list; }
  }

  lemma RefreshedIs(old_: Option<Project>, id: string, catalog: string, specs: seq<string>, source: string,
                    filters: Filters, now: Instant)
    ensures var p := Refreshed(old_, id, catalog, specs, source, filters, now);
            && Requested(p, id, catalog, specs, source, filters)
            && (old_.Some? ==> SameInside(p, old_.value))
            && (old_.None? ==> p.overrides == map[] && p.roles == [] && p.instruments == [] && p.created == now)
  {
    TextListTidies(specs);
    TextListTidies(filters.includeCategories);
    TextListTidies(filters.includeWorkItems);
    TextListTidies(filters.excludeCategories);
    TextListTidies(filters.excludeWorkItems);
    hide TextList, Tidy, Strip;
  }

  lemma CreateMeans(s: State, id: string, catalog: string, specs: seq<string>, source: string, filters: Filters,
                    now: Instant)
    ensures var r := CreateProject(s, id, catalog, specs, source, filters, now);
            CreateOutcome(s, r.0, r.1, id, catalog, specs, source, filters, now)
  {
    BlankLists(specs);
    RefreshedIs(Lookup(s.projects, Strip(id)), id, catalog, specs, source, filters, now);
    hide TextList, Strip, Refreshed, Requested, SameInside, AllBlank;
  }

  // ---------- what a project remembers over a run ----------

  /** The operation creates or refreshes the project. */
  ghost predicate CreatesProject(op: Op, pid: string) {
    op.Create? && Strip(op.id) == pid != "" && Strip(op.catalog) != "" && !AllBlank(op.specs)
  }

  /** Some operation since the last clearing creates the project. */
  ghost predicate CameIntoBeing(ops: seq<Op>, pid: string) {
    ops != [] && !ops[|ops| - 1].Clear? &&
    (CreatesProject(ops[|ops| - 1], pid) || CameIntoBeing(ops[..|ops| - 1], pid))
  }

  /** The last request that created or refreshed the project, since the last clearing. */
  ghost function LastCreate(ops: seq<Op>, pid: string): Option<Op> {
    if ops == [] || ops[|ops| - 1].Clear? then None
    else if CreatesProject(ops[|ops| - 1], pid) then Some(ops[|ops| - 1])
    else LastCreate(ops[..|ops| - 1], pid)
  }

  /** When the project came into being; a restart forgets the fraction of the second. */
  ghost function Birth(ops: seq<Op>, pid: string): Option<Instant> {
    if ops == [] || ops[|ops| - 1].Clear? then None
    else
      var op, before := ops[|ops| - 1], Birth(ops[..|ops| - 1], pid);
      if before.None? && CreatesProject(op, pid) then Some(op.now)
      else if before.Some? && op == Restart then Some(Instant(before.value.seconds, 0))
      else before
  }

  /** The role bindings last set since the project came into being. */
  ghost function LastRoles(ops: seq<Op>, pid: string): seq<RawRole> {
    if ops == [] || ops[|ops| - 1].Clear? then []
    else
      var op, front := ops[|ops| - 1], ops[..|ops| - 1];
      if op.BindRoles? && Strip(op.id) == pid && CameIntoBeing(front, pid) then op.roles else LastRoles(front, pid)
  }

  /** The instrument bindings last set since the project came into being. */
  ghost function LastInstruments(ops: seq<Op>, pid: string): seq<RawInstrument> {
    if ops == [] || ops[|ops| - 1].Clear? then []
    else
      var op, front := ops[|ops| - 1], ops[..|ops| - 1];
      if op.BindInstruments? && Strip(op.id) == pid && CameIntoBeing(front, pid) then op.instruments
      else LastInstruments(front, pid)
  }

  /** A restart came after the instrument bindings were last set. */
  ghost predicate RestartedSince(ops: seq<Op>, pid: string) {
    ops != [] && !ops[|ops| - 1].Clear? &&
    var op, front := ops[|ops| - 1], ops[..|ops| - 1];
    if op.BindInstruments? && Strip(op.id) == pid && CameIntoBeing(front, pid) then false
    else op == Restart || RestartedSince(front, pid)
  }

  /** `b` is `a`, the bounds it lacks filled with the text "None". */
  ghost predicate Filled(a: Option<string>, b: Option<string>) {
    b == if a == None then Some("None") else a
  }

  ghost predicate FilledInstrument(a: Instrument, b: Instrument) {
    && b.id == a.id && b.measured == a.measured && b.specs == a.specs
    && Filled(a.startStake, b.startStake) && Filled(a.endStake, b.endStake)
    && Filled(a.validFrom, b.validFrom) && Filled(a.validTo, b.validTo)
  }

  ghost predicate FilledInstruments(a: seq<Instrument>, b: seq<Instrument>) {
    |a| == |b| && forall i :: 0 <= i < |a| ==> FilledInstrument(a[i], b[i])
  }

  /** Catalog, specs, source and filters are those of the last request that created or refreshed the project. */
  ghost predicate RemembersRequest(ops: seq<Op>, pid: string, p: Project) {
    var c := LastCreate(ops, pid);
    c.Some? && c.value.Create? &&
    Requested(p, c.value.id, c.value.catalog, c.value.specs, c.value.source, c.value.filters)
  }

  /** The instruments are those last set, or once restarted, these with their missing bounds filled. */
  ghost predicate RemembersInstruments(ops: seq<Op>, pid: string, p: Project) {
    if RestartedSince(ops, pid) then
      exists bound :: InstrumentsOf(LastInstruments(ops, pid), bound) && FilledInstruments(bound, p.instruments)
    else InstrumentsOf(LastInstruments(ops, pid), p.instruments)
  }

  /** The project shows what the run made it remember. */
  ghost predicate Remembers(ops: seq<Op>, pid: string, p: Project) {
    && RemembersRequest(ops, pid, p)
    && Birth(ops, pid) == Some(p.created)
    && RolesOf(LastRoles(ops, pid), p.roles)
    && RemembersInstruments(ops, pid, p)
  }

  lemma CreatesExactly(op: Op, pid: string)
    ensures CreatesProject(op, pid) <==>
            op.Create? && CreateError(op.id, op.catalog, op.specs).None? && Strip(op.id) == pid
  {
    if op.Create? {
      BlankLists(op.specs);
    }
    hide Strip, TextList, AllBlank;
  }

  lemma {:induction false} BeingIsExistence(ops: seq<Op>, pid: string)
    ensures CameIntoBeing(ops, pid) <==> pid in Run(ops).projects
  {
    hide Run, CreatesProject, CreateError, Strip;
    ExistsMeans(ops, pid);
    BeingExists(ops, pid);
  }

  lemma {:induction false} BeingExists(ops: seq<Op>, pid: string)
    ensures CameIntoBeing(ops, pid) <==> Exists(ops, pid)
  {
    hide CreatesProject, CreateError, Strip;
    if ops != [] {
      CreatesExactly(ops[|ops| - 1], pid);
      BeingExists(ops[..|ops| - 1], pid);
    }
  }

  /** Nothing is remembered of a project that does not exist. */
  lemma {:induction false} NothingBefore(ops: seq<Op>, pid: string)
    requires !CameIntoBeing(ops, pid)
    ensures LastRoles(ops, pid) == [] && LastInstruments(ops, pid) == [] && Birth(ops, pid) == None
  {
    hide CreatesProject, Strip;
    if ops != [] && !ops[|ops| - 1].Clear? {
      NothingBefore(ops[..|ops| - 1], pid);
    }
  }

  lemma CreateAfter(s: State, op: Op)
    requires op.Create? && CreatesProject(op, Strip(op.id))
    ensures Strip(op.id) in Step(s, op).projects
    ensures var pid := Strip(op.id); var p := Step(s, op).projects[pid];
            && Requested(p, op.id, op.catalog, op.specs, op.source, op.filters)
            && (if pid in s.projects then SameInside(p, s.projects[pid])
                else p.roles == [] && p.instruments == [] && p.created == op.now)
            && Step(s, op).projects == s.projects[pid := p]
  {
    CreateMeans(s, op.id, op.catalog, op.specs, op.source, op.filters, op.now);
    hide Strip, TextList, CreateProject, Requested, SameInside, AllBlank;
  }

  /** What the requests of a run say about a project, after one more operation. */
  lemma OneMoreOp(ops: seq<Op>, pid: string)
    requires ops != [] && !ops[|ops| - 1].Clear?
    ensures var op, front := ops[|ops| - 1], ops[..|ops| - 1];
            && LastCreate(ops, pid) == (if CreatesProject(op, pid) then Some(op) else LastCreate(front, pid))
            && (Birth(front, pid).Some? && op != Restart ==> Birth(ops, pid) == Birth(front, pid))
            && (Birth(front, pid).None? ==>
                  Birth(ops, pid) == if CreatesProject(op, pid) then Some(op.now) else None)
            && (op == Restart && Birth(front, pid).Some? ==>
                  Birth(ops, pid) == Some(Instant(Birth(front, pid).value.seconds, 0)))
            && (!op.BindRoles? || Strip(op.id) != pid ==> LastRoles(ops, pid) == LastRoles(front, pid))
            && (!op.BindInstruments? || Strip(op.id) != pid ==>
                  && LastInstruments(ops, pid) == LastInstruments(front, pid)
                  && (RestartedSince(ops, pid) <==> op == Restart || RestartedSince(front, pid)))
  {
    hide CreatesProject, Strip;
  }

  /** An operation that leaves the inside of the project alone. */
  ghost predicate Untouched(op: Op, pid: string) {
    && !op.Clear? && op != Restart && !CreatesProject(op, pid)
    && ((op.BindRoles? || op.BindInstruments?) ==> Strip(op.id) != pid)
  }

  ghost predicate SameShown(p: Project, q: Project) {
    p == q.(overrides := p.overrides)
  }

  lemma UntouchedRemembers(ops: seq<Op>, pid: string, p: Project, q: Project)
    requires ops != [] && Untouched(ops[|ops| - 1], pid) && SameShown(p, q)
    requires Remembers(ops[..|ops| - 1], pid, q)
    ensures Remembers(ops, pid, p)
  {
    OneMoreOp(ops, pid);
    hide CreatesProject, Strip, LastCreate, Birth, LastRoles, LastInstruments, RestartedSince, RolesOf, InstrumentsOf,
         Tidy, FilledInstruments;
  }

  lemma UntouchedStep(s: State, op: Op, pid: string)
    requires Inv(s) && Untouched(op, pid) && pid in s.projects
    ensures pid in Step(s, op).projects && SameShown(Step(s, op).projects[pid], s.projects[pid])
  {
    CreatesExactly(op, pid);
    hide Strip, TextList, CreateError, NormalBranch, Refreshed, Roles, Instruments, Reloaded, ProjectOk;
  }

  lemma RefreshRemembers(ops: seq<Op>, pid: string, p: Project, q: Project)
    requires ops != [] && CreatesProject(ops[|ops| - 1], pid) && SameInside(p, q)
    requires var op := ops[|ops| - 1];
             op.Create? && Requested(p, op.id, op.catalog, op.specs, op.source, op.filters)
    requires Remembers(ops[..|ops| - 1], pid, q)
    ensures Remembers(ops, pid, p)
  {
    OneMoreOp(ops, pid);
    hide CreatesProject, Strip, LastCreate, Birth, LastRoles, LastInstruments, RestartedSince, RolesOf, InstrumentsOf,
         Requested, FilledInstruments;
  }

  lemma NewRemembers(ops: seq<Op>, pid: string, p: Project)
    requires ops != [] && CreatesProject(ops[|ops| - 1], pid) && !CameIntoBeing(ops[..|ops| - 1], pid)
    requires var op := ops[|ops| - 1];
             && op.Create? && Requested(p, op.id, op.catalog, op.specs, op.source, op.filters)
             && p.created == op.now && p.roles == [] && p.instruments == []
    ensures Remembers(ops, pid, p)
  {
    OneMoreOp(ops, pid);
    NothingBefore(ops[..|ops| - 1], pid);
    NothingSet();
    hide CreatesProject, Strip, LastCreate, Birth, LastRoles, LastInstruments, RestartedSince, RolesOf, InstrumentsOf,
         Requested, FilledInstruments;
  }

  lemma NothingSet()
    ensures RolesOf([], []) && InstrumentsOf([], []) && FilledInstruments([], [])
  {
  }

  lemma RolesRemembered(ops: seq<Op>, pid: string, p: Project, q: Project)
    requires ops != [] && CameIntoBeing(ops[..|ops| - 1], pid)
    requires var op := ops[|ops| - 1];
             op.BindRoles? && Strip(op.id) == pid && p == q.(roles := Roles(op.roles))
    requires Remembers(ops[..|ops| - 1], pid, q)
    ensures Remembers(ops, pid, p)
  {
    OneMoreOp(ops, pid);
    RolesAre(ops[|ops| - 1].roles);
    hide Strip, LastCreate, Birth, LastInstruments, RestartedSince, RolesOf, InstrumentsOf, Tidy, FilledInstruments,
         Roles;
  }

  lemma InstrumentsRemembered(ops: seq<Op>, pid: string, p: Project, q: Project)
    requires ops != [] && CameIntoBeing(ops[..|ops| - 1], pid)
    requires var op := ops[|ops| - 1];
             op.BindInstruments? && Strip(op.id) == pid && p == q.(instruments := Instruments(op.instruments))
    requires Remembers(ops[..|ops| - 1], pid, q)
    ensures Remembers(ops, pid, p)
  {
    OneMoreOp(ops, pid);
    InstrumentsAre(ops[|ops| - 1].instruments);
    hide Strip, LastCreate, Birth, LastRoles, RolesOf, InstrumentsOf, Tidy, FilledInstruments, Instruments;
  }

  lemma FilledAgain(a: seq<Instrument>, b: seq<Instrument>)
    ensures FilledInstruments(b, RereadInstruments(b))
    ensures FilledInstruments(a, b) ==> FilledInstruments(a, RereadInstruments(b))
  {
  }

  lemma RestartRemembers(ops: seq<Op>, pid: string, q: Project)
    requires ops != [] && ops[|ops| - 1] == Restart && Remembers(ops[..|ops| - 1], pid, q)
    ensures Remembers(ops, pid, RereadProject(q))
  {
    OneMoreOp(ops, pid);
    var front := ops[..|ops| - 1];
    hide Strip, LastCreate, Birth, LastRoles, LastInstruments, RestartedSince, RolesOf, InstrumentsOf, Tidy,
         FilledInstruments, RereadInstruments;
    if RestartedSince(front, pid) {
      var bound :| InstrumentsOf(LastInstruments(front, pid), bound) && FilledInstruments(bound, q.instruments);
      FilledAgain(bound, q.instruments);
    } else {
      FilledAgain([], q.instruments);
    }
  }

  lemma BindStep(s: State, op: Op, pid: string)
    requires (op.BindRoles? || op.BindInstruments?) && Strip(op.id) == pid != "" && pid in s.projects
    ensures pid in Step(s, op).projects
    ensures op.BindRoles? ==> Step(s, op).projects[pid] == s.projects[pid].(roles := Roles(op.roles))
    ensures op.BindInstruments? ==>
              Step(s, op).projects[pid] == s.projects[pid].(instruments := Instruments(op.instruments))
  {
    hide Strip, Roles, Instruments;
  }

  lemma RestartStep(s: State, pid: string)
    requires Inv(s) && pid in s.projects
    ensures pid in Step(s, Restart).projects && Step(s, Restart).projects[pid] == RereadProject(s.projects[pid])
  {
    hide RereadProject, Reloaded, ProjectOk, Mirrored, CreateProject, SetOverride, SetRoles, SetInstruments;
    RestartRereads(s);
  }

  /**
   * After any run, refreshes and restarts included, an existing project shows the last request that created or
   * refreshed it, its time of birth, and the bindings last set since then.
   */
  lemma {:induction false} ProjectRemembers(ops: seq<Op>, pid: string)
    requires CameIntoBeing(ops, pid) && pid != ""
    ensures pid in Run(ops).projects && Remembers(ops, pid, Run(ops).projects[pid])
  {
    hide Inv, Step, Remembers, CreatesProject, Requested, SameInside, SameShown, Roles, Instruments, RereadProject,
         Strip;
    var op, front := ops[|ops| - 1], ops[..|ops| - 1];
    var s := Run(front);
    BeingIsExistence(ops, pid);
    BeingIsExistence(front, pid);
    RunKeepsInv(front);
    CreatesNames(op, pid);
    if CreatesProject(op, pid) {
      CreateAfter(s, op);
      if CameIntoBeing(front, pid) {
        ProjectRemembers(front, pid);
        RefreshRemembers(ops, pid, Step(s, op).projects[pid], s.projects[pid]);
      } else {
        NewRemembers(ops, pid, Step(s, op).projects[pid]);
      }
    } else {
      ProjectRemembers(front, pid);
      if op == Restart {
        RestartStep(s, pid);
        RestartRemembers(ops, pid, s.projects[pid]);
      } else if (op.BindRoles? || op.BindInstruments?) && Strip(op.id) == pid {
        BindStep(s, op, pid);
        if op.BindRoles? {
          RolesRemembered(ops, pid, Step(s, op).projects[pid], s.projects[pid]);
        } else {
          InstrumentsRemembered(ops, pid, Step(s, op).projects[pid], s.projects[pid]);
        }
      } else {
        UntouchedStep(s, op, pid);
        UntouchedRemembers(ops, pid, Step(s, op).projects[pid], s.projects[pid]);
      }
    }
  }

  lemma CreatesNames(op: Op, pid: string)
    ensures CreatesProject(op, pid) ==> op.Create? && pid == Strip(op.id) && CreatesProject(op, Strip(op.id))
  {
  }

  // ---------- replies ----------

  /** Writing an override and binding roles or instruments are refused for the first of these reasons, or done. */
  lemma RepliesMean(s: State, id: string, spec: string, branch: string, doc: Doc, roles: seq<RawRole>,
                    instruments: seq<RawInstrument>)
    ensures var r := SetOverride(s, id, spec, branch, doc);
            if Strip(id) == "" then r == (s, Failure(ProjectRequired))
            else if Strip(spec) == "" then r == (s, Failure(SpecRequired))
            else if Strip(id) !in s.projects then r == (s, Failure(ProjectMissing))
            else r.1 == Success(())
    ensures var r := SetRoles(s, id, roles);
            if Strip(id) == "" then r == (s, Failure(ProjectRequired))
            else if Strip(id) !in s.projects then r == (s, Failure(ProjectMissing))
            else
              && r.1.Success? && RolesOf(roles, r.1.value)
              && r.0 == s.(projects := s.projects[Strip(id) := s.projects[Strip(id)].(roles := r.1.value)])
    ensures var r := SetInstruments(s, id, instruments);
            if Strip(id) == "" then r == (s, Failure(ProjectRequired))
            else if Strip(id) !in s.projects then r == (s, Failure(ProjectMissing))
            else
              && r.1.Success? && InstrumentsOf(instruments, r.1.value)
              && r.0 == s.(projects := s.projects[Strip(id) := s.projects[Strip(id)].(instruments := r.1.value)])
  {
    RolesAre(roles);
    InstrumentsAre(instruments);
    hide Strip, RolesOf, InstrumentsOf, Roles, Instruments, PutOverride;
  }

  // ---------- branches ----------

  /** A blank branch is the main one. */
  lemma BranchIs(branch: string)
    ensures OrFallback(NormalBranch(branch), branch, "main")
  {
    hide Strip;
  }

  /** A file keeps its branches, and a project without a main branch gets its own overrides as one. */
  lemma LoadedBranches(p: Payload, id: string)
    requires Loaded(p).Success?
    ensures var s := Loaded(p).value;
            && s.projects.Keys == p.projects.Keys
            && (id in s.branches <==> id in p.projects || id in p.branches)
            && (id in p.projects ==> id in s.branches && "main" in s.branches[id])
            && (id in p.projects && (id !in p.branches || "main" !in p.branches[id]) ==>
                  s.branches[id]["main"] == s.projects[id].overrides == p.projects[id].overrides)
            && (id in p.branches ==>
                  forall b :: b in p.branches[id] ==> b in s.branches[id] && s.branches[id][b] == p.branches[id][b])
            && (id in s.branches ==>
                  forall b :: b in s.branches[id] && b != "main" ==> id in p.branches && b in p.branches[id])
  {
    hide Roles, Instruments, NormalFilters, NormalSource, Strip, TextList;
  }
}
