/** Projects with branch overrides: the normalisers, what each store operation does, and the saved form. */
module Projects {
  import opened Lists
  import opened Text

  // ---------- normalised texts ----------

  function Strips(xs: seq<string>): (r: seq<string>)
    ensures |r| == |xs| && forall i :: 0 <= i < |xs| ==> r[i] == Strip(xs[i])
  {
    seq(|xs|, i requires 0 <= i < |xs| => Strip(xs[i]))
  }

  /** The trimmed, non-blank texts, each at its first occurrence. */
  function TextList(xs: seq<string>): seq<string> {
    Dedup(Filter(Strips(xs), x => x != ""))
  }

  ghost predicate NormalList(xs: seq<string>) {
    NoDup(xs) && forall x :: x in xs ==> x != "" && Trimmed(x)
  }

  lemma TextListStep(xs: seq<string>, i: nat)
    requires i < |xs|
    ensures var x := Strip(xs[i]);
            TextList(xs[..i + 1]) ==
            if x == "" || x in TextList(xs[..i]) then TextList(xs[..i]) else TextList(xs[..i]) + [x]
  {
    hide Strip, Dedup, Filter;
    var front := Strips(xs[..i]);
    var x := Strip(xs[i]);
    assert Strips(xs[..i + 1]) == front + [x];
    FilterSnoc(front, x, y => y != "");
    DedupSnoc(Filter(front, y => y != ""), x);
  }

  lemma TextListEmpty()
    ensures TextList([]) == []
  {
  }

  lemma TextListNormal(xs: seq<string>)
    ensures NormalList(TextList(xs))
    ensures forall y :: y in TextList(xs) <==> y != "" && exists x :: x in xs && Strip(x) == y
  {
    hide Strip, Trimmed;
    forall x | x in xs ensures Strip(x) in Strips(xs) {
      var i :| 0 <= i < |xs| && xs[i] == x;
      assert Strips(xs)[i] == Strip(x);
    }
    forall y | y in TextList(xs) ensures y != "" && Trimmed(y) && exists x :: x in xs && Strip(x) == y {
      var i :| 0 <= i < |xs| && Strips(xs)[i] == y;
      StripTrims(xs[i]);
    }
  }

  lemma TextListOfNormal(xs: seq<string>)
    requires NormalList(xs)
    ensures TextList(xs) == xs
  {
    hide Strip, Trimmed;
    forall i | 0 <= i < |xs| ensures Strip(xs[i]) == xs[i] {
      assert xs[i] in xs;
      StripOfTrimmed(xs[i]);
    }
    assert Strips(xs) == xs;
    FilterAll(xs, x => x != "");
    DedupOfNoDup(xs);
  }

  // ---------- bindings and filters ----------

  /** A field of an incoming record: missing, null, or a text; null reads as the text "None". */
  datatype Raw = Absent | Null | Txt(text: string)

  function Read(r: Raw): string {
    match r
    case Absent => ""
    case Null => "None"
    case Txt(text) => Strip(text)
  }

  datatype RawRole = RawRole(did: Raw, measured: seq<string>, specs: seq<string>, actions: seq<string>)

  datatype Role = Role(did: string, measured: seq<string>, specs: seq<string>, actions: seq<string>)

  datatype RawInstrument = RawInstrument(id: Raw, measured: seq<string>, specs: seq<string>,
                                         startStake: Raw, endStake: Raw, validFrom: Raw, validTo: Raw)

  datatype Instrument = Instrument(id: string, measured: seq<string>, specs: seq<string>, startStake: Option<string>,
                                   endStake: Option<string>, validFrom: Option<string>, validTo: Option<string>)

  datatype Filters = Filters(includeCategories: seq<string>, includeWorkItems: seq<string>,
                             excludeCategories: seq<string>, excludeWorkItems: seq<string>)

  function NormalRole(r: RawRole): Role {
    Role(Read(r.did), TextList(r.measured), TextList(r.specs), TextList(r.actions))
  }

  function Roles(rs: seq<RawRole>): seq<Role> {
    if rs == [] then []
    else
      var n := |rs| - 1;
      if Read(rs[n].did) == "" then Roles(rs[..n]) else Roles(rs[..n]) + [NormalRole(rs[n])]
  }

  function Bound(r: Raw): Option<string> {
    if Read(r) == "" then None else Some(Read(r))
  }

  function NormalInstrument(r: RawInstrument): Instrument {
    Instrument(Read(r.id), TextList(r.measured), TextList(r.specs), Bound(r.startStake), Bound(r.endStake),
               Bound(r.validFrom), Bound(r.validTo))
  }

  function Instruments(rs: seq<RawInstrument>): seq<Instrument> {
    if rs == [] then []
    else
      var n := |rs| - 1;
      if Read(rs[n].id) == "" then Instruments(rs[..n]) else Instruments(rs[..n]) + [NormalInstrument(rs[n])]
  }

  function NormalFilters(f: Filters): Filters {
    Filters(TextList(f.includeCategories), TextList(f.includeWorkItems), TextList(f.excludeCategories),
            TextList(f.excludeWorkItems))
  }

  function NormalBranch(branch: string): string {
    if Strip(branch) == "" then "main" else Strip(branch)
  }

  function NormalSource(source: string): string {
    if Strip(source) == "" then "explicit_specs" else Strip(source)
  }

  // ---------- the store ----------

  /** An override document; the store never looks inside. */
  type Doc = string

  datatype Instant = Instant(seconds: int, micros: nat)

  datatype Project = Project(id: string, catalog: string, specs: seq<string>, overrides: map<string, Doc>,
                             roles: seq<Role>, instruments: seq<Instrument>, source: string, filters: Filters,
                                 created: Instant)

  type Branches = map<string, map<string, Doc>>

  datatype State = State(projects: map<string, Project>, branches: map<string, Branches>)

  const EMPTY: State := State(map[], map[])

  datatype Error = ProjectRequired | CatalogRequired | SpecsRequired | SpecRequired | ProjectMissing

  function CreateError(id: string, catalog: string, specs: seq<string>): Option<Error> {
    if Strip(id) == "" then Some(ProjectRequired)
    else if Strip(catalog) == "" then Some(CatalogRequired)
    else if TextList(specs) == [] then Some(SpecsRequired)
    else None
  }

  /** A new project, or the refreshed one: overrides, bindings and creation time survive. */
  function Refreshed(old_: Option<Project>, id: string, catalog: string, specs: seq<string>, source: string,
                     filters: Filters, now: Instant): Project {
    var overrides := if old_.Some? then old_.value.overrides else map[];
    var roles := if old_.Some? then old_.value.roles else [];
    var instruments := if old_.Some? then old_.value.instruments else [];
    var created := if old_.Some? then old_.value.created else now;
    Project(Strip(id), Strip(catalog), TextList(specs), overrides, roles, instruments, NormalSource(source),
            NormalFilters(filters), created)
  }

  function Lookup<T>(m: map<string, T>, k: string): Option<T> {
    if k in m then Some(m[k]) else None
  }

  function CreateProject(s: State, id: string, catalog: string, specs: seq<string>, source: string, filters: Filters,
                         now: Instant): (State, Result<Project, Error>) {
    var e := CreateError(id, catalog, specs);
    if e.Some? then (s, Failure(e.value))
    else
      var pid := Strip(id);
      var p := Refreshed(Lookup(s.projects, pid), id, catalog, specs, source, filters, now);
      (State(s.projects[pid := p],
             if pid in s.branches then s.branches else s.branches[pid := map["main" := p.overrides]]),
       Success(p))
  }

  function OverrideError(s: State, id: string, spec: string): Option<Error> {
    if Strip(id) == "" then Some(ProjectRequired)
    else if Strip(spec) == "" then Some(SpecRequired)
    else if Strip(id) !in s.projects then Some(ProjectMissing)
    else None
  }

  /** The branch is created if need be; the main branch is mirrored in the project itself. */
  function PutOverride(s: State, pid: string, spec: string, branch: string, doc: Doc): State
    requires pid in s.projects
  {
    var all: Branches := if pid in s.branches then s.branches[pid] else map["main" := map[]];
    var own := if branch in all then all[branch] else map[];
    var p := s.projects[pid];
    State(if branch == "main" then s.projects[pid := p.(overrides := p.overrides[spec := doc])] else s.projects,
          s.branches[pid := all[branch := own[spec := doc]]])
  }

  function SetOverride(s: State, id: string, spec: string, branch: string, doc: Doc): (State, Result<(), Error>) {
    var e := OverrideError(s, id, spec);
    if e.Some? then (s, Failure(e.value))
    else (PutOverride(s, Strip(id), Strip(spec), NormalBranch(branch), doc), Success(()))
  }

  function GetOverride(s: State, id: string, spec: string, branch: string): Result<Option<Doc>, Error> {
    if Strip(id) == "" then Failure(ProjectRequired)
    else if Strip(spec) == "" then Failure(SpecRequired)
    else
      var all: Branches := if Strip(id) in s.branches then s.branches[Strip(id)] else map[];
      var own := Lookup(if NormalBranch(branch) in all then all[NormalBranch(branch)] else map[], Strip(spec));
      Success(if own.Some? then own else Lookup(if "main" in all then all["main"] else map[], Strip(spec)))
  }

  function SetRoles(s: State, id: string, rs: seq<RawRole>): (State, Result<seq<Role>, Error>) {
    if Strip(id) == "" then (s, Failure(ProjectRequired))
    else if Strip(id) !in s.projects then (s, Failure(ProjectMissing))
    else (s.(projects := s.projects[Strip(id) := s.projects[Strip(id)].(roles := Roles(rs))]), Success(Roles(rs)))
  }

  function SetInstruments(s: State, id: string, rs: seq<RawInstrument>): (State, Result<seq<Instrument>, Error>) {
    if Strip(id) == "" then (s, Failure(ProjectRequired))
    else if Strip(id) !in s.projects then (s, Failure(ProjectMissing))
    else (s.(projects := s.projects[Strip(id) := s.projects[Strip(id)].(instruments := Instruments(rs))]),
          Success(Instruments(rs)))
  }

  // ---------- the saved form ----------

  datatype RawProject = RawProject(catalog: string, specs: seq<string>, overrides: map<string, Doc>,
                                   roles: seq<RawRole>,
                                   instruments: seq<RawInstrument>, source: string, filters: Filters, created: int)

  datatype Payload = Payload(projects: map<string, RawProject>, branches: map<string, Branches>)

  function SavedBound(b: Option<string>): Raw {
    if b.None? then Null else Txt(b.value)
  }

  function SavedRole(r: Role): RawRole {
    RawRole(Txt(r.did), r.measured, r.specs, r.actions)
  }

  function SavedInstrument(i: Instrument): RawInstrument {
    RawInstrument(Txt(i.id), i.measured, i.specs, SavedBound(i.startStake), SavedBound(i.endStake),
                  SavedBound(i.validFrom), SavedBound(i.validTo))
  }

  function SavedRoles(rs: seq<Role>): seq<RawRole> {
    seq(|rs|, i requires 0 <= i < |rs| => SavedRole(rs[i]))
  }

  function SavedInstruments(rs: seq<Instrument>): seq<RawInstrument> {
    seq(|rs|, i requires 0 <= i < |rs| => SavedInstrument(rs[i]))
  }

  /** Times are saved to the second. */
  function SavedProject(p: Project): RawProject {
    RawProject(p.catalog, p.specs, p.overrides, SavedRoles(p.roles), SavedInstruments(p.instruments), p.source,
               p.filters, p.created.seconds)
  }

  function Saved(s: State): Payload {
    Payload(map id | id in s.projects :: SavedProject(s.projects[id]), s.branches)
  }

  function LoadedProject(id: string, r: RawProject): Result<Project, Error> {
    if TextList(r.specs) == [] then Failure(SpecsRequired)
    else Success(Project(id, Strip(r.catalog), TextList(r.specs), r.overrides, Roles(r.roles),
                         Instruments(r.instruments),
                         NormalSource(r.source), NormalFilters(r.filters), Instant(r.created, 0)))
  }

  function MainOf(projects: map<string, Project>, branches: map<string, Branches>, id: string): Branches {
    var all: Branches := if id in branches then branches[id] else map[];
    if id in projects && "main" !in all then all["main" := projects[id].overrides] else all
  }

  /** Every loaded project ends up with a main branch. */
  function WithMain(projects: map<string, Project>, branches: map<string, Branches>): map<string, Branches> {
    map id | id in branches.Keys + projects.Keys :: MainOf(projects, branches, id)
  }

  function Loaded(p: Payload): Result<State, Error> {
    if exists id :: id in p.projects && LoadedProject(id, p.projects[id]).Failure? then Failure(SpecsRequired)
    else
      var projects := map id | id in p.projects :: LoadedProject(id, p.projects[id]).value;
      Success(State(projects, WithMain(projects, p.branches)))
  }

  lemma LoadedProjects(p: Payload, projects: map<string, Project>)
    requires projects.Keys == p.projects.Keys
    requires forall id :: id in p.projects ==> LoadedProject(id, p.projects[id]) == Success(projects[id])
    ensures Loaded(p) == Success(State(projects, WithMain(projects, p.branches)))
  {
    hide LoadedProject, WithMain;
    if forall id :: id in p.projects ==> LoadedProject(id, p.projects[id]).Success? {
      assert (map id | id in p.projects :: LoadedProject(id, p.projects[id]).value) == projects;
    }
  }

  lemma LoadRefused(p: Payload)
    ensures (exists id :: id in p.projects && LoadedProject(id, p.projects[id]).Failure?) ==>
            Loaded(p) == Failure(SpecsRequired)
  {
    hide LoadedProject, WithMain;
  }

  // ---------- runs ----------

  datatype Op =
    | Create(id: string, catalog: string, specs: seq<string>, source: string, filters: Filters, now: Instant)
    | Put(id: string, spec: string, branch: string, doc: Doc)
    | BindRoles(id: string, roles: seq<RawRole>)
    | BindInstruments(id: string, instruments: seq<RawInstrument>)
    | Clear
    | Restart

  /** With persistence on, a new process reads what the old one saved; if it cannot, nothing has changed. */
  function Reloaded(s: State): State {
    var r := Loaded(Saved(s));
    if r.Success? then r.value else s
  }

  function Step(s: State, op: Op): State {
    match op
    case Create(id, catalog, specs, source, filters, now) =>
      CreateProject(s, id, catalog, specs, source, filters, now).0
    case Put(id, spec, branch, doc) => SetOverride(s, id, spec, branch, doc).0
    case BindRoles(id, roles) => SetRoles(s, id, roles).0
    case BindInstruments(id, instruments) => SetInstruments(s, id, instruments).0
    case Clear => EMPTY
    case Restart => Reloaded(s)
  }

  function Run(ops: seq<Op>): State {
    if ops == [] then EMPTY else Step(Run(ops[..|ops| - 1]), ops[|ops| - 1])
  }
}
