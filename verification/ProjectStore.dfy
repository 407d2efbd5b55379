/**
 * The project store object. Its dictionaries are reassigned in place and written to disk after every change; each
 * method is tied to the operation of `Projects` it performs.
 */
module ProjectStore {
  import opened Lists
  import opened Text
  import opened Projects
  import R = ProjectRuns

  // ---------- the normalising loops ----------

  method NormalizeTextList(values: seq<string>) returns (r: seq<string>)
    ensures r == TextList(values)
  {
    hide Strip, TextList;
    TextListEmpty();
    r := [];
    var seen: set<string> := {};
    for i := 0 to |values|
      invariant r == TextList(values[..i])
      invariant seen == Elems(r)
    {
      TextListStep(values, i);
      var value := Strip(values[i]);
      if value == "" || value in seen {
        continue;
      }
      seen := seen + {value};
      r := r + [value];
    }
    assert values[..|values|] == values;
  }

  method NormalizeSpecs(values: seq<string>) returns (r: Result<seq<string>, Error>)
    ensures r == if TextList(values) == [] then Failure(SpecsRequired) else Success(TextList(values))
  {
    var specs := NormalizeTextList(values);
    return if specs == [] then Failure(SpecsRequired) else Success(specs);
  }

  method NormalizeRoleBindings(values: seq<RawRole>) returns (r: seq<Role>)
    ensures r == Roles(values)
  {
    hide Read, TextList;
    r := [];
    for i := 0 to |values|
      invariant r == Roles(values[..i])
    {
      assert values[..i + 1][..i] == values[..i];
      var did := Read(values[i].did);
      if did == "" {
        continue;
      }
      var measured := NormalizeTextList(values[i].measured);
      var specs := NormalizeTextList(values[i].specs);
      var actions := NormalizeTextList(values[i].actions);
      r := r + [Role(did, measured, specs, actions)];
    }
    assert values[..|values|] == values;
  }

  method NormalizeInstrumentBindings(values: seq<RawInstrument>) returns (r: seq<Instrument>)
    ensures r == Instruments(values)
  {
    hide Read, TextList, Bound;
    r := [];
    for i := 0 to |values|
      invariant r == Instruments(values[..i])
    {
      assert values[..i + 1][..i] == values[..i];
      var raw := values[i];
      var id := Read(raw.id);
      if id == "" {
        continue;
      }
      var measured := NormalizeTextList(raw.measured);
      var specs := NormalizeTextList(raw.specs);
      r := r + [Instrument(id, measured, specs, Bound(raw.startStake), Bound(raw.endStake), Bound(raw.validFrom),
                           Bound(raw.validTo))];
    }
    assert values[..|values|] == values;
  }

  method NormalizeScopeFilters(f: Filters) returns (r: Filters)
    ensures r == NormalFilters(f)
  {
    var includeCategories := NormalizeTextList(f.includeCategories);
    var includeWorkItems := NormalizeTextList(f.includeWorkItems);
    var excludeCategories := NormalizeTextList(f.excludeCategories);
    var excludeWorkItems := NormalizeTextList(f.excludeWorkItems);
    return Filters(includeCategories, includeWorkItems, excludeCategories, excludeWorkItems);
  }

  // ---------- the object ----------

  class Store {
    var projects: map<string, Project>
    var overridesByBranch: map<string, Branches>
    var disk: Option<Payload>
    const persistEnabled: bool

    function View(): State
      reads this
    {
      State(projects, overridesByBranch)
    }

    /** With persistence on, the file holds what a change left behind. */
    ghost predicate Synced()
      reads this
    {
      persistEnabled ==> disk == Some(Saved(View()))
    }

    /**
     * What a new process would read: the last change, nothing if there is no file, or what this process has read itself
     * and not changed since.
     */
    ghost predicate OnDisk()
      reads this
    {
      persistEnabled ==>
        || Synced()
        || (disk == None && View() == EMPTY)
        || (disk.Some? && Loaded(disk.value) == Success(View()) && Reloaded(View()) == View())
    }

    constructor (disk: Option<Payload>, persistEnabled: bool)
      ensures View() == EMPTY && this.disk == disk && this.persistEnabled == persistEnabled
    {
      projects, overridesByBranch := map[], map[];
      this.disk, this.persistEnabled := disk, persistEnabled;
    }

    /** A store starts with what its file describes. */
    static method Open(disk: Option<Payload>, persistEnabled: bool) returns (r: Result<Store, Error>)
      ensures r.Failure? <==> persistEnabled && disk.Some? && Loaded(disk.value).Failure?
      ensures r.Success? ==>
                && fresh(r.value) && r.value.disk == disk && r.value.persistEnabled == persistEnabled
                && r.value.View() == if persistEnabled && disk.Some? then Loaded(disk.value).value else EMPTY
    {
      hide Loaded;
      var store := new Store(disk, persistEnabled);
      var loaded := store.Load();
      return if loaded.Failure? then Failure(loaded.error) else Success(store);
    }

    /** The file of a running store, opened by a new process: the restart of the value model. */
    static method Reopen(s: Store) returns (t: Store)
      requires s.persistEnabled && s.OnDisk() && R.Inv(s.View())
      ensures fresh(t) && t.persistEnabled && t.View() == Step(s.View(), Restart)
      ensures t.OnDisk()
    {
      hide Loaded, Saved, Reloaded, R.Inv, Store.View;
      R.RestartSettles(s.View());
      R.EmptyRestarts();
      var r := Open(s.disk, true);
      t := r.value;
    }

    /** `_persist_store` */
    method Persist()
      modifies this`disk
      ensures Synced() && (!persistEnabled ==> disk == old(disk))
    {
      if !persistEnabled {
        return;
      }
      hide SavedProject;
      var payload: map<string, RawProject> := map[];
      var todo := projects.Keys;
      while todo != {}
        invariant todo <= projects.Keys && payload.Keys == projects.Keys - todo
        invariant forall id :: id in payload ==> payload[id] == SavedProject(projects[id])
        decreases todo
      {
        var id :| id in todo;
        payload := payload[id := SavedProject(projects[id])];
        todo := todo - {id};
      }
      assert payload == Saved(View()).projects;
      disk := Some(Payload(payload, overridesByBranch));
    }

    /** `_load_store`: a file with a project without specs is refused and changes nothing. */
    method Load() returns (r: Result<(), Error>)
      modifies this`projects, this`overridesByBranch
      ensures persistEnabled && disk.Some? && Loaded(disk.value).Success? ==>
                r == Success(()) && View() == Loaded(disk.value).value
      ensures persistEnabled && disk.Some? && Loaded(disk.value).Failure? ==>
                r == Failure(SpecsRequired) && View() == old(View())
      ensures !persistEnabled || disk.None? ==> r == Success(()) && View() == old(View())
    {
      if !persistEnabled || disk.None? {
        return Success(());
      }
      hide LoadedProject, WithMain, Loaded;
      var payload := disk.value;
      var loaded := LoadProjects(payload.projects);
      LoadRefused(payload);
      if loaded.Failure? {
        return Failure(loaded.error);
      }
      LoadedProjects(payload, loaded.value);
      projects := loaded.value;
      overridesByBranch := AddMainBranches(projects, payload.branches);
      return Success(());
    }

    static method LoadProjects(raw: map<string, RawProject>) returns (r: Result<map<string, Project>, Error>)
      ensures r.Success? ==> r.value.Keys == raw.Keys && forall id :: id in raw ==>
              LoadedProject(id, raw[id]) == Success(r.value[id])
      ensures r.Failure? ==> r.error == SpecsRequired && exists id :: id in raw && LoadedProject(id, raw[id]).Failure?
    {
      hide LoadedProject;
      var loaded: map<string, Project> := map[];
      var todo := raw.Keys;
      while todo != {}
        invariant todo <= raw.Keys && loaded.Keys == raw.Keys - todo
        invariant forall id :: id in loaded ==> LoadedProject(id, raw[id]) == Success(loaded[id])
        decreases todo
      {
        var id :| id in todo;
        var p := LoadedProject(id, raw[id]);
        if p.Failure? {
          LoadFailsWithSpecs(id, raw[id]);
          return Failure(p.error);
        }
        loaded := loaded[id := p.value];
        todo := todo - {id};
      }
      return Success(loaded);
    }

    static method AddMainBranch(p: Project, all: Branches) returns (r: Branches)
      ensures r == if "main" in all then all else all["main" := p.overrides]
    {
      r := all;
      if "main" !in r {
        r := r["main" := p.overrides];
      }
    }

    static method AddMainBranches(projects: map<string, Project>, branches: map<string, Branches>)
        returns (r: map<string, Branches>)
      ensures r == WithMain(projects, branches)
    {
      hide MainOf, WithMain;
      r := branches;
      var todo := projects.Keys;
      while todo != {}
        invariant todo <= projects.Keys && r.Keys == branches.Keys + (projects.Keys - todo)
        invariant forall id :: id in projects && id !in todo ==> r[id] == MainOf(projects, branches, id)
        invariant forall id :: id in branches && (id in todo || id !in projects) ==> r[id] == branches[id]
        decreases todo
      {
        var id :| id in todo;
        var all := AddMainBranch(projects[id], if id in r then r[id] else map[]);
        MainOfProject(projects, branches, id);
        r := r[id := all];
        todo := todo - {id};
      }
      MainEverywhere(projects, branches, r);
    }

    method CreateProject(id: string, catalog: string, specs: seq<string>, source: string, filters: Filters,
                         now: Instant)
      returns (r: Result<Project, Error>)
      modifies this
      ensures (View(), r) == Projects.CreateProject(old(View()), id, catalog, specs, source, filters, now)
      ensures if r.Success? then Synced() else disk == old(disk)
      ensures old(OnDisk()) ==> OnDisk()
    {
      hide Strip, TextList, NormalFilters, NormalSource;
      if Strip(id) == "" {
        return Failure(ProjectRequired);
      }
      if Strip(catalog) == "" {
        return Failure(CatalogRequired);
      }
      var selected := NormalizeSpecs(specs);
      if selected.Failure? {
        return Failure(selected.error);
      }
      var scope := NormalizeScopeFilters(filters);
      var pid, src := Strip(id), NormalSource(source);
      var p := Project(pid, Strip(catalog), selected.value, map[], [], [], src, scope, now);
      if pid in projects {
        var old_ := projects[pid];
        p := p.(overrides := old_.overrides, roles := old_.roles, instruments := old_.instruments,
                created := old_.created);
      }
      assert p == Refreshed(Lookup(old(projects), pid), id, catalog, specs, source, filters, now);
      projects := projects[pid := p];
      if pid !in overridesByBranch {
        overridesByBranch := overridesByBranch[pid := map["main" := p.overrides]];
      }
      Persist();
      return Success(p);
    }

    method GetProject(id: string) returns (r: Result<Project, Error>)
      ensures r == if Strip(id) == "" then Failure(ProjectRequired)
                   else if Strip(id) in View().projects then Success(View().projects[Strip(id)])
                   else Failure(ProjectMissing)
    {
      if Strip(id) == "" {
        return Failure(ProjectRequired);
      }
      if Strip(id) !in projects {
        return Failure(ProjectMissing);
      }
      return Success(projects[Strip(id)]);
    }

    method SetOverride(id: string, spec: string, doc: Doc, branch: string) returns (r: Result<(), Error>)
      modifies this
      ensures (View(), r) == Projects.SetOverride(old(View()), id, spec, branch, doc)
      ensures if r.Success? then Synced() else disk == old(disk)
      ensures old(OnDisk()) ==> OnDisk()
    {
      hide Strip, NormalBranch;
      var e := OverrideError(View(), id, spec);
      if e.Some? {
        return Failure(e.value);
      }
      var pid, sid, bid := Strip(id), Strip(spec), NormalBranch(branch);
      var all: Branches := if pid in overridesByBranch then overridesByBranch[pid] else map["main" := map[]];
      var own := if bid in all then all[bid] else map[];
      overridesByBranch := overridesByBranch[pid := all[bid := own[sid := doc]]];
      if bid == "main" {
        projects := projects[pid := projects[pid].(overrides := projects[pid].overrides[sid := doc])];
      }
      assert View() == PutOverride(old(View()), pid, sid, bid, doc);
      Persist();
      return Success(());
    }

    method GetOverride(id: string, spec: string, branch: string) returns (r: Result<Option<Doc>, Error>)
      ensures r == Projects.GetOverride(View(), id, spec, branch)
    {
      hide Strip, NormalBranch;
      if Strip(id) == "" {
        return Failure(ProjectRequired);
      }
      if Strip(spec) == "" {
        return Failure(SpecRequired);
      }
      var all: Branches := if Strip(id) in overridesByBranch then overridesByBranch[Strip(id)] else map[];
      var bid, sid := NormalBranch(branch), Strip(spec);
      if bid in all && sid in all[bid] {
        return Success(Some(all[bid][sid]));
      }
      if "main" in all && sid in all["main"] {
        return Success(Some(all["main"][sid]));
      }
      return Success(None);
    }

    method SetRoleBindings(id: string, bindings: seq<RawRole>) returns (r: Result<seq<Role>, Error>)
      modifies this
      ensures (View(), r) == SetRoles(old(View()), id, bindings)
      ensures if r.Success? then Synced() else disk == old(disk)
      ensures old(OnDisk()) ==> OnDisk()
    {
      hide Strip, Roles;
      if Strip(id) == "" {
        return Failure(ProjectRequired);
      }
      if Strip(id) !in projects {
        return Failure(ProjectMissing);
      }
      var normalized := NormalizeRoleBindings(bindings);
      projects := projects[Strip(id) := projects[Strip(id)].(roles := normalized)];
      Persist();
      return Success(normalized);
    }

    method SetInstrumentBindings(id: string, bindings: seq<RawInstrument>) returns (r: Result<seq<Instrument>, Error>)
      modifies this
      ensures (View(), r) == SetInstruments(old(View()), id, bindings)
      ensures if r.Success? then Synced() else disk == old(disk)
      ensures old(OnDisk()) ==> OnDisk()
    {
      hide Strip, Instruments;
      if Strip(id) == "" {
        return Failure(ProjectRequired);
      }
      if Strip(id) !in projects {
        return Failure(ProjectMissing);
      }
      var normalized := NormalizeInstrumentBindings(bindings);
      projects := projects[Strip(id) := projects[Strip(id)].(instruments := normalized)];
      Persist();
      return Success(normalized);
    }

    method ClearStore()
      modifies this
      ensures View() == EMPTY && disk == if persistEnabled then None else old(disk)
      ensures OnDisk()
    {
      projects, overridesByBranch := map[], map[];
      if persistEnabled {
        disk := None;
      }
    }
  }

  lemma MainOfProject(projects: map<string, Project>, branches: map<string, Branches>, id: string)
    requires id in projects
    ensures var all: Branches := if id in branches then branches[id] else map[];
            MainOf(projects, branches, id) == if "main" in all then all else all["main" := projects[id].overrides]
  {
  }

  lemma MainEverywhere(projects: map<string, Project>, branches: map<string, Branches>, r: map<string, Branches>)
    requires r.Keys == branches.Keys + projects.Keys
    requires forall id :: id in projects ==> r[id] == MainOf(projects, branches, id)
    requires forall id :: id in branches && id !in projects ==> r[id] == branches[id]
    ensures r == WithMain(projects, branches)
  {
    assert forall id :: id in branches && id !in projects ==> MainOf(projects, branches, id) == branches[id];
    hide MainOf;
  }

  lemma LoadFailsWithSpecs(id: string, r: RawProject)
    ensures LoadedProject(id, r).Failure? ==> LoadedProject(id, r).error == SpecsRequired
  {
    hide TextList, Strip;
  }
}
