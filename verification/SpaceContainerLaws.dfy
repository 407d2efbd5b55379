/** What every container read from a payload satisfies, and that writing it down loses nothing. */
module SpaceContainerLaws {
  import opened Lists
  import opened Text
  import opened SpaceContainer

  // ---------- normal containers ----------

  ghost predicate Filled(s: string) {
    s != "" && Trimmed(s)
  }

  ghost predicate FilledList(xs: seq<string>) {
    forall x :: x in xs ==> Filled(x)
  }

  ghost predicate FilledOption(o: Option<string>) {
    o.Some? ==> Filled(o.value)
  }

  ghost predicate NormalBinding(b: SpecBinding) {
    Filled(b.spuId) && b.status in BINDING_STATES && FilledOption(b.latestNode)
  }

  ghost predicate NormalBindings(bs: seq<SpecBinding>) {
    NoDup(Ids(bs)) && forall b :: b in bs ==> NormalBinding(b)
  }

  /** The bindings and the bound specs name the same SPUs. */
  ghost predicate SameSpus(bs: seq<SpecBinding>, specs: seq<string>) {
    Elems(Ids(bs)) == Elems(specs)
  }

  ghost predicate NormalNorm(n: NormExecution) {
    n.specsBound != [] && FilledList(n.specsBound) && n.state in LIFECYCLE_STATES
  }

  ghost predicate NormalTrip(t: TripBinding) {
    Trimmed(t.inspector) && Trimmed(t.supervisor)
  }

  ghost predicate NormalRuntime(r: Runtime) {
    Trimmed(r.activeForm) && Trimmed(r.lastInput) && r.pendingAction in PENDING_ACTIONS
  }

  ghost predicate Normal(c: Container) {
    && Filled(c.vAddress) && Filled(c.slotRef) && Filled(c.lifecycle) && c.containerType == "execution_instance"
    && NormalNorm(c.norm) && NormalTrip(c.trip) && NormalRuntime(c.runtime)
    && c.lifecycleState in LIFECYCLE_STATES
    && FilledList(c.nodes) && FilledOption(c.volumeRef)
    && NormalBindings(c.bindings) && SameSpus(c.bindings, c.norm.specsBound)
  }

  // ---------- reading gives a normal container ----------

  lemma TextOrBlankTrims(v: Json, l: Language)
    ensures TextOrBlank(v, l) == "" || Filled(TextOrBlank(v, l))
  {
    hide Strip;
    StripTrims(Str(v, l));
  }

  lemma OptionalTrims(v: Json, l: Language)
    ensures FilledOption(OptionalText(v, l))
  {
    hide Strip;
    StripTrims(Str(v, l));
  }

  lemma {:induction false} TextsTrim(items: seq<Json>, l: Language)
    ensures FilledList(Texts(items, l))
  {
    hide TextOrBlank;
    if items != [] {
      TextsTrim(items[..|items| - 1], l);
      TextOrBlankTrims(items[|items| - 1], l);
    }
  }

  lemma ReadNormNormal(v: Json, l: Language)
    ensures ReadNorm(v, l).Success? ==> NormalNorm(ReadNorm(v, l).value)
  {
    hide Texts, FilledList, Str, Get;
    if v.JObject? && Get(v.fields, "specs_bound", JList([])).JList? {
      TextsTrim(Get(v.fields, "specs_bound", JList([])).items, l);
    }
  }

  lemma ReadTripNormal(v: Json, l: Language)
    ensures ReadTrip(v, l).Success? ==> NormalTrip(ReadTrip(v, l).value)
  {
    hide Strip, Str, Get, Trimmed;
    if v.JObject? {
      StripTrims(Str(Get(v.fields, "inspector", JText("")), l));
      StripTrims(Str(Get(v.fields, "supervisor", JText("")), l));
    }
  }

  lemma ReadRuntimeNormal(v: Json, l: Language)
    ensures ReadRuntime(v, l).Success? ==> NormalRuntime(ReadRuntime(v, l).value)
  {
    hide Strip, Str, Get, Trimmed;
    if v.JObject? {
      StripTrims(Str(Get(v.fields, "active_form", JText("")), l));
      StripTrims(Str(Get(v.fields, "last_input", JText("")), l));
    }
  }

  lemma ReadBindingNormal(v: Json, l: Language)
    ensures ReadBinding(v, l).Success? ==> NormalBinding(ReadBinding(v, l).value)
  {
    hide TextOrBlank, OptionalText, FilledOption, Filled, Get, Str;
    if v.JObject? {
      TextOrBlankTrims(Get(v.fields, "spuId", JNull), l);
      OptionalTrims(Get(v.fields, "latest_node", JNull), l);
    }
  }

  lemma AddKeepsNormal(bs: seq<SpecBinding>, b: SpecBinding)
    requires NormalBindings(bs) && NormalBinding(b)
    ensures NormalBindings(AddBinding(bs, b))
    ensures Elems(Ids(AddBinding(bs, b))) == Elems(Ids(bs)) + {b.spuId}
  {
    hide NormalBinding;
    if b.spuId !in Ids(bs) {
      assert Ids(bs + [b]) == Ids(bs) + [b.spuId];
    }
  }

  lemma {:induction false} ListedNormal(items: seq<Json>, l: Language)
    ensures Listed(items, l).Success? ==> NormalBindings(Listed(items, l).value)
  {
    hide ReadBinding, NormalBindings, AddBinding;
    if items == [] {
      EmptyIsNormal();
    } else {
      var n := |items| - 1;
      ListedNormal(items[..n], l);
      ReadBindingNormal(items[n], l);
      if Listed(items, l).Success? {
        AddKeepsNormal(Listed(items[..n], l).value, ReadBinding(items[n], l).value);
      }
    }
  }

  lemma EmptyIsNormal()
    ensures NormalBindings([])
  {
  }

  lemma FilledFront(xs: seq<string>)
    requires FilledList(xs) && xs != []
    ensures FilledList(xs[..|xs| - 1]) && Filled(xs[|xs| - 1])
    ensures Elems(xs) == Elems(xs[..|xs| - 1]) + {xs[|xs| - 1]}
  {
    hide Filled;
    assert xs == xs[..|xs| - 1] + [xs[|xs| - 1]];
  }

  lemma DraftIsNormal(s: string)
    requires Filled(s)
    ensures NormalBinding(SpecBinding(s, "DRAFT", None))
  {
  }

  lemma {:induction false} WithBoundMeans(bs: seq<SpecBinding>, specs: seq<string>)
    requires NormalBindings(bs) && FilledList(specs)
    ensures NormalBindings(WithBound(bs, specs))
    ensures Elems(Ids(WithBound(bs, specs))) == Elems(Ids(bs)) + Elems(specs)
  {
    hide NormalBindings, NormalBinding, AddBinding, Ids, FilledList, Filled;
    if specs == [] {
      assert Elems(specs) == {};
    } else {
      hide Elems;
      var n := |specs| - 1;
      FilledFront(specs);
      WithBoundMeans(bs, specs[..n]);
      DraftIsNormal(specs[n]);
      AddKeepsNormal(WithBound(bs, specs[..n]), SpecBinding(specs[n], "DRAFT", None));
    }
  }

  lemma {:induction false} WithSpecsMeans(specs: seq<string>, bs: seq<SpecBinding>)
    ensures Elems(WithSpecs(specs, bs)) == Elems(specs) + Elems(Ids(bs))
    ensures specs <= WithSpecs(specs, bs)
    ensures forall x :: x in WithSpecs(specs, bs) ==> x in specs || x in Ids(bs)
  {
    if bs == [] {
      assert Elems(Ids(bs)) == {};
    } else {
      var n := |bs| - 1;
      WithSpecsMeans(specs, bs[..n]);
      assert Ids(bs) == Ids(bs[..n]) + [bs[n].spuId];
      assert Elems(Ids(bs)) == Elems(Ids(bs[..n])) + {bs[n].spuId};
    }
  }

  /** After reconciling, both lists name the same SPUs and the bindings name each once. */
  lemma ReconciledNormal(listed: seq<SpecBinding>, bound: seq<string>)
    requires NormalBindings(listed) && bound != [] && FilledList(bound)
    ensures var bs := WithBound(listed, bound); var specs := WithSpecs(bound, bs);
            NormalBindings(bs) && SameSpus(bs, specs) && specs != [] && FilledList(specs)
  {
    WithBoundMeans(listed, bound);
    var bs := WithBound(listed, bound);
    WithSpecsMeans(bound, bs);
    IdsFilled(bs);
    hide NormalBindings, WithBound, WithSpecs, Filled, Ids;
    forall x | x in WithSpecs(bound, bs) ensures Filled(x) {
      assert x in bound || x in Ids(bs);
    }
  }

  lemma AddBindingIds(bs: seq<SpecBinding>, b: SpecBinding)
    ensures Ids(AddBinding(bs, b)) == if b.spuId in Ids(bs) then Ids(bs) else Ids(bs) + [b.spuId]
    ensures bs <= AddBinding(bs, b)
  {
    assert Ids(bs + [b]) == Ids(bs) + [b.spuId];
  }

  /** Listed bindings come first, then drafts for the remaining bound specs in their order, each SPU once. */
  lemma {:induction false} BindingOrder(bs: seq<SpecBinding>, specs: seq<string>)
    requires NoDup(Ids(bs))
    ensures Ids(WithBound(bs, specs)) == Dedup(Ids(bs) + specs) && bs <= WithBound(bs, specs)
  {
    hide Dedup, AddBinding, Ids;
    if specs == [] {
      DedupOfNoDup(Ids(bs));
      assert Ids(bs) + specs == Ids(bs);
    } else {
      hide NoDup;
      var n := |specs| - 1;
      BindingOrder(bs, specs[..n]);
      assert Ids(bs) + specs == (Ids(bs) + specs[..n]) + [specs[n]];
      DedupSnoc(Ids(bs) + specs[..n], specs[n]);
      AddBindingIds(WithBound(bs, specs[..n]), SpecBinding(specs[n], "DRAFT", None));
    }
  }

  /** The bound specs stay as given, repetitions included, and the missing SPUs follow in the order of the bindings. */
  lemma {:induction false} SpecsOrder(specs: seq<string>, bs: seq<SpecBinding>)
    requires NoDup(Ids(bs))
    ensures WithSpecs(specs, bs) == specs + Filter(Ids(bs), x => x !in specs)
  {
    hide Filter;
    if bs == [] {
      FilterEmpty(x => x !in specs);
    } else {
      var n := |bs| - 1;
      var id := bs[n].spuId;
      assert Ids(bs) == Ids(bs[..n]) + [id];
      assert Ids(bs[..n]) == Ids(bs)[..n];
      SpecsOrder(specs, bs[..n]);
      FilterSnoc(Ids(bs[..n]), id, x => x !in specs);
      assert id !in Ids(bs)[..n];
    }
  }

  lemma FilterEmpty(keep: string -> bool)
    ensures Filter([], keep) == []
  {
  }

  lemma IdsFilled(bs: seq<SpecBinding>)
    requires NormalBindings(bs)
    ensures FilledList(Ids(bs))
  {
    forall x | x in Ids(bs) ensures Filled(x) {
      var i :| 0 <= i < |bs| && Ids(bs)[i] == x;
      assert bs[i] in bs;
    }
  }

  lemma ReadHeadNormal(m: map<string, Json>, l: Language)
    ensures ReadHead(m, l).Success? ==>
              var h := ReadHead(m, l).value;
              h.containerType == "execution_instance" && h.state in LIFECYCLE_STATES && FilledList(h.nodes)
                  && FilledOption(h.volumeRef)
  {
    hide Strip, Str, Get, Texts, OptionalText, FilledList, FilledOption;
    var nodes := Get(m, "nodes", JList([]));
    TextsTrim(if nodes.JList? then nodes.items else [], l);
    OptionalTrims(Get(m, "volume_ref", JNull), l);
  }

  lemma ReadSpecsNormal(m: map<string, Json>, l: Language)
    ensures ReadSpecs(m, l).Success? ==>
              var r := ReadSpecs(m, l).value;
              NormalNorm(r.0) && NormalBindings(r.1) && SameSpus(r.1, r.0.specsBound)
  {
    hide Get, ReadNorm, Listed, WithBound, WithSpecs, NormalBindings, SameSpus, FilledList;
    ReadNormNormal(Get(m, "norm_execution", JObject(map[])), l);
    var raw := Get(m, "spec_bindings", JList([]));
    var items := if raw.JList? then raw.items else [];
    ListedNormal(items, l);
    if ReadSpecs(m, l).Success? {
      ReconciledNormal(Listed(items, l).value, ReadNorm(Get(m, "norm_execution", JObject(map[])), l).value.specsBound);
    }
  }

  /** Every accepted payload gives a normal container. */
  lemma ReadNormal(payload: Json, l: Language)
    ensures FromDict(payload, l).Success? ==> Normal(FromDict(payload, l).value)
  {
    hide ReadHead, ReadSpecs, ReadTrip, ReadRuntime, TextOrBlank, Get, Filled, FilledList, FilledOption, NormalNorm,
         NormalTrip,
         NormalRuntime, NormalBindings, SameSpus;
    if payload.JObject? {
      var m := payload.fields;
      ReadHeadNormal(m, l);
      ReadSpecsNormal(m, l);
      TextOrBlankTrims(Get(m, "v_address", JNull), l);
      TextOrBlankTrims(Get(m, "geo_slot_ref", Get(m, "slot_ref", JNull)), l);
      TextOrBlankTrims(Get(m, "lifecycle", JText("active")), l);
      ReadTripNormal(Get(m, "trip_binding", JObject(map[])), l);
      ReadRuntimeNormal(Get(m, "runtime", JObject(map[])), l);
    }
  }

  // ---------- writing and reading back ----------

  lemma RequiredRoundTrip(s: string, field: string, l: Language)
    requires Filled(s)
    ensures RequiredText(JText(s), field, l) == Success(s)
  {
    StripOfTrimmed(s);
  }

  lemma OptionalRoundTrip(o: Option<string>, l: Language)
    requires FilledOption(o)
    ensures OptionalText(OptionJson(o), l) == o
  {
    if o.Some? {
      StripOfTrimmed(o.value);
    }
  }

  /** The names of states and actions carry no blanks. */
  lemma NamesAreTrimmed(s: string)
    requires s in LIFECYCLE_STATES || s in BINDING_STATES || s in PENDING_ACTIONS
    ensures Strip(s) == s
  {
    hide Strip;
    StripOfTrimmed(s);
  }

  lemma StateRoundTrip(s: string, fallback: string, states: seq<string>, field: string, l: Language)
    requires KeepsCapitals(l) && s in states && (s == "" ==> fallback == "")
    requires states == LIFECYCLE_STATES || states == BINDING_STATES || states == PENDING_ACTIONS
    ensures StateText(JText(s), fallback, states, field, l) == Success(s)
  {
    hide Strip;
    NamesAreTrimmed(s);
  }

  lemma StatesAreNotBlank()
    ensures "" !in LIFECYCLE_STATES && "" !in BINDING_STATES
  {
  }

  lemma {:induction false} TextsRoundTrip(xs: seq<string>, l: Language)
    requires FilledList(xs)
    ensures Texts(TextsJson(xs).items, l) == xs
  {
    hide Strip;
    if xs != [] {
      var n := |xs| - 1;
      assert TextsJson(xs).items[..n] == TextsJson(xs[..n]).items;
      TextsRoundTrip(xs[..n], l);
      assert xs[n] in xs;
      StripOfTrimmed(xs[n]);
      assert xs == xs[..n] + [xs[n]];
    }
  }

  lemma NormFields(n: NormExecution)
    ensures var v := NormJson(n);
            && v.JObject?
            && Get(v.fields, "specs_bound", JList([])) == TextsJson(n.specsBound)
            && Get(v.fields, "current_state", JText("DRAFT")) == JText(n.state)
            && Get(v.fields, "gate_open", JBool(true)) == JBool(n.gateOpen)
  {
    hide TextsJson;
  }

  lemma NormRoundTrip(n: NormExecution, l: Language)
    requires NormalNorm(n) && KeepsCapitals(l)
    ensures ReadNorm(NormJson(n), l) == Success(n)
  {
    hide NormJson, Get, Texts, TextsJson, StateText, FilledList, KeepsCapitals, PENDING_ACTIONS, LIFECYCLE_STATES,
         BINDING_STATES;
    NormFields(n);
    TextsRoundTrip(n.specsBound, l);
    TextsAreList(n.specsBound);
    StatesAreNotBlank();
    StateRoundTrip(n.state, "DRAFT", LIFECYCLE_STATES, "norm_execution.current_state", l);
  }

  lemma TripRoundTrip(t: TripBinding, l: Language)
    requires NormalTrip(t)
    ensures ReadTrip(TripJson(t), l) == Success(t)
  {
    hide Strip, Trimmed;
    StripOfTrimmed(t.inspector);
    StripOfTrimmed(t.supervisor);
  }

  lemma RuntimeFields(r: Runtime)
    ensures var v := RuntimeJson(r);
            && v.JObject?
            && Get(v.fields, "pending_action", JText("")) == JText(r.pendingAction)
            && Get(v.fields, "active_form", JText("")) == JText(r.activeForm)
            && Get(v.fields, "last_input", JText("")) == JText(r.lastInput)
  {
  }

  lemma RuntimeRoundTrip(r: Runtime, l: Language)
    requires NormalRuntime(r) && KeepsCapitals(l)
    ensures ReadRuntime(RuntimeJson(r), l) == Success(r)
  {
    hide Strip, Trimmed, StateText, KeepsCapitals, RuntimeJson, Get, PENDING_ACTIONS, LIFECYCLE_STATES, BINDING_STATES;
    RuntimeFields(r);
    StateRoundTrip(r.pendingAction, "", PENDING_ACTIONS, "runtime.pending_action", l);
    StripOfTrimmed(r.activeForm);
    StripOfTrimmed(r.lastInput);
  }

  lemma BindingRoundTrip(b: SpecBinding, l: Language)
    requires NormalBinding(b) && KeepsCapitals(l)
    ensures ReadBinding(BindingJson(b), l) == Success(b)
  {
    RequiredRoundTrip(b.spuId, "spec_binding.spuId", l);
    OptionalRoundTrip(b.latestNode, l);
    StatesAreNotBlank();
    StateRoundTrip(b.status, "DRAFT", BINDING_STATES, "spec_binding.status", l);
    hide RequiredText, OptionalText, OptionJson, StateText, KeepsCapitals, Filled, FilledOption;
  }

  lemma {:induction false} ListedRoundTrip(bs: seq<SpecBinding>, l: Language)
    requires NormalBindings(bs) && KeepsCapitals(l)
    ensures Listed(BindingsJson(bs), l) == Success(bs)
  {
    hide ReadBinding, BindingJson, NormalBinding, KeepsCapitals;
    if bs != [] {
      var n := |bs| - 1;
      assert BindingsJson(bs)[..n] == BindingsJson(bs[..n]);
      assert Ids(bs[..n]) == Ids(bs)[..n];
      ListedRoundTrip(bs[..n], l);
      assert bs[n] in bs;
      BindingRoundTrip(bs[n], l);
      assert Ids(bs)[n] !in Ids(bs)[..n];
      assert bs == bs[..n] + [bs[n]];
    }
  }

  lemma {:induction false} NothingToAdd(bs: seq<SpecBinding>, specs: seq<string>)
    requires forall x :: x in specs ==> x in Ids(bs)
    ensures WithBound(bs, specs) == bs
  {
    if specs != [] {
      NothingToAdd(bs, specs[..|specs| - 1]);
    }
  }

  lemma {:induction false} NothingMissing(specs: seq<string>, bs: seq<SpecBinding>)
    requires forall x :: x in Ids(bs) ==> x in specs
    ensures WithSpecs(specs, bs) == specs
  {
    if bs != [] {
      var n := |bs| - 1;
      assert Ids(bs[..n]) == Ids(bs)[..n];
      NothingMissing(specs, bs[..n]);
      assert Ids(bs)[n] in Ids(bs);
    }
  }

  lemma SameSpusNothingToDo(bs: seq<SpecBinding>, specs: seq<string>)
    requires SameSpus(bs, specs)
    ensures WithBound(bs, specs) == bs && WithSpecs(specs, bs) == specs
  {
    assert forall x :: x in specs <==> x in Elems(specs);
    assert forall x :: x in Ids(bs) <==> x in Elems(Ids(bs));
    hide Ids;
    NothingToAdd(bs, specs);
    NothingMissing(specs, bs);
  }

  // What the written form holds under each key.

  lemma WrittenHead(c: Container)
    ensures var m := ToDict(c).fields;
            && Get(m, "container_type", JText("execution_instance")) == JText(c.containerType)
            && Get(m, "is_dynamic", JBool(true)) == JBool(c.dynamic)
            && Get(m, "locked", JBool(false)) == JBool(c.locked)
            && Get(m, "nodes", JList([])) == TextsJson(c.nodes)
            && Get(m, "lifecycle_state", JText("DRAFT")) == JText(c.lifecycleState)
  {
    hide TextsJson, NormJson, TripJson, RuntimeJson, BindingsJson, OptionJson, ContainerId;
  }

  lemma WrittenProof(c: Container)
    ensures var m := ToDict(c).fields;
            && Get(m, "container_proof", JNull) == (if c.proof.Some? then JObject(c.proof.value) else JNull)
            && Get(m, "volume_ref", JNull) == OptionJson(c.volumeRef)
  {
    hide TextsJson, NormJson, TripJson, RuntimeJson, BindingsJson, OptionJson, ContainerId;
  }

  lemma WrittenSpecs(c: Container)
    ensures var m := ToDict(c).fields;
            && Get(m, "norm_execution", JObject(map[])) == NormJson(c.norm)
            && Get(m, "spec_bindings", JList([])) == JList(BindingsJson(c.bindings))
  {
    hide TextsJson, NormJson, TripJson, RuntimeJson, BindingsJson, OptionJson, ContainerId;
  }

  lemma WrittenPlace(c: Container)
    ensures var m := ToDict(c).fields;
            && Get(m, "v_address", JNull) == JText(c.vAddress)
            && Get(m, "geo_slot_ref", Get(m, "slot_ref", JNull)) == JText(c.slotRef)
            && Get(m, "trip_binding", JObject(map[])) == TripJson(c.trip)
            && Get(m, "runtime", JObject(map[])) == RuntimeJson(c.runtime)
            && Get(m, "lifecycle", JText("active")) == JText(c.lifecycle)
  {
    hide TextsJson, NormJson, TripJson, RuntimeJson, BindingsJson, OptionJson, ContainerId;
  }

  lemma TextsAreList(xs: seq<string>)
    ensures TextsJson(xs).JList?
  {
  }

  lemma TypeRoundTrip(l: Language)
    ensures ReadType(JText("execution_instance"), l) == Success("execution_instance")
  {
    hide Strip;
    StripOfTrimmed("execution_instance");
  }

  lemma ProofRoundTrip(proof: Option<map<string, Json>>)
    ensures ReadProof(if proof.Some? then JObject(proof.value) else JNull) == Success(proof)
  {
  }

  lemma HeadRoundTrip(c: Container, l: Language)
    requires Normal(c) && KeepsCapitals(l)
    ensures ReadHead(ToDict(c).fields, l) ==
            Success(Head(c.containerType, c.dynamic, c.locked, c.nodes, c.lifecycleState, c.proof, c.volumeRef))
  {
    WrittenHead(c);
    WrittenProof(c);
    OptionalRoundTrip(c.volumeRef, l);
    TextsRoundTrip(c.nodes, l);
    TextsAreList(c.nodes);
    StatesAreNotBlank();
    StateRoundTrip(c.lifecycleState, "DRAFT", LIFECYCLE_STATES, "lifecycle_state", l);
    TypeRoundTrip(l);
    ProofRoundTrip(c.proof);
    hide ToDict, Get, ReadType, ReadProof, Strip, TextsJson, Texts, LIFECYCLE_STATES, BINDING_STATES, PENDING_ACTIONS,
         StateText, OptionalText, OptionJson, KeepsCapitals, FilledList, NormalNorm, NormalTrip, NormalRuntime,
         NormalBindings, SameSpus, FilledOption, Filled;
  }

  lemma SpecsRoundTrip(c: Container, l: Language)
    requires Normal(c) && KeepsCapitals(l)
    ensures ReadSpecs(ToDict(c).fields, l) == Success((c.norm, c.bindings))
  {
    WrittenSpecs(c);
    NormRoundTrip(c.norm, l);
    ListedRoundTrip(c.bindings, l);
    SameSpusNothingToDo(c.bindings, c.norm.specsBound);
    hide ToDict, Get, ReadNorm, NormJson, Listed, BindingsJson, WithBound, WithSpecs, KeepsCapitals, NormalTrip,
         NormalRuntime,
         NormalBindings, SameSpus, FilledOption, Filled, NormalNorm;
  }

  /** A container in normal form survives writing and reading unchanged. */
  lemma RoundTrip(c: Container, l: Language)
    requires Normal(c) && KeepsCapitals(l)
    ensures FromDict(ToDict(c), l) == Success(c)
  {
    HeadRoundTrip(c, l);
    SpecsRoundTrip(c, l);
    WrittenPlace(c);
    RequiredRoundTrip(c.vAddress, "v_address", l);
    RequiredRoundTrip(c.slotRef, "geo_slot_ref", l);
    RequiredRoundTrip(c.lifecycle, "lifecycle", l);
    TripRoundTrip(c.trip, l);
    RuntimeRoundTrip(c.runtime, l);
    DictIsObject(c);
    hide ToDict, Get, ReadHead, ReadSpecs, RequiredText, ReadTrip, TripJson, ReadRuntime, RuntimeJson, KeepsCapitals,
         NormalTrip, NormalRuntime,
         NormalBindings, SameSpus, FilledOption, Filled, FilledList, NormalNorm;
  }

  lemma DictIsObject(c: Container)
    ensures ToDict(c).JObject?
  {
  }

  /**
   * Reading is a retraction: whatever payload is accepted, the container read from it is the container read back after
   * writing it down.
   */
  lemma ReadingIsRetraction(payload: Json, l: Language)
    requires KeepsCapitals(l)
    ensures FromDict(payload, l).Success? ==>
              var c := FromDict(payload, l).value;
              Normal(c) && FromDict(ToDict(c), l) == Success(c)
  {
    ReadNormal(payload, l);
    if FromDict(payload, l).Success? {
      RoundTrip(FromDict(payload, l).value, l);
    }
  }

  /** Different normal containers are written differently. */
  lemma WritingIsInjective(c: Container, d: Container, l: Language)
    requires Normal(c) && Normal(d) && KeepsCapitals(l) && ToDict(c) == ToDict(d)
    ensures c == d
  {
    RoundTrip(c, l);
    RoundTrip(d, l);
  }
}
