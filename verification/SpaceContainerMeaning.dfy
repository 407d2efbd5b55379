/**
 * Which payloads are read as a space container, and as which: every field with its default, its fallback and the values
 * it may have.
 */
module SpaceContainerMeaning {
  import opened Lists
  import opened Text
  import opened SpaceContainer
  import opened SpaceContainerLaws

  // ---------- single values ----------

  /** How a value is written as a text. */
  ghost predicate Written(v: Json, l: Language, s: string) {
    match v
    case JNull => s == "None"
    case JBool(flag) => (flag && s == "True") || (!flag && s == "False")
    case JText(text) => s == text
    case _ => s == l.render(v)
  }

  /** Null, false, zero, and empty texts, lists and objects. */
  ghost predicate Empty(v: Json) {
    v == JNull || v == JBool(false) || v == JNumber(0.0) || v == JText("") || v == JList([]) || v == JObject(map[])
  }

  ghost predicate Trims(v: Json, l: Language, s: string) {
    exists w :: Written(v, l, w) && s == Strip(w)
  }

  /** The trimmed text of a value that is not empty. */
  ghost predicate TextOf(v: Json, l: Language, s: string) {
    (Empty(v) && s == "") || (!Empty(v) && Trims(v, l, s))
  }

  ghost predicate Needed(v: Json, l: Language, s: string) {
    s != "" && TextOf(v, l, s)
  }

  ghost predicate Optional(v: Json, l: Language, o: Option<string>) {
    if v == JNull || Trims(v, l, "") then o == None else o.Some? && Trims(v, l, o.value)
  }

  /** A state is given in any case; a blank one means the fallback. */
  ghost predicate State(v: Json, l: Language, fallback: string, states: set<string>, s: string) {
    s in states && exists w :: Trims(v, l, w) && s == if l.upper(w) == "" then fallback else l.upper(w)
  }

  const LIFECYCLE: set<string> := {"DRAFT", "RUNNING", "VALIDATED", "REJECTED", "ARCHIVED"}
  const BINDING: set<string> := {"DRAFT", "RUNNING", "PASS", "FAIL"}
  const ACTIONS: set<string> := {"", "EXECUTE_NODE", "RETEST", "READY_TO_ARCHIVE", "MANUAL_REVIEW", "LOCKED"}

  lemma StrWrites(v: Json, l: Language)
    ensures forall s :: Written(v, l, s) <==> s == Str(v, l)
    ensures forall s :: Trims(v, l, s) <==> s == Strip(Str(v, l))
    ensures Empty(v) <==> !Truthy(v)
  {
    hide Strip;
    assert Written(v, l, Str(v, l));
  }

  lemma TextIs(v: Json, l: Language)
    ensures forall s :: TextOf(v, l, s) <==> s == TextOrBlank(v, l)
  {
    StrWrites(v, l);
    hide Strip, Str, Written, Trims, Empty, Truthy;
  }

  lemma NeededIs(v: Json, field: string, l: Language)
    ensures forall s :: Needed(v, l, s) <==> RequiredText(v, field, l) == Success(s)
  {
    TextIs(v, l);
    hide TextOf, TextOrBlank;
  }

  lemma OptionalIs(v: Json, l: Language)
    ensures forall o :: Optional(v, l, o) <==> o == OptionalText(v, l)
  {
    StrWrites(v, l);
    hide Strip, Str, Written, Trims, Empty, Truthy;
  }

  lemma StateIs(v: Json, l: Language, fallback: string, states: seq<string>, field: string)
    ensures forall s :: State(v, l, fallback, Elems(states), s) <==>
              StateText(v, fallback, states, field, l) == Success(s)
  {
    StrWrites(v, l);
    hide Strip, Str, Written, Trims, Empty, Truthy;
  }

  lemma StatesAre()
    ensures Elems(LIFECYCLE_STATES) == LIFECYCLE && Elems(BINDING_STATES) == BINDING
    ensures Elems(PENDING_ACTIONS) == ACTIONS
  {
  }

  // ---------- lists ----------

  /** Item by item: blank texts are left out. */
  ghost predicate TextsOf(items: seq<Json>, l: Language, texts: seq<string>) {
    if items == [] then texts == []
    else
      var n, m := |items| - 1, |texts| - 1;
      if TextOf(items[n], l, "") then TextsOf(items[..n], l, texts)
      else m >= 0 && TextOf(items[n], l, texts[m]) && TextsOf(items[..n], l, texts[..m])
  }

  lemma {:induction false} TextsAre(items: seq<Json>, l: Language)
    ensures TextsOf(items, l, Texts(items, l))
  {
    if items != [] {
      var n := |items| - 1;
      TextsAre(items[..n], l);
      TextIs(items[n], l);
      hide TextOf, TextOrBlank;
      var front := Texts(items[..n], l);
      assert (front + [TextOrBlank(items[n], l)])[..|front|] == front;
    }
  }

  lemma {:induction false} TextsAreOnly(items: seq<Json>, l: Language, texts: seq<string>)
    requires TextsOf(items, l, texts)
    ensures texts == Texts(items, l)
  {
    if items != [] {
      var n := |items| - 1;
      TextIs(items[n], l);
      assert TextsOf(items, l, texts);
      hide TextOf, TextOrBlank;
      if TextOrBlank(items[n], l) == "" {
        TextsAreOnly(items[..n], l, texts);
      } else {
        TextsAreOnly(items[..n], l, texts[..|texts| - 1]);
        assert texts == texts[..|texts| - 1] + [texts[|texts| - 1]];
      }
    }
  }

  // ---------- bindings ----------

  ghost predicate BindingOf(v: Json, l: Language, b: SpecBinding) {
    && v.JObject?
    && Needed(Get(v.fields, "spuId", JNull), l, b.spuId)
    && State(Get(v.fields, "status", JText("DRAFT")), l, "DRAFT", BINDING, b.status)
    && Optional(Get(v.fields, "latest_node", JNull), l, b.latestNode)
  }

  lemma BindingIs(v: Json, l: Language)
    ensures forall b :: BindingOf(v, l, b) <==> ReadBinding(v, l) == Success(b)
  {
    if v.JObject? {
      NeededIs(Get(v.fields, "spuId", JNull), "spec_binding.spuId", l);
      StateIs(Get(v.fields, "status", JText("DRAFT")), l, "DRAFT", BINDING_STATES, "spec_binding.status");
      OptionalIs(Get(v.fields, "latest_node", JNull), l);
      StatesAre();
      hide Get, Needed, State, Optional, RequiredText, StateText, OptionalText, BINDING, BINDING_STATES;
    }
  }

  ghost predicate Binds(bs: seq<SpecBinding>, id: string) {
    exists i :: 0 <= i < |bs| && bs[i].spuId == id
  }

  /** The bindings of a list: of each SPU the first one. */
  ghost predicate ListedOf(items: seq<Json>, l: Language, bs: seq<SpecBinding>) {
    if items == [] then bs == []
    else
      var n := |items| - 1;
      exists front, b ::
        ListedOf(items[..n], l, front) && BindingOf(items[n], l, b) &&
        bs == if Binds(front, b.spuId) then front else front + [b]
  }

  lemma AddsNew(bs: seq<SpecBinding>, b: SpecBinding)
    ensures AddBinding(bs, b) == if Binds(bs, b.spuId) then bs else bs + [b]
  {
    if Binds(bs, b.spuId) {
      var i :| 0 <= i < |bs| && bs[i].spuId == b.spuId;
      assert Ids(bs)[i] == b.spuId;
    }
  }

  lemma {:induction false} ListedIs(items: seq<Json>, l: Language, bs: seq<SpecBinding>)
    ensures ListedOf(items, l, bs) <==> Listed(items, l) == Success(bs)
  {
    if items != [] {
      hide ReadBinding, BindingOf, AddBinding, Binds;
      var n := |items| - 1;
      BindingIs(items[n], l);
      forall front ensures ListedOf(items[..n], l, front) <==> Listed(items[..n], l) == Success(front) {
        ListedIs(items[..n], l, front);
      }
      forall front, b ensures AddBinding(front, b) == if Binds(front, b.spuId) then front else front + [b] {
        AddsNew(front, b);
      }
    }
  }

  /** The listed bindings, then a draft for each further bound spec; and every SPU bound. */
  ghost predicate Completed(listed: seq<SpecBinding>, bound: seq<string>, bs: seq<SpecBinding>, specs: seq<string>) {
    && listed <= bs && Ids(bs) == Dedup(Ids(listed) + bound)
    && (forall k :: |listed| <= k < |bs| ==> bs[k].status == "DRAFT" && bs[k].latestNode == None)
    && specs == bound + Filter(Ids(bs), x => x !in bound)
  }

  lemma {:induction false} AddedAreDrafts(listed: seq<SpecBinding>, bound: seq<string>)
    ensures |listed| <= |WithBound(listed, bound)|
    ensures forall k :: |listed| <= k < |WithBound(listed, bound)| ==>
              WithBound(listed, bound)[k].status == "DRAFT" && WithBound(listed, bound)[k].latestNode == None
  {
    hide Ids;
    if bound != [] {
      AddedAreDrafts(listed, bound[..|bound| - 1]);
    }
  }

  lemma SameBindings(listed: seq<SpecBinding>, bs: seq<SpecBinding>, cs: seq<SpecBinding>)
    requires listed <= bs && listed <= cs && Ids(bs) == Ids(cs)
    requires forall k :: |listed| <= k < |bs| ==> bs[k].status == "DRAFT" && bs[k].latestNode == None
    requires forall k :: |listed| <= k < |cs| ==> cs[k].status == "DRAFT" && cs[k].latestNode == None
    ensures bs == cs
  {
    forall k | 0 <= k < |bs| ensures bs[k] == cs[k] {
      assert Ids(bs)[k] == Ids(cs)[k];
      if k < |listed| { assert bs[k] == listed[k] == cs[k]; }
    }
  }

  lemma CompletedIs(listed: seq<SpecBinding>, bound: seq<string>, bs: seq<SpecBinding>, specs: seq<string>)
    requires NoDup(Ids(listed))
    ensures Completed(listed, bound, bs, specs) <==>
            bs == WithBound(listed, bound) && specs == WithSpecs(bound, bs)
  {
    var all := WithBound(listed, bound);
    BindingOrder(listed, bound);
    AddedAreDrafts(listed, bound);
    hide WithBound, WithSpecs, Filter, Dedup;
    if Completed(listed, bound, bs, specs) {
      SameBindings(listed, bs, all);
    }
    SpecsOrder(bound, all);
  }

  lemma ListedOnce(items: seq<Json>, l: Language, bs: seq<SpecBinding>)
    requires Listed(items, l) == Success(bs)
    ensures NoDup(Ids(bs))
  {
    ListedNormal(items, l);
  }

  // ---------- the parts of a container ----------

  ghost predicate NormOf(v: Json, l: Language, norm: NormExecution) {
    && v.JObject?
    && TextsField(Get(v.fields, "specs_bound", JList([])), false, l, norm.specsBound) && norm.specsBound != []
    && State(Get(v.fields, "current_state", JText("DRAFT")), l, "DRAFT", LIFECYCLE, norm.state)
    && Get(v.fields, "gate_open", JBool(true)) == JBool(norm.gateOpen)
  }

  /** The texts of a list field; where it may be null, null has none. */
  ghost predicate TextsField(v: Json, nullable: bool, l: Language, texts: seq<string>) {
    (v.JList? && TextsOf(v.items, l, texts)) || (nullable && v == JNull && texts == [])
  }

  lemma TextsFieldIs(v: Json, nullable: bool, field: string, l: Language, texts: seq<string>)
    ensures TextsField(v, nullable, l, texts) <==>
            Items(v, field, nullable).Success? && texts == Texts(Items(v, field, nullable).value, l)
  {
    if v.JList? {
      TextsAre(v.items, l);
      if TextsOf(v.items, l, texts) {
        TextsAreOnly(v.items, l, texts);
      }
    }
  }

  lemma NormIs(v: Json, l: Language, norm: NormExecution)
    ensures NormOf(v, l, norm) <==> ReadNorm(v, l) == Success(norm)
  {
    hide Get, State, StateText, LIFECYCLE, LIFECYCLE_STATES, Texts, TextsField, Items;
    if v.JObject? {
      var bound := Get(v.fields, "specs_bound", JList([]));
      StateIs(Get(v.fields, "current_state", JText("DRAFT")), l, "DRAFT", LIFECYCLE_STATES,
              "norm_execution.current_state");
      StatesAre();
      TextsFieldIs(bound, false, "norm_execution.specs_bound", l, norm.specsBound);
    }
  }

  /** The listed bindings of a payload. */
  ghost predicate ListedField(v: Json, l: Language, listed: seq<SpecBinding>) {
    (v.JList? && ListedOf(v.items, l, listed)) || (v == JNull && listed == [])
  }

  lemma ListedFieldIs(v: Json, field: string, l: Language, listed: seq<SpecBinding>)
    ensures ListedField(v, l, listed) <==>
            Items(v, field, true).Success? && Listed(Items(v, field, true).value, l) == Success(listed)
  {
    if v.JList? {
      ListedIs(v.items, l, listed);
    }
  }

  /** The bound specs and bindings of a payload, completed from each other. */
  ghost predicate SpecsOf(m: map<string, Json>, l: Language, norm: NormExecution, bs: seq<SpecBinding>) {
    exists read, listed ::
      && NormOf(Get(m, "norm_execution", JObject(map[])), l, read)
      && ListedField(Get(m, "spec_bindings", JList([])), l, listed)
      && norm == read.(specsBound := norm.specsBound) && Completed(listed, read.specsBound, bs, norm.specsBound)
  }

  lemma SpecsAreThese(m: map<string, Json>, l: Language, norm: NormExecution, bs: seq<SpecBinding>)
    requires SpecsOf(m, l, norm, bs)
    ensures ReadSpecs(m, l) == Success((norm, bs))
  {
    var v, listing := Get(m, "norm_execution", JObject(map[])), Get(m, "spec_bindings", JList([]));
    var read, listed :| NormOf(v, l, read) && ListedField(listing, l, listed) &&
      norm == read.(specsBound := norm.specsBound) && Completed(listed, read.specsBound, bs, norm.specsBound);
    NormIs(v, l, read);
    ListedFieldIs(listing, "spec_bindings", l, listed);
    ListedOnce(Items(listing, "spec_bindings", true).value, l, listed);
    CompletedIs(listed, read.specsBound, bs, norm.specsBound);
    hide Get, NormOf, ReadNorm, ListedField, Listed, Completed, WithBound, WithSpecs, Items;
  }

  lemma TheseAreSpecs(m: map<string, Json>, l: Language, norm: NormExecution, bs: seq<SpecBinding>)
    requires ReadSpecs(m, l) == Success((norm, bs))
    ensures SpecsOf(m, l, norm, bs)
  {
    var v, listing := Get(m, "norm_execution", JObject(map[])), Get(m, "spec_bindings", JList([]));
    hide Get, NormOf, ReadNorm, ListedField, Listed, Completed, WithBound, WithSpecs, Items;
    var read := ReadNorm(v, l).value;
    var listed := Listed(Items(listing, "spec_bindings", true).value, l).value;
    NormIs(v, l, read);
    ListedFieldIs(listing, "spec_bindings", l, listed);
    ListedOnce(Items(listing, "spec_bindings", true).value, l, listed);
    CompletedIs(listed, read.specsBound, bs, norm.specsBound);
  }

  ghost predicate TripOf(v: Json, l: Language, trip: TripBinding) {
    && v.JObject?
    && Trims(Get(v.fields, "inspector", JText("")), l, trip.inspector)
    && Trims(Get(v.fields, "supervisor", JText("")), l, trip.supervisor)
  }

  lemma TripIs(v: Json, l: Language, trip: TripBinding)
    ensures TripOf(v, l, trip) <==> ReadTrip(v, l) == Success(trip)
  {
    if v.JObject? {
      StrWrites(Get(v.fields, "inspector", JText("")), l);
      StrWrites(Get(v.fields, "supervisor", JText("")), l);
      hide Get, Trims, Str, Strip, Written, Truthy, Empty;
    }
  }

  ghost predicate RuntimeOf(v: Json, l: Language, r: Runtime) {
    && v.JObject?
    && Trims(Get(v.fields, "active_form", JText("")), l, r.activeForm)
    && Trims(Get(v.fields, "last_input", JText("")), l, r.lastInput)
    && State(Get(v.fields, "pending_action", JText("")), l, "", ACTIONS, r.pendingAction)
  }

  lemma RuntimeIs(v: Json, l: Language, r: Runtime)
    ensures RuntimeOf(v, l, r) <==> ReadRuntime(v, l) == Success(r)
  {
    if v.JObject? {
      StrWrites(Get(v.fields, "active_form", JText("")), l);
      StrWrites(Get(v.fields, "last_input", JText("")), l);
      StateIs(Get(v.fields, "pending_action", JText("")), l, "", PENDING_ACTIONS, "runtime.pending_action");
      StatesAre();
      hide Get, Trims, Str, Strip, Written, Truthy, Empty, State, StateText, ACTIONS, PENDING_ACTIONS;
    }
  }

  /** Type, flags, nodes, state, proof and volume. */
  ghost predicate HeadOf(m: map<string, Json>, l: Language, c: Container) {
    && c.containerType == "execution_instance"
    && (Trims(Get(m, "container_type", JText("execution_instance")), l, "execution_instance") ||
        Trims(Get(m, "container_type", JText("execution_instance")), l, ""))
    && Get(m, "is_dynamic", JBool(true)) == JBool(c.dynamic)
    && Get(m, "locked", JBool(false)) == JBool(c.locked)
    && TextsField(Get(m, "nodes", JList([])), true, l, c.nodes)
    && State(Get(m, "lifecycle_state", JText("DRAFT")), l, "DRAFT", LIFECYCLE, c.lifecycleState)
    && Get(m, "container_proof", JNull) == (if c.proof.Some? then JObject(c.proof.value) else JNull)
    && Optional(Get(m, "volume_ref", JNull), l, c.volumeRef)
  }

  lemma HeadIs(m: map<string, Json>, l: Language, c: Container)
    ensures HeadOf(m, l, c) <==>
            ReadHead(m, l) ==
            Success(Head(c.containerType, c.dynamic, c.locked, c.nodes, c.lifecycleState, c.proof, c.volumeRef))
  {
    StrWrites(Get(m, "container_type", JText("execution_instance")), l);
    TextsFieldIs(Get(m, "nodes", JList([])), true, "nodes", l, c.nodes);
    StateIs(Get(m, "lifecycle_state", JText("DRAFT")), l, "DRAFT", LIFECYCLE_STATES, "lifecycle_state");
    OptionalIs(Get(m, "volume_ref", JNull), l);
    StatesAre();
    hide Get, Trims, Str, Strip, Written, Truthy, Empty, State, StateText, LIFECYCLE, LIFECYCLE_STATES, Texts,
         TextsField, Items, Optional, OptionalText;
  }

  // ---------- the whole payload ----------

  /** The payload says the container `c`. */
  ghost predicate Says(m: map<string, Json>, l: Language, c: Container) {
    && HeadOf(m, l, c) && SpecsOf(m, l, c.norm, c.bindings)
    && Needed(Get(m, "v_address", JNull), l, c.vAddress)
    && Needed(if "geo_slot_ref" in m then m["geo_slot_ref"] else Get(m, "slot_ref", JNull), l, c.slotRef)
    && TripOf(Get(m, "trip_binding", JObject(map[])), l, c.trip)
    && RuntimeOf(Get(m, "runtime", JObject(map[])), l, c.runtime)
    && Needed(Get(m, "lifecycle", JText("active")), l, c.lifecycle)
  }

  lemma PartsOfReading(m: map<string, Json>, l: Language, c: Container)
    ensures FromDict(JObject(m), l) == Success(c) <==>
            && ReadHead(m, l) ==
               Success(Head(c.containerType, c.dynamic, c.locked, c.nodes, c.lifecycleState, c.proof, c.volumeRef))
            && ReadSpecs(m, l) == Success((c.norm, c.bindings))
            && RequiredText(Get(m, "v_address", JNull), "v_address", l) == Success(c.vAddress)
            && RequiredText(Get(m, "geo_slot_ref", Get(m, "slot_ref", JNull)), "geo_slot_ref", l) == Success(c.slotRef)
            && ReadTrip(Get(m, "trip_binding", JObject(map[])), l) == Success(c.trip)
            && ReadRuntime(Get(m, "runtime", JObject(map[])), l) == Success(c.runtime)
            && RequiredText(Get(m, "lifecycle", JText("active")), "lifecycle", l) == Success(c.lifecycle)
  {
    hide ReadHead, ReadSpecs, RequiredText, ReadTrip, ReadRuntime, Get;
  }

  lemma SpecsAre(m: map<string, Json>, l: Language, norm: NormExecution, bs: seq<SpecBinding>)
    ensures SpecsOf(m, l, norm, bs) <==> ReadSpecs(m, l) == Success((norm, bs))
  {
    if SpecsOf(m, l, norm, bs) { SpecsAreThese(m, l, norm, bs); }
    if ReadSpecs(m, l) == Success((norm, bs)) { TheseAreSpecs(m, l, norm, bs); }
    hide SpecsOf, ReadSpecs;
  }

  /** A payload is read as a container exactly if it is an object that says it. */
  lemma ReadsExactly(payload: Json, l: Language, c: Container)
    ensures FromDict(payload, l) == Success(c) <==> payload.JObject? && Says(payload.fields, l, c)
  {
    if payload.JObject? {
      var m := payload.fields;
      PartsOfReading(m, l, c);
      hide FromDict, HeadOf, ReadHead, SpecsOf, ReadSpecs, Needed, RequiredText, TripOf, ReadTrip, RuntimeOf,
           ReadRuntime;
      HeadIs(m, l, c);
      SpecsAre(m, l, c.norm, c.bindings);
      NeededIs(Get(m, "v_address", JNull), "v_address", l);
      NeededIs(Get(m, "geo_slot_ref", Get(m, "slot_ref", JNull)), "geo_slot_ref", l);
      TripIs(Get(m, "trip_binding", JObject(map[])), l, c.trip);
      RuntimeIs(Get(m, "runtime", JObject(map[])), l, c.runtime);
      NeededIs(Get(m, "lifecycle", JText("active")), "lifecycle", l);
    }
  }

  // ---------- refusals ----------

  ghost function When(wrong: bool, e: Error): seq<Error> {
    if wrong then [e] else []
  }

  /** The first complaint is the answer; without one there is a value. */
  ghost predicate Decides<T>(complaints: seq<Error>, r: Result<T, Error>) {
    if complaints == [] then r.Success? else r == Failure(complaints[0])
  }

  /** Whether a reading succeeded, and if not, why. */
  ghost function Outcome<T>(r: Result<T, Error>): Result<(), Error> {
    if r.Success? then Success(()) else Failure(r.error)
  }

  ghost function Then(a: Result<(), Error>, b: Result<(), Error>): Result<(), Error> {
    if a.Failure? then a else b
  }

  lemma DecidesInTurn(x: seq<Error>, a: Result<(), Error>, y: seq<Error>, b: Result<(), Error>)
    requires Decides(x, a) && Decides(y, b)
    ensures Decides(x + y, Then(a, b))
  {
  }

  lemma ThreeInTurn(a: seq<Error>, ra: Result<(), Error>, b: seq<Error>, rb: Result<(), Error>,
                    c: seq<Error>, rc: Result<(), Error>)
    requires Decides(a, ra) && Decides(b, rb) && Decides(c, rc)
    ensures Decides(a + b + c, Then(Then(ra, rb), rc))
  {
    DecidesInTurn(a, ra, b, rb);
    DecidesInTurn(a + b, Then(ra, rb), c, rc);
  }

  lemma SixInTurn(a: seq<Error>, ra: Result<(), Error>, b: seq<Error>, rb: Result<(), Error>,
                  c: seq<Error>, rc: Result<(), Error>, d: seq<Error>, rd: Result<(), Error>,
                  e: seq<Error>, re: Result<(), Error>, f: seq<Error>, rf: Result<(), Error>)
    requires Decides(a, ra) && Decides(b, rb) && Decides(c, rc) && Decides(d, rd) && Decides(e, re) && Decides(f, rf)
    ensures Decides(a + b + c + d + e + f, Then(Then(Then(Then(Then(ra, rb), rc), rd), re), rf))
  {
    hide Decides, Then;
    ThreeInTurn(a, ra, b, rb, c, rc);
    DecidesInTurn(a + b + c, Then(Then(ra, rb), rc), d, rd);
    DecidesInTurn(a + b + c + d, Then(Then(Then(ra, rb), rc), rd), e, re);
    DecidesInTurn(a + b + c + d + e, Then(Then(Then(Then(ra, rb), rc), rd), re), f, rf);
  }

  ghost predicate Stateless(v: Json, l: Language, fallback: string, states: set<string>) {
    forall s :: !State(v, l, fallback, states, s)
  }

  ghost predicate Missing(v: Json, l: Language) {
    TextOf(v, l, "")
  }

  lemma StateDecides(v: Json, l: Language, fallback: string, states: seq<string>, field: string)
    ensures Decides(When(Stateless(v, l, fallback, Elems(states)), Invalid(field)),
                    StateText(v, fallback, states, field, l))
  {
    StateIs(v, l, fallback, states, field);
    var r := StateText(v, fallback, states, field, l);
    assert r.Failure? ==> r.error == Invalid(field);
    hide State, StateText;
    if r.Success? {
      assert State(v, l, fallback, Elems(states), r.value);
    }
  }

  lemma MissingDecides(v: Json, field: string, l: Language)
    ensures Decides(When(Missing(v, l), Required(field)), RequiredText(v, field, l))
  {
    TextIs(v, l);
    hide TextOf, TextOrBlank;
  }

  ghost function HeadComplaints(m: map<string, Json>, l: Language): seq<Error> {
    var given := Get(m, "container_type", JText("execution_instance"));
    When(!Trims(given, l, "") && !Trims(given, l, "execution_instance"), Invalid("container_type")) +
    When(!Get(m, "is_dynamic", JBool(true)).JBool?, Invalid("is_dynamic")) +
    When(!Get(m, "locked", JBool(false)).JBool?, Invalid("locked")) +
    When(!Get(m, "nodes", JList([])).JList? && !Get(m, "nodes", JList([])).JNull?, Invalid("nodes")) +
    When(Stateless(Get(m, "lifecycle_state", JText("DRAFT")), l, "DRAFT", LIFECYCLE), Invalid("lifecycle_state")) +
    When(!Get(m, "container_proof", JNull).JObject? && !Get(m, "container_proof", JNull).JNull?,
         Invalid("container_proof"))
  }

  lemma HeadInTurn(m: map<string, Json>, l: Language)
    ensures Outcome(ReadHead(m, l)) ==
            Then(Then(Then(Then(Then(
              Outcome(ReadType(Get(m, "container_type", JText("execution_instance")), l)),
              Outcome(Flag(Get(m, "is_dynamic", JBool(true)), "is_dynamic"))),
              Outcome(Flag(Get(m, "locked", JBool(false)), "locked"))),
              Outcome(Items(Get(m, "nodes", JList([])), "nodes", true))),
              Outcome(StateText(Get(m, "lifecycle_state", JText("DRAFT")), "DRAFT", LIFECYCLE_STATES,
                                "lifecycle_state", l))),
              Outcome(ReadProof(Get(m, "container_proof", JNull))))
  {
    hide ReadType, Flag, Items, StateText, ReadProof, Get, Texts, OptionalText, LIFECYCLE_STATES;
  }

  lemma TypeDecides(given: Json, l: Language)
    ensures Decides(When(!Trims(given, l, "") && !Trims(given, l, "execution_instance"), Invalid("container_type")),
                    Outcome(ReadType(given, l)))
  {
    StrWrites(given, l);
    hide Trims, Str, Strip, Written, Truthy, Empty;
  }

  lemma HeadDecides(m: map<string, Json>, l: Language)
    ensures Decides(HeadComplaints(m, l), ReadHead(m, l))
  {
    var given := Get(m, "container_type", JText("execution_instance"));
    var state := Get(m, "lifecycle_state", JText("DRAFT"));
    var nodes, proof := Get(m, "nodes", JList([])), Get(m, "container_proof", JNull);
    var dynamic, locked := Get(m, "is_dynamic", JBool(true)), Get(m, "locked", JBool(false));
    HeadInTurn(m, l);
    TypeDecides(given, l);
    StateDecides(state, l, "DRAFT", LIFECYCLE_STATES, "lifecycle_state");
    StatesAre();
    ProofDecides(proof);
    hide Get, Trims, Stateless, StateText, LIFECYCLE, LIFECYCLE_STATES, ReadHead, ReadType, ReadProof, Then;
    SixInTurn(When(!Trims(given, l, "") && !Trims(given, l, "execution_instance"), Invalid("container_type")),
              Outcome(ReadType(given, l)),
              When(!dynamic.JBool?, Invalid("is_dynamic")), Outcome(Flag(dynamic, "is_dynamic")),
              When(!locked.JBool?, Invalid("locked")), Outcome(Flag(locked, "locked")),
              When(!nodes.JList? && !nodes.JNull?, Invalid("nodes")), Outcome(Items(nodes, "nodes", true)),
              When(Stateless(state, l, "DRAFT", LIFECYCLE), Invalid("lifecycle_state")),
              Outcome(StateText(state, "DRAFT", LIFECYCLE_STATES, "lifecycle_state", l)),
              When(!proof.JObject? && !proof.JNull?, Invalid("container_proof")), Outcome(ReadProof(proof)));
  }

  lemma ProofDecides(proof: Json)
    ensures Decides(When(!proof.JObject? && !proof.JNull?, Invalid("container_proof")), Outcome(ReadProof(proof)))
  {
  }

  ghost function NormComplaints(v: Json, l: Language): seq<Error> {
    if !v.JObject? then [Invalid("norm_execution")]
    else
      var bound := Get(v.fields, "specs_bound", JList([]));
      When(!bound.JList?, Invalid("norm_execution.specs_bound")) +
      When(bound.JList? && TextsOf(bound.items, l, []), Required("norm_execution.specs_bound")) +
      When(Stateless(Get(v.fields, "current_state", JText("DRAFT")), l, "DRAFT", LIFECYCLE),
           Invalid("norm_execution.current_state")) +
      When(!Get(v.fields, "gate_open", JBool(true)).JBool?, Invalid("norm_execution.gate_open"))
  }

  lemma NormDecides(v: Json, l: Language)
    ensures Decides(NormComplaints(v, l), ReadNorm(v, l))
  {
    if v.JObject? {
      var bound := Get(v.fields, "specs_bound", JList([]));
      if bound.JList? {
        TextsAre(bound.items, l);
        if TextsOf(bound.items, l, []) { TextsAreOnly(bound.items, l, []); }
      }
      StateDecides(Get(v.fields, "current_state", JText("DRAFT")), l, "DRAFT", LIFECYCLE_STATES,
                   "norm_execution.current_state");
      StatesAre();
      hide Get, Stateless, StateText, LIFECYCLE, LIFECYCLE_STATES, Texts, TextsOf;
    }
  }

  ghost function BindingComplaints(v: Json, l: Language): seq<Error> {
    if !v.JObject? then [Invalid("spec_binding")]
    else
      When(Missing(Get(v.fields, "spuId", JNull), l), Required("spec_binding.spuId")) +
      When(Stateless(Get(v.fields, "status", JText("DRAFT")), l, "DRAFT", BINDING), Invalid("spec_binding.status"))
  }

  lemma BindingDecides(v: Json, l: Language)
    ensures Decides(BindingComplaints(v, l), ReadBinding(v, l))
  {
    if v.JObject? {
      MissingDecides(Get(v.fields, "spuId", JNull), "spec_binding.spuId", l);
      StateDecides(Get(v.fields, "status", JText("DRAFT")), l, "DRAFT", BINDING_STATES, "spec_binding.status");
      StatesAre();
      hide Get, Missing, Stateless, StateText, RequiredText, OptionalText, BINDING, BINDING_STATES;
    }
  }

  ghost function ItemComplaints(items: seq<Json>, l: Language): seq<Error> {
    if items == [] then []
    else ItemComplaints(items[..|items| - 1], l) + BindingComplaints(items[|items| - 1], l)
  }

  lemma {:induction false} ListedDecides(items: seq<Json>, l: Language)
    ensures Decides(ItemComplaints(items, l), Listed(items, l))
  {
    hide ReadBinding, BindingComplaints, AddBinding;
    if items != [] {
      var n := |items| - 1;
      ListedDecides(items[..n], l);
      BindingDecides(items[n], l);
    }
  }

  ghost function SpecsComplaints(m: map<string, Json>, l: Language): seq<Error> {
    var listing := Get(m, "spec_bindings", JList([]));
    NormComplaints(Get(m, "norm_execution", JObject(map[])), l) +
    When(!listing.JList? && !listing.JNull?, Invalid("spec_bindings")) +
    if listing.JList? then ItemComplaints(listing.items, l) else []
  }

  lemma SpecsDecide(m: map<string, Json>, l: Language)
    ensures Decides(SpecsComplaints(m, l), ReadSpecs(m, l))
  {
    var listing := Get(m, "spec_bindings", JList([]));
    NormDecides(Get(m, "norm_execution", JObject(map[])), l);
    if listing.JList? {
      ListedDecides(listing.items, l);
    }
    hide Get, NormComplaints, ReadNorm, ItemComplaints, WithBound, WithSpecs, ReadBinding;
  }

  ghost function RuntimeComplaints(v: Json, l: Language): seq<Error> {
    if !v.JObject? then [Invalid("runtime")]
    else
      When(Stateless(Get(v.fields, "pending_action", JText("")), l, "", ACTIONS), Invalid("runtime.pending_action"))
  }

  lemma RuntimeDecides(v: Json, l: Language)
    ensures Decides(RuntimeComplaints(v, l), ReadRuntime(v, l))
  {
    if v.JObject? {
      StateDecides(Get(v.fields, "pending_action", JText("")), l, "", PENDING_ACTIONS, "runtime.pending_action");
      StatesAre();
      hide Get, Stateless, StateText, ACTIONS, PENDING_ACTIONS;
    }
  }

  /** What is wrong with a payload, in the order in which it is read. */
  ghost function Complaints(payload: Json, l: Language): seq<Error> {
    if !payload.JObject? then [Invalid("payload")]
    else
      var m := payload.fields;
      HeadComplaints(m, l) + SpecsComplaints(m, l) +
      When(Missing(Get(m, "v_address", JNull), l), Required("v_address")) +
      When(Missing(if "geo_slot_ref" in m then m["geo_slot_ref"] else Get(m, "slot_ref", JNull), l),
           Required("geo_slot_ref")) +
      When(!Get(m, "trip_binding", JObject(map[])).JObject?, Invalid("trip_binding")) +
      RuntimeComplaints(Get(m, "runtime", JObject(map[])), l) +
      When(Missing(Get(m, "lifecycle", JText("active")), l), Required("lifecycle"))
  }

  /** The answers of the readers one after the other. */
  lemma AnswersInTurn(m: map<string, Json>, l: Language)
    ensures var trip := Fields(Get(m, "trip_binding", JObject(map[])), "trip_binding");
            Outcome(FromDict(JObject(m), l)) ==
            Then(Then(Then(Then(Then(Then(
              Outcome(ReadHead(m, l)), Outcome(ReadSpecs(m, l))),
              Outcome(RequiredText(Get(m, "v_address", JNull), "v_address", l))),
              Outcome(RequiredText(Get(m, "geo_slot_ref", Get(m, "slot_ref", JNull)), "geo_slot_ref", l))),
              Outcome(trip)),
              Outcome(ReadRuntime(Get(m, "runtime", JObject(map[])), l))),
              Outcome(RequiredText(Get(m, "lifecycle", JText("active")), "lifecycle", l)))
  {
    hide ReadHead, ReadSpecs, RequiredText, ReadRuntime, Get, Str, Strip;
  }

  /** A payload is refused exactly if something is wrong with it, for the first thing that is. */
  lemma RefusedForTheFirst(payload: Json, l: Language)
    ensures Decides(Complaints(payload, l), FromDict(payload, l))
  {
    if payload.JObject? {
      var m := payload.fields;
      var slot := Get(m, "geo_slot_ref", Get(m, "slot_ref", JNull));
      assert slot == if "geo_slot_ref" in m then m["geo_slot_ref"] else Get(m, "slot_ref", JNull);
      var address, trip := Get(m, "v_address", JNull), Get(m, "trip_binding", JObject(map[]));
      var runtime, lifecycle := Get(m, "runtime", JObject(map[])), Get(m, "lifecycle", JText("active"));
      AnswersInTurn(m, l);
      HeadDecides(m, l);
      SpecsDecide(m, l);
      MissingDecides(address, "v_address", l);
      MissingDecides(slot, "geo_slot_ref", l);
      RuntimeDecides(runtime, l);
      MissingDecides(lifecycle, "lifecycle", l);
      hide HeadComplaints, ReadHead, SpecsComplaints, ReadSpecs, Missing, RequiredText, RuntimeComplaints, ReadRuntime,
           Get, FromDict, Then;
      SixInTurn(HeadComplaints(m, l), Outcome(ReadHead(m, l)), SpecsComplaints(m, l), Outcome(ReadSpecs(m, l)),
                When(Missing(address, l), Required("v_address")), Outcome(RequiredText(address, "v_address", l)),
                When(Missing(slot, l), Required("geo_slot_ref")), Outcome(RequiredText(slot, "geo_slot_ref", l)),
                When(!trip.JObject?, Invalid("trip_binding")), Outcome(Fields(trip, "trip_binding")),
                RuntimeComplaints(runtime, l), Outcome(ReadRuntime(runtime, l)));
      DecidesInTurn(HeadComplaints(m, l) + SpecsComplaints(m, l) +
                    When(Missing(address, l), Required("v_address")) +
                    When(Missing(slot, l), Required("geo_slot_ref")) +
                    When(!trip.JObject?, Invalid("trip_binding")) + RuntimeComplaints(runtime, l),
                    Then(Then(Then(Then(Then(Outcome(ReadHead(m, l)), Outcome(ReadSpecs(m, l))),
                      Outcome(RequiredText(address, "v_address", l))),
                      Outcome(RequiredText(slot, "geo_slot_ref", l))),
                      Outcome(Fields(trip, "trip_binding"))), Outcome(ReadRuntime(runtime, l))),
                    When(Missing(lifecycle, l), Required("lifecycle")),
                    Outcome(RequiredText(lifecycle, "lifecycle", l)));
    }
  }

  // ---------- the derived id ----------

  lemma TailSnoc(s: string, c: char)
    ensures Tail(s + [c]) == if c == '/' then "" else Tail(s) + [c]
  {
    assert (s + [c])[..|s|] == s;
  }

  lemma NoTail(front: string)
    requires front == "" || front[|front| - 1] == '/'
    ensures Tail(front) == ""
  {
  }

  lemma {:induction false} TailIs(front: string, tail: string)
    requires '/' !in tail && (front == "" || front[|front| - 1] == '/')
    ensures Tail(front + tail) == tail
  {
    hide Tail;
    if tail == "" {
      NoTail(front);
      assert front + tail == front;
    } else {
      var n := |tail| - 1;
      var start, c := tail[..n], tail[n];
      assert tail == start + [c];
      TailIs(front, start);
      TailSnoc(front + start, c);
      assert front + tail == (front + start) + [c];
    }
  }

  /** What is written names the container after the last part of its address. */
  lemma WrittenIdIsTail(c: Container, front: string, tail: string)
    requires Strip(c.vAddress) == front + tail && '/' !in tail && (front == "" || front[|front| - 1] == '/')
    ensures ToDict(c).JObject? && "container_id" in ToDict(c).fields && "slot_ref" in ToDict(c).fields
    ensures ToDict(c).fields["slot_ref"] == JText(c.slotRef)
    ensures ToDict(c).fields["container_id"] ==
            JText(if Strip(tail) == "" then "" else "container-" + Strip(tail))
  {
    TailIs(front, tail);
    hide Strip, Tail;
  }
}
