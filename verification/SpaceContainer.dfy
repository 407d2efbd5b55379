/** Reading a space container from a JSON payload and writing it back. */
module SpaceContainer {
  import opened Lists
  import opened Text

  datatype Json = JNull | JBool(flag: bool) | JNumber(number: real) | JText(text: string)
                | JList(items: seq<Json>) | JObject(fields: map<string, Json>)

  /** How the language renders a value that is neither text nor null, and its upper case. */
  datatype Language = Language(render: Json -> string, upper: string -> string)

  datatype Error = Invalid(field: string) | Required(field: string)

  const LIFECYCLE_STATES: seq<string> := ["DRAFT", "RUNNING", "VALIDATED", "REJECTED", "ARCHIVED"]
  const BINDING_STATES: seq<string> := ["DRAFT", "RUNNING", "PASS", "FAIL"]
  const PENDING_ACTIONS: seq<string> := ["", "EXECUTE_NODE", "RETEST", "READY_TO_ARCHIVE", "MANUAL_REVIEW", "LOCKED"]

  /** Upper case leaves the names of states and actions alone. */
  ghost predicate KeepsCapitals(l: Language) {
    forall s :: s in LIFECYCLE_STATES || s in BINDING_STATES || s in PENDING_ACTIONS ==> l.upper(s) == s
  }

  // ---------- the container ----------

  datatype NormExecution = NormExecution(specsBound: seq<string>, state: string, gateOpen: bool)

  datatype TripBinding = TripBinding(inspector: string, supervisor: string)

  datatype Runtime = Runtime(activeForm: string, lastInput: string, pendingAction: string)

  datatype SpecBinding = SpecBinding(spuId: string, status: string, latestNode: Option<string>)

  datatype Container = Container(vAddress: string, slotRef: string, norm: NormExecution, trip: TripBinding,
                                 runtime: Runtime,
                                 containerType: string, lifecycle: string, lifecycleState: string, locked: bool,
                                 nodes: seq<string>, bindings: seq<SpecBinding>, proof: Option<map<string, Json>>,
                                 volumeRef: Option<string>, dynamic: bool)

  // ---------- reading single values ----------

  /** `str(value)` */
  function Str(v: Json, l: Language): string {
    match v
    case JNull => "None"
    case JBool(flag) => if flag then "True" else "False"
    case JText(text) => text
    case _ => l.render(v)
  }

  predicate Truthy(v: Json) {
    match v
    case JNull => false
    case JBool(flag) => flag
    case JNumber(number) => number != 0.0
    case JText(text) => text != ""
    case JList(items) => items != []
    case JObject(fields) => fields != map[]
  }

  function Get(m: map<string, Json>, key: string, default: Json): Json {
    if key in m then m[key] else default
  }

  /** `str(value or "").strip()` */
  function TextOrBlank(v: Json, l: Language): string {
    if Truthy(v) then Strip(Str(v, l)) else ""
  }

  function RequiredText(v: Json, field: string, l: Language): Result<string, Error> {
    if TextOrBlank(v, l) == "" then Failure(Required(field)) else Success(TextOrBlank(v, l))
  }

  /** A text that counts only if something is left of it. */
  function OptionalText(v: Json, l: Language): Option<string> {
    if v.JNull? || Strip(Str(v, l)) == "" then None else Some(Strip(Str(v, l)))
  }

  function StateText(v: Json, fallback: string, states: seq<string>, field: string, l: Language)
      : Result<string, Error> {
    var upper := l.upper(Strip(Str(v, l)));
    var state := if upper == "" then fallback else upper;
    if state in states then Success(state) else Failure(Invalid(field))
  }

  function Flag(v: Json, field: string): Result<bool, Error> {
    if v.JBool? then Success(v.flag) else Failure(Invalid(field))
  }

  function Items(v: Json, field: string, nullable: bool): Result<seq<Json>, Error> {
    if v.JList? then Success(v.items) else if v.JNull? && nullable then Success([]) else Failure(Invalid(field))
  }

  function Fields(v: Json, field: string): Result<map<string, Json>, Error> {
    if v.JObject? then Success(v.fields) else Failure(Invalid(field))
  }

  /** The non-blank texts of a list. */
  function Texts(items: seq<Json>, l: Language): seq<string> {
    if items == [] then []
    else
      var n := |items| - 1;
      var value := TextOrBlank(items[n], l);
      if value == "" then Texts(items[..n], l) else Texts(items[..n], l) + [value]
  }

  // ---------- reading the parts ----------

  function ReadNorm(v: Json, l: Language): Result<NormExecution, Error> {
    var m :- Fields(v, "norm_execution");
    var items :- Items(Get(m, "specs_bound", JList([])), "norm_execution.specs_bound", false);
    if Texts(items, l) == [] then Failure(Required("norm_execution.specs_bound"))
    else
      var state :- StateText(Get(m, "current_state", JText("DRAFT")), "DRAFT", LIFECYCLE_STATES,
                             "norm_execution.current_state", l);
      var open :- Flag(Get(m, "gate_open", JBool(true)), "norm_execution.gate_open");
      Success(NormExecution(Texts(items, l), state, open))
  }

  function ReadTrip(v: Json, l: Language): Result<TripBinding, Error> {
    var m :- Fields(v, "trip_binding");
    Success(TripBinding(Strip(Str(Get(m, "inspector", JText("")), l)), Strip(Str(Get(m, "supervisor", JText("")), l))))
  }

  function ReadRuntime(v: Json, l: Language): Result<Runtime, Error> {
    var m :- Fields(v, "runtime");
    var action :- StateText(Get(m, "pending_action", JText("")), "", PENDING_ACTIONS, "runtime.pending_action", l);
    Success(Runtime(Strip(Str(Get(m, "active_form", JText("")), l)), Strip(Str(Get(m, "last_input", JText("")), l)),
                    action))
  }

  function ReadBinding(v: Json, l: Language): Result<SpecBinding, Error> {
    var m :- Fields(v, "spec_binding");
    var id :- RequiredText(Get(m, "spuId", JNull), "spec_binding.spuId", l);
    var status :- StateText(Get(m, "status", JText("DRAFT")), "DRAFT", BINDING_STATES, "spec_binding.status", l);
    Success(SpecBinding(id, status, OptionalText(Get(m, "latest_node", JNull), l)))
  }

  // ---------- bindings and bound specs are reconciled ----------

  function Ids(bs: seq<SpecBinding>): (r: seq<string>)
    ensures |r| == |bs| && forall i :: 0 <= i < |bs| ==> r[i] == bs[i].spuId
  {
    seq(|bs|, i requires 0 <= i < |bs| => bs[i].spuId)
  }

  function AddBinding(bs: seq<SpecBinding>, b: SpecBinding): seq<SpecBinding> {
    if b.spuId in Ids(bs) then bs else bs + [b]
  }

  /** The listed bindings, each SPU at its first occurrence. */
  function Listed(items: seq<Json>, l: Language): Result<seq<SpecBinding>, Error> {
    if items == [] then Success([])
    else
      var n := |items| - 1;
      var bs :- Listed(items[..n], l);
      var b :- ReadBinding(items[n], l);
      Success(AddBinding(bs, b))
  }

  /** Bound specs without a binding get a draft one. */
  function WithBound(bs: seq<SpecBinding>, specs: seq<string>): seq<SpecBinding> {
    if specs == [] then bs
    else
      var n := |specs| - 1;
      AddBinding(WithBound(bs, specs[..n]), SpecBinding(specs[n], "DRAFT", None))
  }

  /** Bindings without a bound spec get one. */
  function WithSpecs(specs: seq<string>, bs: seq<SpecBinding>): seq<string> {
    if bs == [] then specs
    else
      var n := |bs| - 1;
      var rest := WithSpecs(specs, bs[..n]);
      if bs[n].spuId in rest then rest else rest + [bs[n].spuId]
  }

  // ---------- reading and writing a container ----------

  datatype Head = Head(containerType: string, dynamic: bool, locked: bool, nodes: seq<string>, state: string,
                       proof: Option<map<string, Json>>, volumeRef: Option<string>)

  function ReadType(v: Json, l: Language): Result<string, Error> {
    var given := Strip(Str(v, l));
    if given == "" || given == "execution_instance" then Success("execution_instance")
    else Failure(Invalid("container_type"))
  }

  function ReadProof(v: Json): Result<Option<map<string, Json>>, Error> {
    match v
    case JNull => Success(None)
    case JObject(fields) => Success(Some(fields))
    case _ => Failure(Invalid("container_proof"))
  }

  function ReadHead(m: map<string, Json>, l: Language): Result<Head, Error> {
    var containerType :- ReadType(Get(m, "container_type", JText("execution_instance")), l);
    var dynamic :- Flag(Get(m, "is_dynamic", JBool(true)), "is_dynamic");
    var locked :- Flag(Get(m, "locked", JBool(false)), "locked");
    var nodes :- Items(Get(m, "nodes", JList([])), "nodes", true);
    var state :- StateText(Get(m, "lifecycle_state", JText("DRAFT")), "DRAFT", LIFECYCLE_STATES, "lifecycle_state", l);
    var proof :- ReadProof(Get(m, "container_proof", JNull));
    Success(Head(containerType, dynamic, locked, Texts(nodes, l), state, proof,
                 OptionalText(Get(m, "volume_ref", JNull), l)))
  }

  function ReadSpecs(m: map<string, Json>, l: Language): Result<(NormExecution, seq<SpecBinding>), Error> {
    var norm :- ReadNorm(Get(m, "norm_execution", JObject(map[])), l);
    var items :- Items(Get(m, "spec_bindings", JList([])), "spec_bindings", true);
    var listed :- Listed(items, l);
    var bindings := WithBound(listed, norm.specsBound);
    Success((norm.(specsBound := WithSpecs(norm.specsBound, bindings)), bindings))
  }

  function FromDict(payload: Json, l: Language): Result<Container, Error> {
    var m :- Fields(payload, "payload");
    var head :- ReadHead(m, l);
    var specs :- ReadSpecs(m, l);
    var address :- RequiredText(Get(m, "v_address", JNull), "v_address", l);
    var slot :- RequiredText(Get(m, "geo_slot_ref", Get(m, "slot_ref", JNull)), "geo_slot_ref", l);
    var trip :- ReadTrip(Get(m, "trip_binding", JObject(map[])), l);
    var runtime :- ReadRuntime(Get(m, "runtime", JObject(map[])), l);
    var lifecycle :- RequiredText(Get(m, "lifecycle", JText("active")), "lifecycle", l);
    Success(Container(address, slot, specs.0, trip, runtime, head.containerType, lifecycle, head.state, head.locked,
                      head.nodes,
                      specs.1, head.proof, head.volumeRef, head.dynamic))
  }

  function OptionJson(o: Option<string>): Json {
    if o.None? then JNull else JText(o.value)
  }

  function TextsJson(xs: seq<string>): Json {
    JList(seq(|xs|, i requires 0 <= i < |xs| => JText(xs[i])))
  }

  function BindingJson(b: SpecBinding): Json {
    JObject(map["spuId" := JText(b.spuId), "status" := JText(b.status), "latest_node" := OptionJson(b.latestNode)])
  }

  function BindingsJson(bs: seq<SpecBinding>): seq<Json> {
    seq(|bs|, i requires 0 <= i < |bs| => BindingJson(bs[i]))
  }

  function NormJson(n: NormExecution): Json {
    JObject(map["specs_bound" := TextsJson(n.specsBound), "current_state" := JText(n.state),
                "gate_open" := JBool(n.gateOpen)])
  }

  function TripJson(t: TripBinding): Json {
    JObject(map["inspector" := JText(t.inspector), "supervisor" := JText(t.supervisor)])
  }

  function RuntimeJson(r: Runtime): Json {
    JObject(map["active_form" := JText(r.activeForm), "last_input" := JText(r.lastInput),
                "pending_action" := JText(r.pendingAction)])
  }

  /** The part of an address after its last slash. */
  function Tail(address: string): string {
    if address == "" || address[|address| - 1] == '/' then ""
    else Tail(address[..|address| - 1]) + [address[|address| - 1]]
  }

  function ContainerId(address: string): string {
    if Strip(Tail(Strip(address))) == "" then "" else "container-" + Strip(Tail(Strip(address)))
  }

  function ToDict(c: Container): Json {
    JObject(map["container_id" := JText(ContainerId(c.vAddress)),
                "v_address" := JText(c.vAddress),
                "container_type" := JText(c.containerType),
                "geo_slot_ref" := JText(c.slotRef),
                "slot_ref" := JText(c.slotRef),
                "norm_execution" := NormJson(c.norm),
                "trip_binding" := TripJson(c.trip),
                "runtime" := RuntimeJson(c.runtime),
                "lifecycle" := JText(c.lifecycle),
                "lifecycle_state" := JText(c.lifecycleState),
                "locked" := JBool(c.locked),
                "nodes" := TextsJson(c.nodes),
                "spec_bindings" := JList(BindingsJson(c.bindings)),
                "container_proof" := if c.proof.Some? then JObject(c.proof.value) else JNull,
                "volume_ref" := OptionJson(c.volumeRef),
                "is_dynamic" := JBool(c.dynamic)])
  }

  // ---------- the loops of the reader ----------

  method CollectTexts(items: seq<Json>, l: Language) returns (r: seq<string>)
    ensures r == Texts(items, l)
  {
    hide TextOrBlank;
    r := [];
    for i := 0 to |items|
      invariant r == Texts(items[..i], l)
    {
      TakeNext(items, i);
      var text := TextOrBlank(items[i], l);
      if text != "" {
        r := r + [text];
      }
    }
    assert items[..|items|] == items;
  }

  method ReadListed(items: seq<Json>, l: Language) returns (r: Result<seq<SpecBinding>, Error>)
    ensures r == Listed(items, l)
  {
    hide ReadBinding;
    var bindings: seq<SpecBinding> := [];
    var seen: set<string> := {};
    for i := 0 to |items|
      invariant Success(bindings) == Listed(items[..i], l)
      invariant seen == Elems(Ids(bindings))
    {
      TakeNext(items, i);
      var b := ReadBinding(items[i], l);
      if b.Failure? {
        ListedFails(items, i + 1, l);
        return Failure(b.error);
      }
      if b.value.spuId in seen {
        continue;
      }
      seen := seen + {b.value.spuId};
      assert Ids(bindings + [b.value]) == Ids(bindings) + [b.value.spuId];
      bindings := bindings + [b.value];
    }
    assert items[..|items|] == items;
    return Success(bindings);
  }

  /** An error in front is the error of the whole list. */
  lemma {:induction false} ListedFails(items: seq<Json>, n: nat, l: Language)
    requires n <= |items| && Listed(items[..n], l).Failure?
    ensures Listed(items, l) == Failure(Listed(items[..n], l).error)
    decreases |items| - n
  {
    hide ReadBinding;
    if n < |items| {
      TakeNext(items, n);
      ListedFails(items, n + 1, l);
    } else {
      assert items[..n] == items;
    }
  }

  /** The two completing loops: draft bindings for bound specs, then bound specs for bindings. */
  method Reconcile(listed: seq<SpecBinding>, bound: seq<string>)
      returns (bindings: seq<SpecBinding>, specs: seq<string>)
    ensures bindings == WithBound(listed, bound) && specs == WithSpecs(bound, bindings)
  {
    bindings := listed;
    var seen := set x | x in Ids(listed);
    for i := 0 to |bound|
      invariant bindings == WithBound(listed, bound[..i])
      invariant seen == Elems(Ids(bindings))
    {
      TakeNext(bound, i);
      if bound[i] in seen {
        continue;
      }
      var b := SpecBinding(bound[i], "DRAFT", None);
      assert Ids(bindings + [b]) == Ids(bindings) + [b.spuId];
      bindings := bindings + [b];
      seen := seen + {bound[i]};
    }
    assert bound[..|bound|] == bound;
    hide WithBound;
    specs := bound;
    for i := 0 to |bindings|
      invariant specs == WithSpecs(bound, bindings[..i])
    {
      TakeNext(bindings, i);
      if bindings[i].spuId !in specs {
        specs := specs + [bindings[i].spuId];
      }
    }
    assert bindings[..|bindings|] == bindings;
  }

  /** The bindings and bound specs of a payload, as the loops build them. */
  method ReadSpecLists(m: map<string, Json>, l: Language) returns (r: Result<(NormExecution, seq<SpecBinding>), Error>)
    ensures r == ReadSpecs(m, l)
  {
    hide ReadNorm, Listed, WithBound, WithSpecs, Get;
    var norm := ReadNorm(Get(m, "norm_execution", JObject(map[])), l);
    if norm.Failure? {
      return Failure(norm.error);
    }
    var items := Items(Get(m, "spec_bindings", JList([])), "spec_bindings", true);
    if items.Failure? {
      return Failure(items.error);
    }
    var listed := ReadListed(items.value, l);
    if listed.Failure? {
      return Failure(listed.error);
    }
    var bindings, specs := Reconcile(listed.value, norm.value.specsBound);
    return Success((norm.value.(specsBound := specs), bindings));
  }
}
