/**
 * The inspection container protocol as values: what each handler of the quality API does to one container, and what a
 * run of handlers does to the store of containers. `QualityApi` holds the objects the handlers update in place and ties
 * them to these functions.
 */
module Inspection {
  import opened Lists
  import E = CompactionEngine

  datatype AttemptStatus = Draft | Running | Pass | Fail | Signing | FinalPass | FinalFail

  datatype ContainerStatus = Created | InProgress | Verified | Archived

  datatype OverallStatus = OverallPass | OverallFail | OverallPending

  datatype Event = CreateNode | SubmitForm | ExecutePath | ExecuteRules | Sign | Finalize

  /** An audit entry: about the container itself, or about one attempt of one SPU. */
  datatype AuditRecord =
    | ContainerCreated(containerId: string)
    | ContainerArchived(containerId: string)
    | AttemptRecord(containerId: string, event: Event, spuId: string, index: nat,
                    from: Option<AttemptStatus>, to: AttemptStatus, actor: Option<string>)

  type Inputs = E.Inputs

  datatype Attempt = Attempt(spuId: string, index: nat, status: AttemptStatus, inputs: Inputs,
                             outputs: Option<E.Outputs>, gatePassed: bool, required: seq<string>, signedBy: seq<string>,
                                 pending: seq<string>)

  datatype SpecResult = SpecResult(spuId: string, passed: bool, attempts: nat, latestIndex: nat,
                                   outputs: Option<E.Outputs>, gatePassed: bool)

  datatype Proof = Proof(containerId: string, results: seq<SpecResult>, signatures: seq<string>,
                         audit: seq<AuditRecord>)

  datatype Container = Container(id: string, slotRef: string, status: ContainerStatus, overall: OverallStatus,
                                 spus: seq<Attempt>, catalog: seq<string>, proof: Option<Proof>,
                                 audit: seq<AuditRecord>)

  datatype Reason =
    | SlotRequired | ContainerExists | ContainerMissing | ContainerClosed | SpuRequired | BadInputs | EngineFailed
    | RoleRequired | AttemptMissing | NotSignable | RoleUnknown | AlreadyArchived | NotVerified | NotFinal

  datatype Reply = Ok | Error(reason: Reason)

  const REQUIRED_SIGNATURES: seq<string> := ["lab", "supervision"]

  const DEFAULT_SPU_IDS: seq<string> := ["highway.subgrade.compaction.soil@v1", "highway.subgrade.compaction.base@v1"]

  const CONTAINER_PREFIX := "v://space/container/"

  predicate Final(s: AttemptStatus) {
    s == FinalPass || s == FinalFail
  }

  // ---------- look-ups ----------

  /** Position of the attempt of `spuId` with the greatest index, the earliest one on a tie. */
  function LatestAt(spus: seq<Attempt>, spuId: string): (r: Option<nat>)
    ensures r.Some? ==> r.value < |spus| && spus[r.value].spuId == spuId
    ensures r.None? ==> forall a :: a in spus ==> a.spuId != spuId
  {
    if spus == [] then None
    else
      var n := |spus| - 1;
      var best := LatestAt(spus[..n], spuId);
      if spus[n].spuId == spuId && (best.None? || spus[n].index > spus[best.value].index) then Some(n) else best
  }

  /** Position of the first attempt of `spuId` that carries `index`. */
  function FindAt(spus: seq<Attempt>, spuId: string, index: int): (r: Option<nat>)
    ensures r.Some? ==> r.value < |spus| && spus[r.value].spuId == spuId && spus[r.value].index == index
    ensures r.None? ==> forall a :: a in spus ==> a.spuId != spuId || a.index != index
  {
    if spus == [] then None
    else
      var n := |spus| - 1;
      var earlier := FindAt(spus[..n], spuId, index);
      if earlier.Some? then earlier
      else if spus[n].spuId == spuId && spus[n].index == index then Some(n) else None
  }

  /** An index that is absent, or not a positive integer, asks for the latest attempt. */
  function AttemptAt(spus: seq<Attempt>, spuId: string, index: Option<int>): (r: Option<nat>)
    ensures r.Some? ==> r.value < |spus| && spus[r.value].spuId == spuId
  {
    if index.Some? && index.value > 0 then FindAt(spus, spuId, index.value) else LatestAt(spus, spuId)
  }

  function Latest(spus: seq<Attempt>, spuId: string): Option<Attempt> {
    var k := LatestAt(spus, spuId);
    if k.Some? then Some(spus[k.value]) else None
  }

  function Of(spuId: string): Attempt -> bool {
    (a: Attempt) => a.spuId == spuId
  }

  function AttemptCount(spus: seq<Attempt>, spuId: string): nat {
    |Filter(spus, Of(spuId))|
  }

  function MaxIndex(spus: seq<Attempt>, spuId: string): nat {
    if spus == [] then 0
    else
      var n := |spus| - 1;
      var m := MaxIndex(spus[..n], spuId);
      if spus[n].spuId == spuId && spus[n].index > m then spus[n].index else m
  }

  function Pending(required: seq<string>, signedBy: seq<string>): seq<string> {
    Filter(required, r => r !in signedBy)
  }

  // ---------- helpers that change a container ----------

  function PushAudit(c: Container, r: AuditRecord): Container {
    c.(audit := c.audit + [r])
  }

  function Transition(c: Container, k: nat, event: Event, to: AttemptStatus, actor: Option<string>): Container
    requires k < |c.spus|
  {
    var a := c.spus[k];
    PushAudit(c.(spus := c.spus[k := a.(status := to)]),
              AttemptRecord(c.id, event, a.spuId, a.index, Some(a.status), to, actor))
  }

  function Recalc(c: Container): Container {
    if c.status == Archived then c
    else if c.spus == [] then c.(status := Created, overall := OverallPending)
    else
      var anyFail := exists s | s in c.catalog ::
        Latest(c.spus, s).Some? && Latest(c.spus, s).value.status == FinalFail;
      var allPass := forall s | s in c.catalog ::
        Latest(c.spus, s).Some? && Latest(c.spus, s).value.status == FinalPass;
      var allFinal := forall s | s in c.catalog :: Latest(c.spus, s).Some? && Final(Latest(c.spus, s).value.status);
      c.(overall := if anyFail then OverallFail else if allPass then OverallPass else OverallPending,
         status := if allFinal then Verified else InProgress)
  }

  function NewAttempt(spuId: string, index: nat, inputs: Inputs): Attempt {
    Attempt(spuId, index, Draft, inputs, None, false, REQUIRED_SIGNATURES, [], REQUIRED_SIGNATURES)
  }

  function CreateAttempt(c: Container, spuId: string): Container {
    var a := NewAttempt(spuId, MaxIndex(c.spus, spuId) + 1, map[]);
    PushAudit(c.(spus := c.spus + [a]), AttemptRecord(c.id, CreateNode, spuId, a.index, None, Draft, None))
  }

  function SpecResults(c: Container, catalog: seq<string>): Result<seq<SpecResult>, string> {
    if catalog == [] then Success([])
    else
      var n := |catalog| - 1;
      var s := catalog[n];
      var earlier := SpecResults(c, catalog[..n]);
      var latest := Latest(c.spus, s);
      if earlier.Failure? then earlier
      else if latest.None? || !Final(latest.value.status) then Failure(s)
      else
        var a := latest.value;
        Success(earlier.value +
            [SpecResult(s, a.status == FinalPass, AttemptCount(c.spus, s), a.index, a.outputs, a.gatePassed)])
  }

  function LatestSigners(spus: seq<Attempt>, catalog: seq<string>): seq<string> {
    if catalog == [] then []
    else
      var n := |catalog| - 1;
      var latest := Latest(spus, catalog[n]);
      LatestSigners(spus, catalog[..n]) + if latest.Some? then latest.value.signedBy else []
  }

  function BuildProof(c: Container): Result<Proof, string> {
    var results := SpecResults(c, c.catalog);
    if results.Failure? then Failure(results.error)
    else Success(Proof(c.id, results.value, Dedup(LatestSigners(c.spus, c.catalog)), c.audit))
  }

  // ---------- the handlers, on one container ----------

  function GrowCatalog(c: Container, spuId: string): Container {
    if spuId in c.catalog then c else c.(catalog := c.catalog + [spuId])
  }

  /** A new attempt up to the point where the engine is called. */
  function Submit(c: Container, spuId: string, inputs: Inputs): (r: Container)
    ensures |r.spus| == |c.spus| + 1
  {
    var k := |c.spus|;
    var c1 := CreateAttempt(c, spuId);
    Transition(c1.(spus := c1.spus[k := c1.spus[k].(inputs := inputs)]), k, SubmitForm, Running, None)
  }

  /** The calculated outputs are stored and logged. */
  function Calculate(c: Container, k: nat, outputs: E.Outputs): (r: Container)
    requires k < |c.spus|
    ensures |r.spus| == |c.spus|
  {
    var a := c.spus[k].(outputs := Some(outputs));
    PushAudit(c.(spus := c.spus[k := a]),
              AttemptRecord(c.id, ExecutePath, a.spuId, a.index, Some(a.status), a.status, None))
  }

  /** The gate's verdict is stored, then the attempt waits for signatures. */
  function Judge(c: Container, k: nat, passed: bool): (r: Container)
    requires k < |c.spus|
    ensures |r.spus| == |c.spus|
  {
    var c1 := c.(spus := c.spus[k := c.spus[k].(gatePassed := passed)]);
    var c2 := Transition(c1, k, ExecuteRules, if passed then Pass else Fail, None);
    Transition(c2, k, ExecuteRules, Signing, None)
  }

  /** The engine works on the submitted attempt at `k`; where it fails the attempt stays running. */
  function RunEngine(c: Container, k: nat, inputs: Inputs): (Container, Reply)
    requires k < |c.spus| && E.InputsOk(inputs)
  {
    match E.RunPath(inputs)
    case Failure(_) => (c, Error(EngineFailed))
    case Success(outputs) => (Recalc(Judge(Calculate(c, k, outputs), k, E.GatePasses(outputs))), Ok)
  }

  function Execute(c: Container, spuId: string, inputs: Inputs): (Container, Reply) {
    if c.status == Archived then (c, Error(ContainerClosed))
    else if spuId == "" then (c, Error(SpuRequired))
    else
      var grown := GrowCatalog(c, spuId);
      if !E.InputsOk(inputs) then (grown, Error(BadInputs))
      else RunEngine(Submit(grown, spuId, inputs), |c.spus|, inputs)
  }

  /** One role signs the attempt at `k`. */
  function RecordSignature(c: Container, k: nat, role: string): (r: Container)
    requires k < |c.spus|
    ensures |r.spus| == |c.spus|
  {
    var a := c.spus[k];
    var signedBy := if role in a.signedBy then a.signedBy else a.signedBy + [role];
    PushAudit(c.(spus := c.spus[k := a.(signedBy := signedBy, pending := Pending(a.required, signedBy))]),
              AttemptRecord(c.id, Sign, a.spuId, a.index, Some(a.status), a.status, Some(role)))
  }

  /** The last missing signature also finalizes the attempt, with the gate's verdict. */
  function AddSignature(c: Container, k: nat, role: string): (r: Container)
    requires k < |c.spus|
    ensures |r.spus| == |c.spus|
  {
    var signed := RecordSignature(c, k, role);
    if signed.spus[k].pending == []
    then Transition(signed, k, Finalize, if signed.spus[k].gatePassed then FinalPass else FinalFail, Some(role))
    else signed
  }

  function SignSpu(c: Container, spuId: string, role: string, index: Option<int>): (Container, Reply) {
    if c.status == Archived then (c, Error(ContainerClosed))
    else if spuId == "" || role == "" then (c, Error(RoleRequired))
    else
      var at := AttemptAt(c.spus, spuId, index);
      if at.None? then (c, Error(AttemptMissing))
      else
        var a := c.spus[at.value];
        if a.status != Signing && !Final(a.status) then (c, Error(NotSignable))
        else if role !in a.required then (c, Error(RoleUnknown))
        else if Final(a.status) then (c, Ok)
        else (Recalc(AddSignature(c, at.value, role)), Ok)
  }

  function Archive(c: Container): (Container, Reply) {
    if c.proof.Some? then (c, Error(AlreadyArchived))
    else
      var current := Recalc(c);
      if current.status != Verified then (current, Error(NotVerified))
      else
        var closed := PushAudit(current, ContainerArchived(c.id)).(status := Archived);
        var proof := BuildProof(closed);
        if proof.Failure? then (closed, Error(NotFinal))
        else (closed.(proof := Some(proof.value)), Ok)
  }

  // ---------- the store ----------

  type Store = map<string, Container>

  /** One HTTP request; texts arrive trimmed. A body without an SPU list has `spuIds` None. */
  datatype Request =
    | CreateContainer(id: string, uuid: string, slotRef: string, spuIds: Option<seq<string>>)
    | ExecuteSpu(containerId: string, spuId: string, inputs: Inputs)
    | SignAttempt(containerId: string, spuId: string, role: string, index: Option<int>)
    | ArchiveContainer(containerId: string)
    | GetContainer(containerId: string)

  function NormalizeContainerId(id: string, uuid: string): string {
    if id == "" then CONTAINER_PREFIX + uuid
    else if CONTAINER_PREFIX <= id then id
    else CONTAINER_PREFIX + id
  }

  predicate NonBlank(s: string) {
    s != ""
  }

  function InitialCatalog(spuIds: Option<seq<string>>): seq<string> {
    if spuIds.Some? && spuIds.value != [] then Dedup(Filter(spuIds.value, NonBlank)) else DEFAULT_SPU_IDS
  }

  function EmptyContainer(id: string, slotRef: string, catalog: seq<string>): Container {
    Container(id, slotRef, Created, OverallPending, [], catalog, None, [ContainerCreated(id)])
  }

  /** A handler that works on the stored container `id`. */
  function On(store: Store, id: string, handler: Container -> (Container, Reply)): (Store, Reply) {
    if id !in store then (store, Error(ContainerMissing))
    else
      var r := handler(store[id]);
      (store[id := r.0], r.1)
  }

  function Step(store: Store, req: Request): (Store, Reply) {
    match req
    case CreateContainer(id, uuid, slotRef, spuIds) =>
      var cid := NormalizeContainerId(id, uuid);
      if slotRef == "" then (store, Error(SlotRequired))
      else if cid in store then (store, Error(ContainerExists))
      else (store[cid := EmptyContainer(cid, slotRef, InitialCatalog(spuIds))], Ok)
    case ExecuteSpu(id, spuId, inputs) => On(store, id, c => Execute(c, spuId, inputs))
    case SignAttempt(id, spuId, role, index) => On(store, id, c => SignSpu(c, spuId, role, index))
    case ArchiveContainer(id) => On(store, id, c => Archive(c))
    case GetContainer(id) => On(store, id, c => (Recalc(c), Ok))
  }

  /** The store after a list of requests, whatever each of them answered. */
  function Run(store: Store, reqs: seq<Request>): Store
    decreases |reqs|
  {
    if reqs == [] then store else Run(Step(store, reqs[0]).0, reqs[1..])
  }
}
