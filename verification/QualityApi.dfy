/**
 * The objects the quality API keeps in memory and the handlers that update them in place. `View()` is the deep copy a
 * response carries; every method states its effect on it with the functions of `Inspection`.
 */
module QualityApi {
  import opened Lists
  import E = CompactionEngine
  import I = Inspection

  class Execution {
    const spuId: string
    const index: nat
    const required: seq<string>
    var status: I.AttemptStatus
    var inputs: I.Inputs
    var outputs: Option<E.Outputs>
    var gatePassed: bool
    var signedBy: seq<string>
    var pending: seq<string>

    constructor (spuId: string, index: nat)
      ensures View() == I.NewAttempt(spuId, index, map[])
    {
      this.spuId, this.index := spuId, index;
      status, inputs, outputs, gatePassed := I.Draft, map[], None, false;
      required, signedBy, pending := I.REQUIRED_SIGNATURES, [], I.REQUIRED_SIGNATURES;
    }

    function View(): I.Attempt
      reads this
    {
      I.Attempt(spuId, index, status, inputs, outputs, gatePassed, required, signedBy, pending)
    }
  }

  function Views(es: seq<Execution>): (r: seq<I.Attempt>)
    reads es
    ensures |r| == |es| && forall i :: 0 <= i < |es| ==> r[i] == es[i].View()
  {
    seq(|es|, i requires 0 <= i < |es| reads es => es[i].View())
  }

  class ContainerRecord {
    const id: string
    const slotRef: string
    var status: I.ContainerStatus
    var overall: I.OverallStatus
    var spus: seq<Execution>
    var catalog: seq<string>
    var proof: Option<I.Proof>
    var audit: seq<I.AuditRecord>

    /** No execution object is listed twice. */
    ghost predicate Valid()
      reads this
    {
      NoDup(spus)
    }

    function View(): I.Container
      reads this, spus
    {
      I.Container(id, slotRef, status, overall, Views(spus), catalog, proof, audit)
    }

    constructor (id: string, slotRef: string, catalog: seq<string>)
      ensures Valid() && spus == []
      ensures View() == I.EmptyContainer(id, slotRef, catalog)
    {
      this.id, this.slotRef, this.catalog := id, slotRef, catalog;
      status, overall, spus, proof := I.Created, I.OverallPending, [], None;
      audit := [I.ContainerCreated(id)];
    }

    twostate lemma SameView()
      requires unchanged(this) && forall e :: e in spus ==> unchanged(e)
      ensures View() == old(View())
    {
      assert forall e :: e in spus ==> e.View() == old(e.View());
      assert Views(spus) == old(Views(spus));
    }

    method PushAudit(r: I.AuditRecord)
      modifies this`audit
      ensures View() == I.PushAudit(old(View()), r)
    {
      audit := audit + [r];
    }

    method TransitionExecution(e: Execution, ghost k: nat, event: I.Event, to: I.AttemptStatus, actor: Option<string>)
      requires Valid() && k < |spus| && spus[k] == e
      modifies this`audit, e`status
      ensures View() == I.Transition(old(View()), k, event, to, actor)
    {
      var from := e.status;
      e.status := to;
      PushAudit(I.AttemptRecord(id, event, e.spuId, e.index, Some(from), to, actor));
    }

    method CreateAttempt(spuId: string) returns (e: Execution)
      requires Valid()
      modifies this`spus, this`audit
      ensures fresh(e) && spus == old(spus) + [e] && Valid()
      ensures View() == I.CreateAttempt(old(View()), spuId)
    {
      e := new Execution(spuId, I.MaxIndex(Views(spus), spuId) + 1);
      spus := spus + [e];
      PushAudit(I.AttemptRecord(id, I.CreateNode, spuId, e.index, None, I.Draft, None));
    }

    method Recalc()
      modifies this`status, this`overall
      ensures View() == I.Recalc(old(View()))
    {
      hide I.LatestAt, I.Latest, I.Final;
      if status == I.Archived {
        return;
      }
      if spus == [] {
        status, overall := I.Created, I.OverallPending;
        return;
      }
      var attempts := Views(spus);
      var anyFail := exists s | s in catalog ::
        I.Latest(attempts, s).Some? && I.Latest(attempts, s).value.status == I.FinalFail;
      var allPass := forall s | s in catalog ::
        I.Latest(attempts, s).Some? && I.Latest(attempts, s).value.status == I.FinalPass;
      var allFinal := forall s | s in catalog ::
        I.Latest(attempts, s).Some? && I.Final(I.Latest(attempts, s).value.status);
      overall := if anyFail then I.OverallFail else if allPass then I.OverallPass else I.OverallPending;
      status := if allFinal then I.Verified else I.InProgress;
    }

    /** The form is stored on a new attempt, which starts running. */
    method Submit(spuId: string, inputs: I.Inputs) returns (e: Execution)
      requires Valid()
      modifies this`spus, this`audit
      ensures fresh(e) && spus == old(spus) + [e] && Valid()
      ensures View() == I.Submit(old(View()), spuId, inputs)
    {
      hide I.CreateAttempt, I.Transition;
      e := CreateAttempt(spuId);
      ghost var k, created := |old(spus)|, View();
      e.inputs := inputs;
      assert View() == created.(spus := created.spus[k := created.spus[k].(inputs := inputs)]);
      hide View;
      TransitionExecution(e, k, I.SubmitForm, I.Running, None);
    }

    method Calculate(e: Execution, ghost k: nat, outputs: E.Outputs)
      requires Valid() && k < |spus| && spus[k] == e
      modifies this`audit, e`outputs
      ensures View() == I.Calculate(old(View()), k, outputs)
    {
      e.outputs := Some(outputs);
      PushAudit(I.AttemptRecord(id, I.ExecutePath, e.spuId, e.index, Some(e.status), e.status, None));
    }

    method Judge(e: Execution, ghost k: nat, passed: bool)
      requires Valid() && k < |spus| && spus[k] == e
      modifies this`audit, e`gatePassed, e`status
      ensures View() == I.Judge(old(View()), k, passed)
    {
      e.gatePassed := passed;
      assert View() == old(View()).(spus := old(View()).spus[k := old(View()).spus[k].(gatePassed := passed)]);
      TransitionExecution(e, k, I.ExecuteRules, if passed then I.Pass else I.Fail, None);
      TransitionExecution(e, k, I.ExecuteRules, I.Signing, None);
    }

    method RunEngine(e: Execution, ghost k: nat, inputs: I.Inputs) returns (reply: I.Reply)
      requires Valid() && k < |spus| && spus[k] == e && E.InputsOk(inputs)
      modifies this`audit, this`status, this`overall, e`outputs, e`gatePassed, e`status
      ensures Valid() && spus == old(spus)
      ensures (View(), reply) == I.RunEngine(old(View()), k, inputs)
    {
      hide I.Calculate, I.Judge, I.Recalc, View, E.RunPath, E.GatePasses, E.InputsOk;
      var path := E.RunPath(inputs);
      if path.Failure? {
        return I.Error(I.EngineFailed);
      }
      Calculate(e, k, path.value);
      Judge(e, k, E.GatePasses(path.value));
      Recalc();
      return I.Ok;
    }

    method Execute(spuId: string, inputs: I.Inputs) returns (reply: I.Reply)
      requires Valid()
      modifies this
      ensures Valid() && forall e :: e in spus ==> e in old(spus) || fresh(e)
      ensures (View(), reply) == I.Execute(old(View()), spuId, inputs)
    {
      hide I.Submit, I.RunEngine, E.InputsOk;
      if status == I.Archived {
        return I.Error(I.ContainerClosed);
      }
      if spuId == "" {
        return I.Error(I.SpuRequired);
      }
      if spuId !in catalog {
        catalog := catalog + [spuId];
      }
      assert View() == I.GrowCatalog(old(View()), spuId);
      hide I.GrowCatalog, View;
      if !E.InputsOk(inputs) {
        return I.Error(I.BadInputs);
      }
      ghost var k := |spus|;
      var e := Submit(spuId, inputs);
      reply := RunEngine(e, k, inputs);
    }

    method RecordSignature(e: Execution, ghost k: nat, role: string)
      requires Valid() && k < |spus| && spus[k] == e
      modifies this`audit, e`signedBy, e`pending
      ensures View() == I.RecordSignature(old(View()), k, role)
    {
      if role !in e.signedBy {
        e.signedBy := e.signedBy + [role];
      }
      e.pending := I.Pending(e.required, e.signedBy);
      PushAudit(I.AttemptRecord(id, I.Sign, e.spuId, e.index, Some(e.status), e.status, Some(role)));
    }

    method SignSpu(spuId: string, role: string, index: Option<int>) returns (reply: I.Reply)
      requires Valid()
      modifies this`audit, this`status, this`overall, spus
      ensures Valid()
      ensures (View(), reply) == I.SignSpu(old(View()), spuId, role, index)
    {
      if status == I.Archived {
        return I.Error(I.ContainerClosed);
      }
      if spuId == "" || role == "" {
        return I.Error(I.RoleRequired);
      }
      var at := I.AttemptAt(Views(spus), spuId, index);
      if at.None? {
        return I.Error(I.AttemptMissing);
      }
      var e := spus[at.value];
      if e.status != I.Signing && !I.Final(e.status) {
        return I.Error(I.NotSignable);
      }
      if role !in e.required {
        return I.Error(I.RoleUnknown);
      }
      if I.Final(e.status) {
        return I.Ok;
      }
      RecordSignature(e, at.value, role);
      if e.pending == [] {
        TransitionExecution(e, at.value, I.Finalize, if e.gatePassed then I.FinalPass else I.FinalFail, Some(role));
      }
      Recalc();
      return I.Ok;
    }

    method Archive() returns (reply: I.Reply)
      requires Valid()
      modifies this`audit, this`status, this`overall, this`proof
      ensures Valid()
      ensures (View(), reply) == I.Archive(old(View()))
    {
      hide I.Recalc, I.BuildProof;
      if proof.Some? {
        return I.Error(I.AlreadyArchived);
      }
      Recalc();
      if status != I.Verified {
        return I.Error(I.NotVerified);
      }
      PushAudit(I.ContainerArchived(id));
      status := I.Archived;
      var built := I.BuildProof(View());
      if built.Failure? {
        return I.Error(I.NotFinal);
      }
      proof := Some(built.value);
      return I.Ok;
    }
  }

  class Server {
    var containers: map<string, ContainerRecord>

    /** Two containers share no object. */
    ghost predicate Valid()
      reads this, containers.Values
    {
      && (forall id :: id in containers ==> containers[id].Valid())
      && (forall a, b :: a in containers && b in containers && a != b ==> containers[a] != containers[b])
      && (forall a, b, e :: a in containers && b in containers && a != b && e in containers[a].spus ==>
                                 e !in containers[b].spus)
    }

    ghost function Executions(): (r: set<Execution>)
      reads this, containers.Values
      ensures forall id, e :: id in containers && e in containers[id].spus ==> e in r
    {
      assert forall id :: id in containers ==> containers[id] in containers.Values;
      set c, e | c in containers.Values && e in c.spus :: e
    }

    ghost function View(): (r: I.Store)
      reads this, containers.Values, Executions()
      ensures r.Keys == containers.Keys
      ensures forall id :: id in containers ==> r[id] == containers[id].View()
    {
      map id | id in containers :: containers[id].View()
    }

    constructor ()
      ensures Valid() && View() == map[]
    {
      containers := map[];
    }

    /** Objects of other containers were left alone, so only the entry of `id` may look different. */
    twostate lemma OnlyOneChanged(id: string)
      requires id in containers && containers == old(containers)
      requires forall other :: other in containers && other != id ==> unchanged(containers[other])
      requires forall other, e :: other in containers && other != id && e in containers[other].spus ==> unchanged(e)
      ensures View() == old(View())[id := containers[id].View()]
    {
      hide ContainerRecord.View, Views;
      forall other | other in containers && other != id
        ensures containers[other].View() == old(containers[other].View())
      {
        containers[other].SameView();
      }
    }

    /** Executions that one container gained are new objects, so containers still share none. */
    twostate lemma StaysValid(id: string)
      requires id in containers && containers == old(containers) && old(Valid())
      requires containers[id].Valid()
      requires forall e :: e in containers[id].spus ==> e in old(containers[id].spus) || fresh(e)
      requires forall other :: other in containers && other != id ==> unchanged(containers[other])
      ensures Valid()
    {
    }

    /** One more container, made of new objects. */
    twostate lemma OneAdded(id: string, new c: ContainerRecord)
      requires old(Valid()) && id !in old(containers) && containers == old(containers)[id := c]
      requires fresh(c) && c.Valid() && c.spus == []
      requires forall other :: other in old(containers) ==> unchanged(old(containers)[other])
      requires forall other, e :: other in old(containers) && e in old(containers[other].spus) ==> unchanged(e)
      ensures Valid() && View() == old(View())[id := c.View()]
    {
      hide ContainerRecord.View, Views;
      forall other | other in containers && other != id
        ensures containers[other].View() == old(containers[other].View())
      {
        containers[other].SameView();
      }
    }

    method AddContainer(id: string, slotRef: string, catalog: seq<string>)
      requires Valid() && id !in containers
      modifies this
      ensures Valid() && View() == old(View())[id := I.EmptyContainer(id, slotRef, catalog)]
    {
      hide ContainerRecord.View, Views, I.EmptyContainer, View;
      var c := new ContainerRecord(id, slotRef, catalog);
      containers := containers[id := c];
      OneAdded(id, c);
    }

    method CreateContainer(id: string, uuid: string, slotRef: string, spuIds: Option<seq<string>>)
        returns (reply: I.Reply)
      requires Valid()
      modifies this
      ensures Valid()
      ensures (View(), reply) == I.Step(old(View()), I.CreateContainer(id, uuid, slotRef, spuIds))
    {
      hide ContainerRecord.View, Views, I.EmptyContainer, I.InitialCatalog, I.NormalizeContainerId;
      if slotRef == "" {
        return I.Error(I.SlotRequired);
      }
      var cid := I.NormalizeContainerId(id, uuid);
      if cid in containers {
        return I.Error(I.ContainerExists);
      }
      AddContainer(cid, slotRef, I.InitialCatalog(spuIds));
      return I.Ok;
    }

    method ExecuteSpu(id: string, spuId: string, inputs: I.Inputs) returns (reply: I.Reply)
      requires Valid()
      modifies containers.Values
      ensures Valid()
      ensures (View(), reply) == I.Step(old(View()), I.ExecuteSpu(id, spuId, inputs))
    {
      hide I.Execute, ContainerRecord.View, Views;
      if id !in containers {
        return I.Error(I.ContainerMissing);
      }
      reply := containers[id].Execute(spuId, inputs);
      OnlyOneChanged(id);
      StaysValid(id);
    }

    method SignAttempt(id: string, spuId: string, role: string, index: Option<int>) returns (reply: I.Reply)
      requires Valid()
      modifies containers.Values, Executions()
      ensures Valid()
      ensures (View(), reply) == I.Step(old(View()), I.SignAttempt(id, spuId, role, index))
    {
      hide I.SignSpu, ContainerRecord.View, Views;
      if id !in containers {
        return I.Error(I.ContainerMissing);
      }
      reply := containers[id].SignSpu(spuId, role, index);
      OnlyOneChanged(id);
      StaysValid(id);
    }

    method ArchiveContainer(id: string) returns (reply: I.Reply)
      requires Valid()
      modifies containers.Values
      ensures Valid()
      ensures (View(), reply) == I.Step(old(View()), I.ArchiveContainer(id))
    {
      hide I.Archive, ContainerRecord.View, Views;
      if id !in containers {
        return I.Error(I.ContainerMissing);
      }
      reply := containers[id].Archive();
      OnlyOneChanged(id);
      StaysValid(id);
    }

    method GetContainer(id: string) returns (reply: I.Reply)
      requires Valid()
      modifies containers.Values
      ensures Valid()
      ensures (View(), reply) == I.Step(old(View()), I.GetContainer(id))
    {
      hide I.Recalc, ContainerRecord.View, Views;
      if id !in containers {
        return I.Error(I.ContainerMissing);
      }
      containers[id].Recalc();
      OnlyOneChanged(id);
      StaysValid(id);
      return I.Ok;
    }
  }
}
