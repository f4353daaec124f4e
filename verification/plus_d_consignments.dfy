/** `PlusDConsignments`: the registry together with a factory of
    consignments. A registered consignor creates a consignment for a
    registered consignee; the factory keeps, per consignor, the list of
    consignments in creation order, and forwards role assignments and
    verification to an instance after checking the named party against the
    registry. The instance itself is the state machine of
    `ConsignmentMachine`, with the consignee as the downstream party, its
    states numbered by their rank from 0. */
module PlusDConsignments {
  import opened Ledger
  import opened Bytes32Codec
  import opened ConsignmentMachine
  import Reg = PlusDRegistration

  /** The state numbers an instance reports. */
  const CONSIGNMENT_CREATED: int := 0
  const CONSIGNEE_ASSIGNED: int := 1
  const VERIFIER_ASSIGNED: int := 2
  const REQUIREMENTS_VERIFIED: int := 3

  /** Where an instance lives: its consignor and its position in that
      consignor's list. It stands for the instance's address. */
  datatype Ref = Ref(consignor: Address, index: nat)

  /** The factory's storage: the registry and the instances per consignor. */
  datatype Factory = Factory(registry: Reg.Registry, instances: map<Address, seq<Consignment>>)

  /** The events of the factory and of the instances it drives. */
  datatype FactoryEvent =
    | RoleRegistered(registered: Reg.Registered)
    | ConsignmentCreated(consignment: Ref)
    | InstanceEvent(consignment: Ref, event: Event)

  /** A committed transaction: the new storage and its one event. */
  datatype Commit = Commit(next: Factory, event: FactoryEvent)

  /** The instances a consignor has created, oldest first. */
  function CreatedBy(f: Factory, consignor: Address): seq<Consignment> {
    if consignor in f.instances then f.instances[consignor] else []
  }

  predicate Exists(f: Factory, ref: Ref) {
    ref.index < |CreatedBy(f, ref.consignor)|
  }

  function Get(f: Factory, ref: Ref): Consignment
    requires Exists(f, ref)
  {
    CreatedBy(f, ref.consignor)[ref.index]
  }

  /** The factory's well-formedness: every instance is a well-formed record
      filed under its own consignor, with 32-character requirements. */
  ghost predicate Valid(f: Factory) {
    forall ref :: Exists(f, ref) ==>
      && ConsignmentMachine.Valid(Get(f, ref))
      && Get(f, ref).consignor == ref.consignor
      && |Get(f, ref).requirements| == WIDTH
  }

  /** The constructor: the deployer owns the registry; no instances. */
  function Deploy(deployer: Address): (f: Factory)
    ensures f.registry.owner == deployer
    ensures forall ref :: !Exists(f, ref)
    ensures forall role, a :: !Reg.IsRegistered(f.registry, role, a)
    ensures Valid(f)
  {
    Factory(Reg.Deploy(deployer), map[])
  }

  /** The accessor `consignments(consignor, index)`: the address of the
      `index`-th instance the consignor created; reverts past the end. */
  function ConsignmentAt(f: Factory, consignor: Address, index: nat): (r: Result<Ref>)
    ensures r.Ok? <==> index < |CreatedBy(f, consignor)|
    ensures r.Ok? ==> Exists(f, r.value) && r.value.consignor == consignor
    ensures r.Ok? ==> r.value.index == index && Get(f, r.value) == CreatedBy(f, consignor)[index]
    ensures r.Revert? ==> r.reason == UnknownInstance
  {
    if index < |CreatedBy(f, consignor)| then Ok(Ref(consignor, index)) else Revert(UnknownInstance)
  }

  /** The registration operations, inherited from the registry; they leave
      the instances alone. */
  function Register(f: Factory, caller: Address, role: Reg.Role, account: Address, number: Bytes32): (r: Result<Commit>)
    ensures r.Ok? <==> caller == f.registry.owner
    ensures r.Revert? ==> r.reason == Unauthorized
    ensures r.Ok? ==>
      && r.value.next.instances == f.instances
      && r.value.next.registry.owner == f.registry.owner
      && Reg.Lookup(r.value.next.registry, role, account) == number
      && r.value.event == RoleRegistered(Reg.Registered(role, account, number))
    ensures r.Ok? ==> forall role', a' :: (role', a') != (role, account) ==>
      Reg.Lookup(r.value.next.registry, role', a') == Reg.Lookup(f.registry, role', a')
  {
    match Reg.Register(f.registry, caller, role, account, number)
    case Revert(e) => Revert(e)
    case Ok(reg) => Ok(Commit(f.(registry := reg.next), RoleRegistered(reg.event)))
  }

  /** Files a new instance at the end of its consignor's list. */
  function Append(f: Factory, c: Consignment): (r: Commit)
    ensures Exists(r.next, Ref(c.consignor, |CreatedBy(f, c.consignor)|))
    ensures Get(r.next, Ref(c.consignor, |CreatedBy(f, c.consignor)|)) == c
    ensures |CreatedBy(r.next, c.consignor)| == |CreatedBy(f, c.consignor)| + 1
    ensures forall ref :: Exists(f, ref) ==> Exists(r.next, ref) && Get(r.next, ref) == Get(f, ref)
    ensures forall ref :: Exists(r.next, ref) && ref != Ref(c.consignor, |CreatedBy(f, c.consignor)|) ==> Exists(f, ref)
    ensures r.next.registry == f.registry
    ensures r.event == ConsignmentCreated(Ref(c.consignor, |CreatedBy(f, c.consignor)|))
  {
    var list := CreatedBy(f, c.consignor);
    Commit(f.(instances := f.instances[c.consignor := list + [c]]), ConsignmentCreated(Ref(c.consignor, |list|)))
  }

  /** `createConsignment(consignee, requirements)`: a registered consignor
      creates an instance for a registered consignee, in state
      CONSIGNEE_ASSIGNED, and the factory emits its address. */
  function CreateConsignment(f: Factory, caller: Address, consignee: Address, requirements: Bytes32): (r: Result<Commit>)
    ensures r.Ok? <==>
      Reg.IsRegistered(f.registry, Reg.ConsignorRole, caller) && Reg.IsRegistered(f.registry, Reg.ConsigneeRole, consignee)
    ensures r.Revert? ==>
      (r.reason == Unauthorized <==> !Reg.IsRegistered(f.registry, Reg.ConsignorRole, caller))
      && (r.reason == Unauthorized || r.reason == InvalidParty)
    ensures r.Ok? ==>
      var ref := Ref(caller, |CreatedBy(f, caller)|);
      && r.value.event == ConsignmentCreated(ref)
      && Exists(r.value.next, ref)
      && Get(r.value.next, ref) == Consignment(caller, consignee, ZERO, requirements, PartyAssigned)
      && ConsignmentAt(r.value.next, caller, ref.index) == Ok(ref)
      && |CreatedBy(r.value.next, caller)| == |CreatedBy(f, caller)| + 1
      && forall ref' :: Exists(r.value.next, ref') && ref' != ref ==> Exists(f, ref')
    ensures r.Ok? ==>
      && r.value.next.registry == f.registry
      && forall ref :: Exists(f, ref) ==> Exists(r.value.next, ref) && Get(r.value.next, ref) == Get(f, ref)
  {
    if !Reg.IsRegistered(f.registry, Reg.ConsignorRole, caller) then Revert(Unauthorized)
    else if !Reg.IsRegistered(f.registry, Reg.ConsigneeRole, consignee) then Revert(InvalidParty)
    else Ok(Append(f, Consignment(caller, consignee, ZERO, requirements, PartyAssigned)))
  }

  /** The consignor-only form of creation: the instance starts in
      CONSIGNMENT_CREATED with no consignee. */
  function CreateUnassigned(f: Factory, caller: Address, requirements: Bytes32): (r: Result<Commit>)
    ensures r.Ok? <==> Reg.IsRegistered(f.registry, Reg.ConsignorRole, caller)
    ensures r.Revert? ==> r.reason == Unauthorized
    ensures r.Ok? ==>
      var ref := Ref(caller, |CreatedBy(f, caller)|);
      && r.value.event == ConsignmentCreated(ref)
      && Exists(r.value.next, ref)
      && Get(r.value.next, ref) == Consignment(caller, ZERO, ZERO, requirements, Created)
      && |CreatedBy(r.value.next, caller)| == |CreatedBy(f, caller)| + 1
      && forall ref' :: Exists(r.value.next, ref') && ref' != ref ==> Exists(f, ref')
    ensures r.Ok? ==>
      && r.value.next.registry == f.registry
      && forall ref :: Exists(f, ref) ==> Exists(r.value.next, ref) && Get(r.value.next, ref) == Get(f, ref)
  {
    if !Reg.IsRegistered(f.registry, Reg.ConsignorRole, caller) then Revert(Unauthorized)
    else Ok(Append(f, Consignment(caller, ZERO, ZERO, requirements, Created)))
  }

  /** True when `next` differs from `f` at most in the instance at `ref`. */
  ghost predicate OnlyChanged(f: Factory, next: Factory, ref: Ref) {
    && next.registry == f.registry
    && (forall ref' :: Exists(next, ref') <==> Exists(f, ref'))
    && (forall ref' :: ref' != ref && Exists(f, ref') ==> Exists(next, ref') && Get(next, ref') == Get(f, ref'))
  }

  /** Replaces the instance at `ref`. */
  function Update(f: Factory, ref: Ref, c: Consignment): (next: Factory)
    requires Exists(f, ref)
    ensures OnlyChanged(f, next, ref)
    ensures Exists(next, ref) && Get(next, ref) == c
  {
    var list := CreatedBy(f, ref.consignor);
    f.(instances := f.instances[ref.consignor := list[ref.index := c]])
  }

  /** Commits or propagates the outcome of an instance transaction. */
  function Forward(f: Factory, ref: Ref, r: Result<Transition>): (out: Result<Commit>)
    requires Exists(f, ref)
    ensures out.Ok? <==> r.Ok?
    ensures out.Revert? ==> out.reason == r.reason
    ensures out.Ok? ==>
      && OnlyChanged(f, out.value.next, ref)
      && Exists(out.value.next, ref)
      && Get(out.value.next, ref) == r.value.next
      && out.value.event == InstanceEvent(ref, r.value.event)
  {
    match r
    case Revert(e) => Revert(e)
    case Ok(t) => Ok(Commit(Update(f, ref, t.next), InstanceEvent(ref, t.event)))
  }

  /** `assignConsignee(consignment, consignee)`: the consignor of the
      instance re-routes it to another registered consignee. */
  function AssignConsignee(f: Factory, caller: Address, ref: Ref, consignee: Address): (r: Result<Commit>)
    ensures r.Ok? <==>
      && Exists(f, ref)
      && Reg.IsRegistered(f.registry, Reg.ConsigneeRole, consignee)
      && caller == Get(f, ref).consignor
    ensures !Exists(f, ref) ==> r == Revert(UnknownInstance)
    ensures Exists(f, ref) && !Reg.IsRegistered(f.registry, Reg.ConsigneeRole, consignee) ==> r == Revert(InvalidParty)
    ensures Exists(f, ref) && Reg.IsRegistered(f.registry, Reg.ConsigneeRole, consignee) && caller != Get(f, ref).consignor ==>
      r == Revert(Unauthorized)
    ensures r.Ok? ==>
      && OnlyChanged(f, r.value.next, ref)
      && Exists(r.value.next, ref)
      && Get(r.value.next, ref) == AssignParty(Get(f, ref), caller, consignee).value.next
      && r.value.event == InstanceEvent(ref, PartyAssignment(consignee))
  {
    if !Exists(f, ref) then Revert(UnknownInstance)
    else if !Reg.IsRegistered(f.registry, Reg.ConsigneeRole, consignee) then Revert(InvalidParty)
    else Forward(f, ref, AssignParty(Get(f, ref), caller, consignee))
  }

  /** `assignVerifier(consignment, verifier)`: the current consignee of the
      instance names a registered verifier. */
  function AssignVerifierVia(f: Factory, caller: Address, ref: Ref, verifier: Address): (r: Result<Commit>)
    ensures r.Ok? <==>
      && Exists(f, ref)
      && Reg.IsRegistered(f.registry, Reg.VerifierRole, verifier)
      && caller == Get(f, ref).party
      && Get(f, ref).state != Created
    ensures !Exists(f, ref) ==> r == Revert(UnknownInstance)
    ensures r.Revert? && Exists(f, ref) && !Reg.IsRegistered(f.registry, Reg.VerifierRole, verifier) ==>
      r.reason == InvalidParty
    ensures Exists(f, ref) && Reg.IsRegistered(f.registry, Reg.VerifierRole, verifier) ==>
      && (Get(f, ref).state == Created ==> r == Revert(InvalidState))
      && (Get(f, ref).state != Created && caller != Get(f, ref).party ==> r == Revert(Unauthorized))
    ensures r.Ok? ==>
      && OnlyChanged(f, r.value.next, ref)
      && Exists(r.value.next, ref)
      && Get(r.value.next, ref) == Get(f, ref).(verifier := verifier, state := VerifierAssigned)
      && r.value.event == InstanceEvent(ref, VerifierAssignment(verifier))
  {
    if !Exists(f, ref) then Revert(UnknownInstance)
    else if !Reg.IsRegistered(f.registry, Reg.VerifierRole, verifier) then Revert(InvalidParty)
    else Forward(f, ref, AssignVerifier(Get(f, ref), caller, verifier))
  }

  /** `verifyRequirements(consignment)`: forwarded as is; the instance
      checks the caller. */
  function VerifyRequirements(f: Factory, caller: Address, ref: Ref): (r: Result<Commit>)
    ensures r.Ok? <==> Exists(f, ref) && caller == Get(f, ref).verifier && Get(f, ref).state == VerifierAssigned
    ensures !Exists(f, ref) ==> r == Revert(UnknownInstance)
    ensures Exists(f, ref) && caller != Get(f, ref).verifier ==> r == Revert(Unauthorized)
    ensures Exists(f, ref) && caller == Get(f, ref).verifier && Get(f, ref).state != VerifierAssigned ==>
      r == Revert(InvalidState)
    ensures r.Ok? ==>
      && OnlyChanged(f, r.value.next, ref)
      && Exists(r.value.next, ref)
      && Get(r.value.next, ref) == Get(f, ref).(state := Verified)
      && r.value.event == InstanceEvent(ref, RequirementsVerification)
  {
    if !Exists(f, ref) then Revert(UnknownInstance)
    else Forward(f, ref, Verify(Get(f, ref), caller))
  }

  /** A transaction sent to the factory. */
  datatype Tx =
    | RegisterTx(caller: Address, role: Reg.Role, account: Address, number: Bytes32)
    | CreateTx(caller: Address, consignee: Address, requirements: Bytes32)
    | CreateUnassignedTx(caller: Address, requirements: Bytes32)
    | AssignConsigneeTx(caller: Address, ref: Ref, consignee: Address)
    | AssignVerifierTx(caller: Address, ref: Ref, verifier: Address)
    | VerifyTx(caller: Address, ref: Ref)

  /** Executes one transaction against the factory. */
  function Execute(f: Factory, tx: Tx): Result<Commit> {
    match tx
    case RegisterTx(caller, role, account, number) => Register(f, caller, role, account, number)
    case CreateTx(caller, consignee, requirements) => CreateConsignment(f, caller, consignee, requirements)
    case CreateUnassignedTx(caller, requirements) => CreateUnassigned(f, caller, requirements)
    case AssignConsigneeTx(caller, ref, consignee) => AssignConsignee(f, caller, ref, consignee)
    case AssignVerifierTx(caller, ref, verifier) => AssignVerifierVia(f, caller, ref, verifier)
    case VerifyTx(caller, ref) => VerifyRequirements(f, caller, ref)
  }

  /** True when `next` still holds every instance of `f`, each with its
      consignor and requirements unchanged: instances are never removed,
      moved or re-labelled. */
  ghost predicate Extends(f: Factory, next: Factory) {
    forall ref :: Exists(f, ref) ==>
      && Exists(next, ref)
      && Get(next, ref).consignor == Get(f, ref).consignor
      && Get(next, ref).requirements == Get(f, ref).requirements
  }

  /** A forwarded instance transaction keeps the factory well formed. */
  lemma ForwardPreservesValid(f: Factory, ref: Ref, r: Result<Transition>, call: Call)
    requires Valid(f) && Exists(f, ref)
    requires r == Step(Get(f, ref), call) && r.Ok?
    ensures Valid(Forward(f, ref, r).value.next)
    ensures Extends(f, Forward(f, ref, r).value.next)
  {
    StepPreservesValid(Get(f, ref), call);
    StepKeepsFixedFields(Get(f, ref), call);
  }

  /** Every committed transaction keeps the factory well formed, keeps
      every existing instance, and touches either the registry or the
      instances, never both. */
  lemma ExecutePreservesValid(f: Factory, tx: Tx)
    requires Valid(f)
    requires Execute(f, tx).Ok?
    ensures Valid(Execute(f, tx).value.next)
    ensures Extends(f, Execute(f, tx).value.next)
    ensures tx.RegisterTx? ==> Execute(f, tx).value.next.instances == f.instances
    ensures !tx.RegisterTx? ==> Execute(f, tx).value.next.registry == f.registry
  {
    match tx
    case RegisterTx(_, _, _, _) =>
    case CreateTx(_, _, _) =>
    case CreateUnassignedTx(_, _) =>
    case AssignConsigneeTx(caller, ref, consignee) =>
      ForwardPreservesValid(f, ref, AssignParty(Get(f, ref), caller, consignee), PartyCall(caller, consignee));
    case AssignVerifierTx(caller, ref, verifier) =>
      ForwardPreservesValid(f, ref, AssignVerifier(Get(f, ref), caller, verifier), VerifierCall(caller, verifier));
    case VerifyTx(caller, ref) =>
      ForwardPreservesValid(f, ref, Verify(Get(f, ref), caller), VerifyCall(caller));
  }

  /** Executes transactions in order; a reverted one changes nothing and
      logs nothing, a committed one logs exactly its event. Only a
      registration touches the registry, and a registration never touches
      the instances. */
  function RunTx(f: Factory, txs: seq<Tx>): (r: (Factory, seq<FactoryEvent>))
    ensures |r.1| <= |txs|
    ensures (forall i :: 0 <= i < |txs| ==> !txs[i].RegisterTx?) ==> r.0.registry == f.registry
    ensures (forall i :: 0 <= i < |txs| ==> txs[i].RegisterTx?) ==> r.0.instances == f.instances
    decreases |txs|
  {
    if |txs| == 0 then (f, [])
    else match Execute(f, txs[0])
      case Revert(_) => RunTx(f, txs[1..])
      case Ok(c) =>
        var rest := RunTx(c.next, txs[1..]);
        (rest.0, [c.event] + rest.1)
  }

  /** From a well-formed factory, any sequence of transactions yields a
      well-formed factory that still holds every earlier instance with its
      consignor and requirements. */
  lemma {:induction false} RunPreservesValid(f: Factory, txs: seq<Tx>)
    requires Valid(f)
    ensures Valid(RunTx(f, txs).0)
    ensures Extends(f, RunTx(f, txs).0)
    decreases |txs|
  {
    if |txs| > 0 {
      match Execute(f, txs[0])
      case Revert(_) =>
        RunPreservesValid(f, txs[1..]);
      case Ok(c) =>
        ExecutePreservesValid(f, txs[0]);
        RunPreservesValid(c.next, txs[1..]);
    }
  }

  /** The requirements of the tests. */
  function Requirements(): Bytes32 {
    NormaliseBytes32("explosive goods").value
  }

  /** The factory of the tests after the owner has registered a consignor
      and a consignee. */
  function WithParties(owner: Address, consignor: Address, consignee: Address): Factory {
    var f := Deploy(owner);
    var f1 := Register(f, owner, Reg.ConsignorRole, consignor, NormaliseBytes32("HRB 27814").value).value.next;
    Register(f1, owner, Reg.ConsigneeRole, consignee, NormaliseBytes32("HRB 28806").value).value.next
  }

  /** Scenario "Consignment creation": creation by a registered consignee,
      or naming a registered consignor as consignee, reverts; creation by
      the consignor for the consignee files the instance at index 0 in
      state CONSIGNEE_ASSIGNED with the padded requirements, and emits one
      event carrying the instance's address. */
  lemma CreationScenario(owner: Address, consignor: Address, consignee: Address)
    requires consignor != consignee
    ensures var f := WithParties(owner, consignor, consignee);
      && CreateConsignment(f, consignee, consignee, Requirements()).Revert?
      && CreateConsignment(f, consignor, consignor, Requirements()).Revert?
      && CreateConsignment(f, consignor, consignee, Requirements()).Ok?
      && var r := CreateConsignment(f, consignor, consignee, Requirements()).value;
      && ConsignmentAt(r.next, consignor, 0) == Ok(Ref(consignor, 0))
      && var c := Get(r.next, Ref(consignor, 0));
      && Rank(c.state) == CONSIGNEE_ASSIGNED
      && c.consignor == consignor
      && c.party == consignee
      && c.requirements == NormaliseBytes32("explosive goods").value
      && r.event == ConsignmentCreated(Ref(consignor, 0))
  {
    var f := WithParties(owner, consignor, consignee);
    PartiesRegistered(owner, consignor, consignee);
    assert CreatedBy(f, consignor) == [];
  }

  /** What the registrations of the tests leave in the registry. */
  lemma PartiesRegistered(owner: Address, consignor: Address, consignee: Address)
    ensures var reg := WithParties(owner, consignor, consignee).registry;
      && Reg.IsRegistered(reg, Reg.ConsignorRole, consignor)
      && Reg.IsRegistered(reg, Reg.ConsigneeRole, consignee)
      && (consignee != consignor ==> !Reg.IsRegistered(reg, Reg.ConsignorRole, consignee))
      && (consignee != consignor ==> !Reg.IsRegistered(reg, Reg.ConsigneeRole, consignor))
      && (forall a :: !Reg.IsRegistered(reg, Reg.VerifierRole, a))
    ensures WithParties(owner, consignor, consignee).instances == map[]
  {
    var n1 := NormaliseBytes32("HRB 27814").value;
    var n2 := NormaliseBytes32("HRB 28806").value;
    assert n1[0] == 'H' != NUL == EMPTY[0];
    assert n2[0] == 'H' != NUL == EMPTY[0];
  }

  /** The factory of the verifier tests: a consignor, a consignee and a
      verifier registered, and one consignment created for the consignee. */
  function WithConsignment(owner: Address, consignor: Address, consignee: Address, verifier: Address): Factory {
    var f := WithParties(owner, consignor, consignee);
    var f1 := Register(f, owner, Reg.VerifierRole, verifier, NormaliseBytes32("HRB 30011").value).value.next;
    var r := CreateConsignment(f1, consignor, consignee, Requirements());
    if r.Ok? then r.value.next else f1
  }

  /** Scenario "Verifier assignment": through the factory, a verifier
      assignment by anyone but the consignee reverts, naming an address
      that is not a registered verifier reverts, and the consignee naming
      the registered verifier sets the instance's verifier. */
  lemma VerifierAssignmentScenario(owner: Address, consignor: Address, consignee: Address, verifier: Address)
    requires consignor != consignee && consignee != verifier
    ensures var f := WithConsignment(owner, consignor, consignee, verifier);
      var ref := Ref(consignor, 0);
      && ConsignmentAt(f, consignor, 0) == Ok(ref)
      && AssignVerifierVia(f, verifier, ref, verifier).Revert?
      && AssignVerifierVia(f, consignee, ref, consignee).Revert?
      && AssignVerifierVia(f, consignee, ref, verifier).Ok?
      && Get(AssignVerifierVia(f, consignee, ref, verifier).value.next, ref).verifier == verifier
  {
    PartiesRegistered(owner, consignor, consignee);
    var f := WithParties(owner, consignor, consignee);
    var number := NormaliseBytes32("HRB 30011").value;
    assert number[0] == 'H' != NUL == EMPTY[0];
    var f1 := Register(f, owner, Reg.VerifierRole, verifier, number).value.next;
    assert CreatedBy(f1, consignor) == [];
  }

  /** The full lifecycle through the factory: the consignor creates a
      consignment for a registered consignee, the consignee names a
      registered verifier, the verifier verifies, and the consignor then
      re-routes the consignment to another registered consignee, which
      rewinds it to CONSIGNEE_ASSIGNED and unassigns the verifier. */
  lemma LifecycleScenario(
    f: Factory, consignor: Address, consignee: Address, verifier: Address, other: Address, requirements: Bytes32)
    requires Reg.IsRegistered(f.registry, Reg.ConsignorRole, consignor)
    requires Reg.IsRegistered(f.registry, Reg.ConsigneeRole, consignee)
    requires Reg.IsRegistered(f.registry, Reg.VerifierRole, verifier)
    requires Reg.IsRegistered(f.registry, Reg.ConsigneeRole, other)
    ensures var ref := Ref(consignor, |CreatedBy(f, consignor)|);
      && CreateConsignment(f, consignor, consignee, requirements).Ok?
      && var f1 := CreateConsignment(f, consignor, consignee, requirements).value.next;
      && Rank(Get(f1, ref).state) == CONSIGNEE_ASSIGNED && Get(f1, ref).party == consignee
      && AssignVerifierVia(f1, consignee, ref, verifier).Ok?
      && var f2 := AssignVerifierVia(f1, consignee, ref, verifier).value.next;
      && Rank(Get(f2, ref).state) == VERIFIER_ASSIGNED && Get(f2, ref).verifier == verifier
      && VerifyRequirements(f2, verifier, ref).Ok?
      && var f3 := VerifyRequirements(f2, verifier, ref).value.next;
      && Rank(Get(f3, ref).state) == REQUIREMENTS_VERIFIED
      && AssignConsignee(f3, consignor, ref, other).Ok?
      && var f4 := AssignConsignee(f3, consignor, ref, other).value.next;
      && Rank(Get(f4, ref).state) == CONSIGNEE_ASSIGNED
      && Get(f4, ref).party == other
      && Get(f4, ref).verifier == ZERO
      && Get(f4, ref).consignor == consignor
  {
  }
}
