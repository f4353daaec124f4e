/** `PlusDRegistration`: the role registry. For each role it maps an
    account address to the company registration number the owner has
    recorded for it. Only the owner, fixed at deployment, may write; any
    account may read, and an address never registered reads back as the
    all-NUL number. */
module PlusDRegistration {
  import opened Ledger
  import opened Bytes32Codec

  datatype Role = ConsignorRole | ConsigneeRole | VerifierRole

  /** The registry's storage: the owner and one table per role, kept as a
      single map keyed by role and address. */
  datatype Registry = Registry(owner: Address, entries: map<(Role, Address), Bytes32>)

  /** The `<Role>Registered` event: the role, the account and the number. */
  datatype Registered = Registered(role: Role, account: Address, number: Bytes32)

  /** A committed registration: the new registry and its one event. */
  datatype Registration = Registration(next: Registry, event: Registered)

  /** The read accessors `consignors`, `consignees` and `verifiers`. */
  function Lookup(reg: Registry, role: Role, account: Address): (n: Bytes32)
    ensures (role, account) in reg.entries ==> n == reg.entries[(role, account)]
    ensures (role, account) !in reg.entries ==> n == EMPTY
  {
    if (role, account) in reg.entries then reg.entries[(role, account)] else EMPTY
  }

  /** An address counts as registered for a role when its number is not the
      all-NUL value. */
  predicate IsRegistered(reg: Registry, role: Role, account: Address) {
    Lookup(reg, role, account) != EMPTY
  }

  /** The constructor: the deployer becomes the owner and nobody is
      registered. */
  function Deploy(deployer: Address): (reg: Registry)
    ensures reg.owner == deployer
    ensures forall role, a :: !IsRegistered(reg, role, a)
  {
    Registry(deployer, map[])
  }

  /** `registerConsignor`, `registerConsignee` and `registerVerifier`: the
      owner records (or overwrites) the number of an account for a role. */
  function Register(reg: Registry, caller: Address, role: Role, account: Address, number: Bytes32): (r: Result<Registration>)
    ensures r.Ok? <==> caller == reg.owner
    ensures r.Revert? ==> r.reason == Unauthorized
    ensures r.Ok? ==>
      && r.value.next.owner == reg.owner
      && Lookup(r.value.next, role, account) == number
      && r.value.event == Registered(role, account, number)
    ensures r.Ok? ==> forall role', a' :: (role', a') != (role, account) ==>
      Lookup(r.value.next, role', a') == Lookup(reg, role', a')
  {
    if caller != reg.owner then Revert(Unauthorized)
    else Ok(Registration(reg.(entries := reg.entries[(role, account) := number]), Registered(role, account, number)))
  }

  /** Registration is an upsert: registering an account twice for a role
      leaves only the later number. */
  lemma RegisterOverwrites(reg: Registry, role: Role, account: Address, first: Bytes32, second: Bytes32)
    ensures var once := Register(reg, reg.owner, role, account, first).value.next;
      Lookup(Register(once, reg.owner, role, account, second).value.next, role, account) == second
  {
  }

  /** Scenario "Initialise contract": the owner is the deployer. */
  lemma InitScenario(owner: Address)
    ensures Deploy(owner).owner == owner
  {
  }

  /** Scenarios "Register consignor", "Register consignee" and "Register
      verifier": a registration by anyone but the owner reverts; by the
      owner it makes the read accessor return the padded number and emits
      one event carrying the address and the padded number. */
  lemma RegisterScenario(owner: Address, account: Address, role: Role)
    requires account != owner
    ensures var reg := Deploy(owner);
      var number := NormaliseBytes32("HRB 27814").value;
      && Register(reg, account, role, account, number).Revert?
      && var r := Register(reg, owner, role, account, number).value;
      && Lookup(r.next, role, account) == number
      && IsRegistered(r.next, role, account)
      && r.event == Registered(role, account, number)
      && StripNuls(r.event.number) == "HRB 27814"
  {
    StripAfterNormalise("HRB 27814");
  }
}
