/** `PlusD`, the older registry. Its tables run the other way from the
    later registry: a company registration number maps to the account
    registered under it, one table for consignors and one for carriers.
    Only the owner, fixed at deployment, may write; a number never
    registered reads back as the zero address. */
module PlusD {
  import opened Ledger
  import opened Bytes32Codec

  datatype Role = ConsignorRole | CarrierRole

  /** The registry's storage: the owner and both tables, kept as one map
      keyed by role and registration number. */
  datatype Registry = Registry(owner: Address, entries: map<(Role, Bytes32), Address>)

  /** The read accessors `consignors` and `carriers`. */
  function Lookup(reg: Registry, role: Role, number: Bytes32): (a: Address)
    ensures (role, number) in reg.entries ==> a == reg.entries[(role, number)]
    ensures (role, number) !in reg.entries ==> a == ZERO
  {
    if (role, number) in reg.entries then reg.entries[(role, number)] else ZERO
  }

  /** The constructor: the deployer becomes the owner, all tables empty. */
  function Deploy(deployer: Address): (reg: Registry)
    ensures reg.owner == deployer
    ensures forall role, n :: Lookup(reg, role, n) == ZERO
  {
    Registry(deployer, map[])
  }

  /** `registerConsignor` and `registerCarrier`: the owner records the
      account under a registration number. */
  function Register(reg: Registry, caller: Address, role: Role, account: Address, number: Bytes32): (r: Result<Registry>)
    ensures r.Ok? <==> caller == reg.owner
    ensures r.Revert? ==> r.reason == Unauthorized
    ensures r.Ok? ==> r.value.owner == reg.owner && Lookup(r.value, role, number) == account
    ensures r.Ok? ==> forall role', n' :: (role', n') != (role, number) ==>
      Lookup(r.value, role', n') == Lookup(reg, role', n')
  {
    if caller != reg.owner then Revert(Unauthorized)
    else Ok(reg.(entries := reg.entries[(role, number) := account]))
  }

  /** Because the tables are keyed by number, one account registered under
      two numbers is found under both. */
  lemma KeyedByNumber(reg: Registry, role: Role, account: Address, first: Bytes32, second: Bytes32)
    ensures var once := Register(reg, reg.owner, role, account, first).value;
      var twice := Register(once, reg.owner, role, account, second).value;
      Lookup(twice, role, first) == account && Lookup(twice, role, second) == account
  {
  }

  /** Scenario "INIT": the owner is the deployer. */
  lemma InitScenario(owner: Address)
    ensures Deploy(owner).owner == owner
  {
  }

  /** Scenarios "Register consignor" and "Register carrier": a registration
      by anyone but the owner reverts; by the owner it makes the account
      readable under the number. */
  lemma RegisterScenario(owner: Address, account: Address, role: Role)
    requires account != owner
    ensures var reg := Deploy(owner);
      var number := NormaliseBytes32("27814").value;
      && Register(reg, account, role, account, number).Revert?
      && Lookup(Register(reg, owner, role, account, number).value, role, number) == account
  {
  }
}
