/** `ProofOfInsurance`, the earliest form of the state machine: states are
    reported by name, the requirements are stored as given (no padding),
    and only the carrier reassignment is restricted to the consignor. The
    insurer assignment and the verification are accepted from any caller;
    each acts as if the current holder of the role had sent it. */
module ProofOfInsurance {
  import opened Ledger
  import opened ConsignmentMachine

  /** The state names the contract reports. */
  const CARRIER_ASSIGNED: string := "CARRIER_ASSIGNED"
  const INSURER_ASSIGNED: string := "INSURER_ASSIGNED"
  const INSURANCE_VERIFIED: string := "INSURANCE_VERIFIED"

  /** The name the contract reports for a state; `Created` has none. */
  function StateName(s: State): (r: Option<string>)
    ensures r.Some? <==> s != Created
    ensures r.Some? ==> StateOfName(r.value) == Some(s)
  {
    match s
    case Created => None
    case PartyAssigned => Some(CARRIER_ASSIGNED)
    case VerifierAssigned => Some(INSURER_ASSIGNED)
    case Verified => Some(INSURANCE_VERIFIED)
  }

  /** The state a reported name stands for. */
  function StateOfName(n: string): Option<State> {
    if n == CARRIER_ASSIGNED then Some(PartyAssigned)
    else if n == INSURER_ASSIGNED then Some(VerifierAssigned)
    else if n == INSURANCE_VERIFIED then Some(Verified)
    else None
  }

  /** The naming is a bijection between the states the contract can be in
      and the three names. */
  lemma StateNameRoundTrip(s: State, n: string)
    ensures StateName(s).Some? <==> s != Created
    ensures StateName(s) == Some(n) <==> StateOfName(n) == Some(s)
  {
  }

  /** The constructor: the deployer becomes the consignor, the carrier is
      assigned and the requirements are stored verbatim. */
  function Deploy(deployer: Address, carrier: Address, requirements: string): (c: Consignment)
    ensures Valid(c)
    ensures StateName(c.state) == Some(CARRIER_ASSIGNED)
    ensures c.consignor == deployer && c.party == carrier && c.verifier == ZERO
    ensures c.requirements == requirements
  {
    Consignment(deployer, carrier, ZERO, requirements, PartyAssigned)
  }

  /** Assigns the insurer on behalf of whoever calls. */
  function AssignInsurer(c: Consignment, caller: Address, insurer: Address): (r: Result<Transition>)
    ensures r.Ok? <==> c.state != Created
    ensures r.Ok? ==>
      && r.value.next == c.(verifier := insurer, state := VerifierAssigned)
      && r.value.event == VerifierAssignment(insurer)
  {
    AssignVerifier(c, c.party, insurer)
  }

  /** Verifies the insurance on behalf of whoever calls. */
  function VerifyInsurance(c: Consignment, caller: Address): (r: Result<Transition>)
    ensures r.Ok? <==> c.state == VerifierAssigned
    ensures r.Revert? ==> r.reason == InvalidState
    ensures r.Ok? ==> r.value.next == c.(state := Verified) && r.value.event == RequirementsVerification
  {
    Verify(c, c.verifier)
  }

  /** The deployment of the test, with "explosive goods" as requirements. */
  function Deployed(consignor: Address, carrier: Address): Consignment {
    Deploy(consignor, carrier, "explosive goods")
  }

  /** The initial state of the deployed contract. */
  lemma InitScenario(consignor: Address, carrier: Address)
    ensures var c := Deployed(consignor, carrier);
      && StateName(c.state) == Some("CARRIER_ASSIGNED")
      && c.consignor == consignor
      && c.party == carrier
      && c.verifier == ZERO
      && c.requirements == "explosive goods"
  {
  }

  /** A carrier reassignment by someone other than the consignor reverts and
      leaves the carrier in place; by the consignor it replaces the carrier. */
  lemma CarrierReassignmentScenario(consignor: Address, carrier: Address, carrierAlternative: Address)
    requires carrierAlternative != consignor
    ensures var c := Deployed(consignor, carrier);
      && Run(c, [PartyCall(carrierAlternative, carrierAlternative)]).0.party == carrier
      && var next := AssignParty(c, consignor, carrierAlternative).value.next;
      && StateName(next.state) == Some("CARRIER_ASSIGNED")
      && next.party == carrierAlternative
  {
    RevertedCallIsInvisible(Deployed(consignor, carrier), PartyCall(carrierAlternative, carrierAlternative), []);
  }

  /** The contract as the insurer scenarios find it: the consignor has made
      `carrierAlternative` the carrier. */
  function CarrierReassigned(consignor: Address, carrier: Address, carrierAlternative: Address): Consignment {
    AssignParty(Deployed(consignor, carrier), consignor, carrierAlternative).value.next
  }

  /** The insurer is assigned from the consignor's account; from there a
      carrier reassignment returns to CARRIER_ASSIGNED and a verification
      reaches INSURANCE_VERIFIED. */
  lemma InsurerScenario(
    consignor: Address, carrier: Address, insurer: Address, carrierAlternative: Address)
    ensures var c := AssignInsurer(CarrierReassigned(consignor, carrier, carrierAlternative), consignor, insurer).value.next;
      && StateName(c.state) == Some("INSURER_ASSIGNED")
      && c.verifier == insurer
      && var rerouted := AssignParty(c, consignor, carrierAlternative).value.next;
      && StateName(rerouted.state) == Some("CARRIER_ASSIGNED")
      && rerouted.party == carrierAlternative
      && var verified := VerifyInsurance(c, consignor).value.next;
      && StateName(verified.state) == Some("INSURANCE_VERIFIED")
  {
  }
}
