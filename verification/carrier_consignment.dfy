/** The carrier/insurer `Consignment` contract: the consignor deploys it
    naming a carrier and 32-character insurance requirements; the carrier
    assigns an insurer; the insurer verifies the insurance. It is the state
    machine of `ConsignmentMachine` with the carrier as the downstream party
    and the insurer as the verifier, starting at `PartyAssigned`, and with
    its states numbered from 0. */
module CarrierConsignment {
  import opened Ledger
  import opened Bytes32Codec
  import opened ConsignmentMachine

  /** The state numbers the contract reports. */
  const CARRIER_ASSIGNED: int := 0
  const INSURER_ASSIGNED: int := 1
  const INSURANCE_VERIFIED: int := 2

  /** The number the contract reports for a state; `Created` has none, the
      contract being born with its carrier assigned. */
  function StateCode(s: State): (r: Option<int>)
    ensures r.Some? <==> s != Created
    ensures r.Some? ==> 0 <= r.value <= 2 && StateOfCode(r.value) == Some(s)
  {
    match s
    case Created => None
    case PartyAssigned => Some(CARRIER_ASSIGNED)
    case VerifierAssigned => Some(INSURER_ASSIGNED)
    case Verified => Some(INSURANCE_VERIFIED)
  }

  /** The state a reported number stands for. */
  function StateOfCode(n: int): Option<State> {
    if n == CARRIER_ASSIGNED then Some(PartyAssigned)
    else if n == INSURER_ASSIGNED then Some(VerifierAssigned)
    else if n == INSURANCE_VERIFIED then Some(Verified)
    else None
  }

  /** The numbering is a bijection between the states the contract can be
      in and the numbers 0 to 2, and it keeps the lifecycle order. */
  lemma StateCodeRoundTrip(s: State, n: int)
    ensures StateCode(s).Some? <==> s != Created
    ensures StateCode(s) == Some(n) <==> StateOfCode(n) == Some(s)
    ensures StateCode(s).Some? ==> StateCode(s).value == Rank(s) - 1
  {
  }

  /** The constructor: the deployer becomes the consignor, the carrier is
      assigned, the insurer is unset and the requirements are stored. */
  function Deploy(deployer: Address, carrier: Address, requirements: Bytes32): (c: Consignment)
    ensures Valid(c)
    ensures StateCode(c.state) == Some(CARRIER_ASSIGNED)
    ensures c.consignor == deployer && c.party == carrier && c.verifier == ZERO
    ensures c.requirements == requirements
  {
    Consignment(deployer, carrier, ZERO, requirements, PartyAssigned)
  }

  /** No sequence of transactions takes a deployed contract back to
      `Created`, so every reachable state has a number. */
  lemma {:induction false} RunNeverReachesCreated(c: Consignment, calls: seq<Call>)
    requires c.state != Created
    ensures Run(c, calls).0.state != Created
    ensures StateCode(Run(c, calls).0.state).Some?
    decreases |calls|
  {
    if |calls| > 0 {
      match Step(c, calls[0])
      case Revert(_) =>
        RunNeverReachesCreated(c, calls[1..]);
      case Ok(t) =>
        StepCommitsIff(c, calls[0]);
        RunNeverReachesCreated(t.next, calls[1..]);
    }
  }

  /** The deployment of the tests, with "explosive goods" as requirements. */
  function Deployed(consignor: Address, carrier: Address): Consignment {
    Deploy(consignor, carrier, NormaliseBytes32("explosive goods").value)
  }

  /** Scenario INIT => CARRIER_ASSIGNED. */
  lemma InitScenario(consignor: Address, carrier: Address)
    ensures var c := Deployed(consignor, carrier);
      && StateCode(c.state) == Some(CARRIER_ASSIGNED)
      && c.consignor == consignor
      && c.party == carrier
      && c.verifier == ZERO
      && |c.requirements| == WIDTH
      && c.requirements[..15] == "explosive goods"
      && (forall i :: 15 <= i < WIDTH ==> c.requirements[i] == NUL)
      && StripNuls(c.requirements) == "explosive goods"
  {
    StripAfterNormalise("explosive goods");
  }

  /** Scenario CARRIER_ASSIGNED => CARRIER_ASSIGNED: only the consignor may
      reassign the carrier. */
  lemma CarrierReassignmentScenario(consignor: Address, carrier: Address, carrierAlternative: Address)
    requires carrierAlternative != consignor
    ensures var c := Deployed(consignor, carrier);
      && AssignParty(c, carrierAlternative, carrierAlternative).Revert?
      && var next := AssignParty(c, consignor, carrierAlternative).value.next;
      && StateCode(next.state) == Some(CARRIER_ASSIGNED)
      && next.party == carrierAlternative
  {
  }

  /** Scenario CARRIER_ASSIGNED => INSURER_ASSIGNED: only the carrier may
      assign the insurer, and the insurer itself may not. */
  lemma InsurerAssignmentScenario(consignor: Address, carrier: Address, insurer: Address)
    requires insurer != carrier
    ensures var c := Deployed(consignor, carrier);
      && AssignVerifier(c, insurer, insurer).Revert?
      && var next := AssignVerifier(c, carrier, insurer).value.next;
      && StateCode(next.state) == Some(INSURER_ASSIGNED)
      && next.verifier == insurer
  {
  }

  /** The contract after the carrier has assigned the insurer. */
  function InsurerAssigned(consignor: Address, carrier: Address, insurer: Address): Consignment {
    AssignVerifier(Deployed(consignor, carrier), carrier, insurer).value.next
  }

  /** Scenario INSURER_ASSIGNED => CARRIER_ASSIGNED. */
  lemma CarrierReassignmentFromInsurerAssignedScenario(
    consignor: Address, carrier: Address, insurer: Address, carrierAlternative: Address)
    requires carrierAlternative != consignor
    ensures var c := InsurerAssigned(consignor, carrier, insurer);
      && StateCode(c.state) == Some(INSURER_ASSIGNED)
      && AssignParty(c, carrierAlternative, carrierAlternative).Revert?
      && var next := AssignParty(c, consignor, carrierAlternative).value.next;
      && StateCode(next.state) == Some(CARRIER_ASSIGNED)
      && next.party == carrierAlternative
  {
  }

  /** Scenario INSURER_ASSIGNED => INSURER_ASSIGNED: the carrier may replace
      the insurer; the current insurer may not. */
  lemma InsurerReplacementScenario(
    consignor: Address, carrier: Address, insurer: Address, insurerAlternative: Address)
    requires insurer != carrier
    ensures var c := InsurerAssigned(consignor, carrier, insurer);
      && AssignVerifier(c, insurer, insurerAlternative).Revert?
      && var next := AssignVerifier(c, carrier, insurerAlternative).value.next;
      && StateCode(next.state) == Some(INSURER_ASSIGNED)
      && next.verifier == insurerAlternative
  {
  }

  /** Scenario INSURER_ASSIGNED => INSURANCE_VERIFIED: only the insurer may
      verify the insurance. */
  lemma VerificationScenario(consignor: Address, carrier: Address, insurer: Address)
    requires insurer != carrier
    ensures var c := InsurerAssigned(consignor, carrier, insurer);
      && Verify(c, carrier).Revert?
      && var next := Verify(c, insurer).value.next;
      && StateCode(next.state) == Some(INSURANCE_VERIFIED)
  {
  }

  /** The contract after the insurer has verified the insurance. */
  function InsuranceVerified(consignor: Address, carrier: Address, insurer: Address): Consignment {
    Verify(InsurerAssigned(consignor, carrier, insurer), insurer).value.next
  }

  /** Scenario INSURANCE_VERIFIED => CARRIER_ASSIGNED: reassigning the
      carrier rewinds the contract and unassigns the insurer. */
  lemma CarrierReassignmentFromVerifiedScenario(
    consignor: Address, carrier: Address, insurer: Address, carrierAlternative: Address)
    requires carrierAlternative != consignor
    ensures var c := InsuranceVerified(consignor, carrier, insurer);
      && StateCode(c.state) == Some(INSURANCE_VERIFIED)
      && AssignParty(c, carrierAlternative, carrierAlternative).Revert?
      && var next := AssignParty(c, consignor, carrierAlternative).value.next;
      && StateCode(next.state) == Some(CARRIER_ASSIGNED)
      && next.party == carrierAlternative
      && next.verifier == ZERO
  {
  }

  /** Scenario INSURANCE_VERIFIED => INSURER_ASSIGNED: the carrier may
      replace the insurer after verification, which rewinds the contract to
      INSURER_ASSIGNED; the insurer may not. */
  lemma InsurerReplacementFromVerifiedScenario(
    consignor: Address, carrier: Address, insurer: Address, insurerAlternative: Address)
    requires insurer != carrier
    ensures var c := InsuranceVerified(consignor, carrier, insurer);
      && AssignVerifier(c, insurer, insurerAlternative).Revert?
      && var next := AssignVerifier(c, carrier, insurerAlternative).value.next;
      && StateCode(next.state) == Some(INSURER_ASSIGNED)
      && next.verifier == insurerAlternative
  {
  }
}
