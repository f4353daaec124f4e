/** The per-shipment state machine shared by every variant of the
    `Consignment` contract.

    A consignment has three roles. The consignor is fixed at creation. The
    downstream party (the carrier in the older contracts, the consignee in
    the factory-created ones) is chosen by the consignor, and the verifier
    (the insurer in the older contracts) is chosen by the current party.
    Each operation is allowed only to the address currently holding the
    role it needs, so custody moves down the chain one stage at a time,
    while the consignor can always re-route the chain, at the price of the
    verification progress made so far. */
module ConsignmentMachine {
  import opened Ledger

  /** Lifecycle states, in their order. The older carrier/insurer contracts
      start at `PartyAssigned` and never use `Created`. */
  datatype State = Created | PartyAssigned | VerifierAssigned | Verified

  /** The position of a state in the lifecycle order. */
  function Rank(s: State): nat {
    match s
    case Created => 0
    case PartyAssigned => 1
    case VerifierAssigned => 2
    case Verified => 3
  }

  /** The stored fields of one consignment instance. */
  datatype Consignment = Consignment(
    consignor: Address,
    party: Address,
    verifier: Address,
    requirements: seq<char>,
    state: State)

  /** The event a successful operation emits, carrying the new value. */
  datatype Event =
    | PartyAssignment(party: Address)
    | VerifierAssignment(verifier: Address)
    | RequirementsVerification

  /** A committed operation: the new record and the one event it emits. */
  datatype Transition = Transition(next: Consignment, event: Event)

  /** The well-formedness the operations maintain: a role field is set only
      once the lifecycle has reached the stage that assigns it. */
  predicate Valid(c: Consignment) {
    && (c.state == Created ==> c.party == ZERO)
    && (c.state == Created || c.state == PartyAssigned ==> c.verifier == ZERO)
  }

  /** The consignor assigns a new downstream party. Allowed in every state;
      from `VerifierAssigned` or `Verified` it also clears the verifier,
      because a new party must nominate its own verifier. */
  function AssignParty(c: Consignment, caller: Address, party: Address): (r: Result<Transition>)
    ensures r.Ok? <==> caller == c.consignor
    ensures r.Revert? ==> r.reason == Unauthorized
    ensures r.Ok? ==>
      && r.value.next.consignor == c.consignor
      && r.value.next.requirements == c.requirements
      && r.value.next.party == party
      && r.value.next.state == PartyAssigned
      && r.value.event == PartyAssignment(party)
    ensures r.Ok? && Valid(c) ==> r.value.next.verifier == ZERO
  {
    if caller != c.consignor then Revert(Unauthorized)
    else
      var verifier := if c.state == VerifierAssigned || c.state == Verified then ZERO else c.verifier;
      Ok(Transition(c.(party := party, verifier := verifier, state := PartyAssigned), PartyAssignment(party)))
  }

  /** The current party assigns a verifier. Allowed once a party has been
      assigned, including as a replacement in `VerifierAssigned` and as a
      rewind from `Verified`. Before a party is assigned the call fails as
      not enabled, whoever sends it. */
  function AssignVerifier(c: Consignment, caller: Address, verifier: Address): (r: Result<Transition>)
    ensures r.Ok? <==> caller == c.party && c.state != Created
    ensures r.Revert? ==> (r.reason == InvalidState <==> c.state == Created)
    ensures r.Revert? ==> (r.reason == Unauthorized <==> c.state != Created && caller != c.party)
    ensures r.Ok? ==>
      && r.value.next.consignor == c.consignor
      && r.value.next.requirements == c.requirements
      && r.value.next.party == c.party
      && r.value.next.verifier == verifier
      && r.value.next.state == VerifierAssigned
      && r.value.event == VerifierAssignment(verifier)
  {
    if c.state == Created then Revert(InvalidState)
    else if caller != c.party then Revert(Unauthorized)
    else Ok(Transition(c.(verifier := verifier, state := VerifierAssigned), VerifierAssignment(verifier)))
  }

  /** The current verifier marks the requirements verified; only from
      `VerifierAssigned`. */
  function Verify(c: Consignment, caller: Address): (r: Result<Transition>)
    ensures r.Ok? <==> caller == c.verifier && c.state == VerifierAssigned
    ensures r.Revert? ==> (r.reason == Unauthorized <==> caller != c.verifier)
    ensures r.Revert? ==> (r.reason == InvalidState <==> caller == c.verifier)
    ensures r.Ok? ==>
      && r.value.next == c.(state := Verified)
      && r.value.event == RequirementsVerification
  {
    if caller != c.verifier then Revert(Unauthorized)
    else if c.state != VerifierAssigned then Revert(InvalidState)
    else Ok(Transition(c.(state := Verified), RequirementsVerification))
  }

  /** A transaction sent to an instance. */
  datatype Call =
    | PartyCall(caller: Address, who: Address)
    | VerifierCall(caller: Address, who: Address)
    | VerifyCall(caller: Address)

  /** Executes one transaction. */
  function Step(c: Consignment, call: Call): Result<Transition> {
    match call
    case PartyCall(caller, who) => AssignParty(c, caller, who)
    case VerifierCall(caller, who) => AssignVerifier(c, caller, who)
    case VerifyCall(caller) => Verify(c, caller)
  }

  /** Reference definition of authorization: the address whose role the
      transaction needs, read from the record at the time of the call. */
  function Holder(c: Consignment, call: Call): Address {
    match call
    case PartyCall(_, _) => c.consignor
    case VerifierCall(_, _) => c.party
    case VerifyCall(_) => c.verifier
  }

  /** Reference definition of the lifecycle gate: the states in which the
      transaction is enabled. */
  predicate Enabled(s: State, call: Call) {
    match call
    case PartyCall(_, _) => true
    case VerifierCall(_, _) => s != Created
    case VerifyCall(_) => s == VerifierAssigned
  }

  /** The state a committed transaction moves to. */
  function Target(call: Call): State {
    match call
    case PartyCall(_, _) => PartyAssigned
    case VerifierCall(_, _) => VerifierAssigned
    case VerifyCall(_) => Verified
  }

  /** A transaction commits exactly when its caller holds the needed role
      and the current state enables it; it then moves to its target state. */
  lemma StepCommitsIff(c: Consignment, call: Call)
    ensures Step(c, call).Ok? <==> call.caller == Holder(c, call) && Enabled(c.state, call)
    ensures Step(c, call).Ok? ==> Step(c, call).value.next.state == Target(call)
  {
    match call
    case PartyCall(_, _) =>
    case VerifierCall(_, _) =>
    case VerifyCall(_) =>
  }

  /** Every committed transaction keeps the record well formed. */
  lemma StepPreservesValid(c: Consignment, call: Call)
    requires Valid(c)
    requires Step(c, call).Ok?
    ensures Valid(Step(c, call).value.next)
  {
  }

  /** The consignor and the requirements never change. */
  lemma StepKeepsFixedFields(c: Consignment, call: Call)
    requires Step(c, call).Ok?
    ensures Step(c, call).value.next.consignor == c.consignor
    ensures Step(c, call).value.next.requirements == c.requirements
  {
  }

  /** The state moves backwards only on a re-route by the consignor from a
      state past `PartyAssigned`, or on a verifier replacement from
      `Verified`; verification itself moves exactly one stage forward. */
  lemma StepRewindsOnlyOnReassignment(c: Consignment, call: Call)
    requires Step(c, call).Ok?
    ensures Rank(Step(c, call).value.next.state) < Rank(c.state) <==>
      || (call.PartyCall? && Rank(c.state) > Rank(PartyAssigned))
      || (call.VerifierCall? && c.state == Verified)
    ensures call.VerifyCall? ==> Rank(Step(c, call).value.next.state) == Rank(c.state) + 1
  {
  }

  /** The only way into `Verified` is verification by the current verifier
      from `VerifierAssigned`. */
  lemma VerifiedOnlyByVerifier(c: Consignment, call: Call)
    requires Step(c, call).Ok?
    requires Step(c, call).value.next.state == Verified
    ensures call == VerifyCall(c.verifier)
    ensures c.state == VerifierAssigned
  {
  }

  /** Executes transactions in order, as the ledger serializes them. A
      reverted transaction leaves the record as it was and adds nothing to
      the event log; a committed one adds exactly its one event. */
  function Run(c: Consignment, calls: seq<Call>): (r: (Consignment, seq<Event>))
    ensures |r.1| <= |calls|
    ensures r.0.consignor == c.consignor
    ensures r.0.requirements == c.requirements
    decreases |calls|
  {
    if |calls| == 0 then (c, [])
    else match Step(c, calls[0])
      case Revert(_) => Run(c, calls[1..])
      case Ok(t) =>
        var rest := Run(t.next, calls[1..]);
        (rest.0, [t.event] + rest.1)
  }

  /** A reverted transaction is invisible: the run continues as if it had
      never been sent. */
  lemma RevertedCallIsInvisible(c: Consignment, call: Call, rest: seq<Call>)
    requires Step(c, call).Revert?
    ensures Run(c, [call] + rest) == Run(c, rest)
  {
    assert ([call] + rest)[1..] == rest;
  }

  /** Any sequence of transactions keeps a well-formed record well formed. */
  lemma {:induction false} RunPreservesValid(c: Consignment, calls: seq<Call>)
    requires Valid(c)
    ensures Valid(Run(c, calls).0)
    decreases |calls|
  {
    if |calls| > 0 {
      match Step(c, calls[0])
      case Revert(_) =>
        RunPreservesValid(c, calls[1..]);
      case Ok(t) =>
        StepPreservesValid(c, calls[0]);
        RunPreservesValid(t.next, calls[1..]);
    }
  }

  /** A run ending in `Verified` with a non-empty log ends with the
      verification event: every later committed transaction would have left
      `Verified`. */
  lemma {:induction false} RunEndingVerifiedLogsVerification(c: Consignment, calls: seq<Call>)
    requires Run(c, calls).0.state == Verified
    requires |Run(c, calls).1| > 0
    ensures Run(c, calls).1[|Run(c, calls).1| - 1] == RequirementsVerification
    decreases |calls|
  {
    if |calls| > 0 {
      match Step(c, calls[0])
      case Revert(_) =>
        RunEndingVerifiedLogsVerification(c, calls[1..]);
      case Ok(t) =>
        var rest := Run(t.next, calls[1..]);
        if |rest.1| > 0 {
          RunEndingVerifiedLogsVerification(t.next, calls[1..]);
        } else {
          RunWithoutEventsIsIdle(t.next, calls[1..]);
          VerifiedOnlyByVerifier(c, calls[0]);
        }
    }
  }

  /** A run that logs nothing leaves the record unchanged. */
  lemma {:induction false} RunWithoutEventsIsIdle(c: Consignment, calls: seq<Call>)
    requires |Run(c, calls).1| == 0
    ensures Run(c, calls).0 == c
    decreases |calls|
  {
    if |calls| > 0 {
      match Step(c, calls[0])
      case Revert(_) =>
        RunWithoutEventsIsIdle(c, calls[1..]);
      case Ok(t) =>
    }
  }
}
