# Consignment workflow: a Dafny model

This project models the contracts of a multi-party shipping workflow, as their
test suites describe them. A consignor ships goods. A downstream party takes
custody: the carrier in the older contracts, the consignee in the later ones. A
verifier attests that the shipment's requirements are met: the insurer in the
older contracts. Each role is held by an account address. Each operation is
allowed only to the address currently holding the role it needs. The consignor
can always re-route the chain, which rewinds the lifecycle.

The model has these parts.

- `Ledger` (`ledger.dfy`) holds what every contract shares. It defines 160-bit
  addresses with a distinguished zero, the reasons a transaction reverts, and
  `Result`. Every operation is a pure function. It returns either `Ok` with the
  new record and the one event emitted, or `Revert`, which changes nothing.
- `Bytes32Codec` (`bytes32.dfy`) covers the 32-character, NUL-padded values
  used for requirements and registration numbers. It has the encoder
  `normaliseBytes32` of `test/utils.js` and a decoder that strips trailing
  NULs. The two are proved inverse.
- `ConsignmentMachine` (`machine.dfy`) is the per-shipment state machine,
  `Created < PartyAssigned < VerifierAssigned < Verified`. It has three
  operations, a well-formedness invariant, and `Run`, which executes a sequence
  of transactions in the order the ledger serializes them.
- `CarrierConsignment` (`carrier_consignment.dfy`) is the carrier/insurer
  `Consignment` contract. It is the machine starting at `PartyAssigned`, with
  states numbered 0 to 2. Each `contract(...)` block of its test suite is
  replayed as a lemma.
- `ProofOfInsurance` (`proof_of_insurance.dfy`) is the earliest variant. It
  reports states by name and stores its requirements unpadded. Its insurer
  assignment and verification take no caller check.
- `PlusDRegistration` (`plus_d_registration.dfy`) is the role registry. For
  each role it maps an address to a registration number, and only the owner
  may write it.
- `PlusD` (`plus_d.dfy`) is the older registry. It maps a registration number
  to an address, for consignors and carriers.
- `PlusDConsignments` (`plus_d_consignments.dfy`) is the factory. It checks
  registration, creates instances and forwards role assignments to an
  instance. Its instances are a map from each consignor to the sequence of
  records that consignor created. An instance's address is modelled as
  `Ref(consignor, index)`.

The repository's Solidity sources are not part of this model. The behaviour
modelled is the behaviour its test suites assert. Where the tests are silent,
the model makes a choice, and each choice is listed under "Design choices".

## Model

| member | source | states |
|---|---|---|
| Bytes32Codec.NormaliseBytes32 | test/utils.js:22-23 | Defined exactly when the input has at most 32 characters. The result has exactly 32 characters. It starts with the input and the rest are NUL. |
| Bytes32Codec.StripNuls | test/utils.js:22-23 | The decoder. The source has none; this is the inverse of the encoder at the cited lines. The result is a prefix of the input that does not end in NUL, and every character dropped is NUL. |
| Bytes32Codec.StripAfterNormalise | test/utils.js:22-23 | Decoding an encoded string returns the string, when the string does not end in NUL. |
| Bytes32Codec.NormaliseAfterStrip | test/utils.js:22-23 | Every 32-character value is the encoding of its decoded form. |
| Bytes32Codec.NormaliseInjective | test/utils.js:22-23 | Distinct unpadded strings have distinct encodings. |
| Bytes32Codec.NormaliseFullWidth | test/utils.js:23 | A 32-character input is returned unchanged. |
| Bytes32Codec.NormaliseEmpty | test/utils.js:23 | The empty string encodes to the all-NUL value that an unset registry entry reads as. |
| ConsignmentMachine.AssignParty | test/consignment.js:56-85 | Succeeds exactly when the caller is the consignor, in every state. Otherwise it reverts as unauthorized. On success: the new party is set, the state is PartyAssigned, the consignor and requirements are kept, and one assignment event carries the new party. From a well-formed record the verifier ends up zero. |
| ConsignmentMachine.AssignVerifier | test/consignment.js:101-132 | Succeeds exactly when the caller is the current party and a party is assigned. On success the verifier is the new one, the state is VerifierAssigned and the other fields are kept. Before a party is assigned it fails as not enabled, whoever calls. Once a party is assigned, any other caller fails as unauthorized. |
| ConsignmentMachine.Verify | test/consignment.js:263-290 | Succeeds exactly when the caller is the current verifier and the state is VerifierAssigned. Any other caller fails as unauthorized. The verifier calling in any other state fails as not enabled. On success only the state changes, to Verified, and one verification event is emitted. |
| ConsignmentMachine.StepCommitsIff | test/consignment.js:46-423 | A transaction commits if and only if its caller holds the needed role (`Holder`) and the current state enables it (`Enabled`). When it commits, it lands in its target state. |
| ConsignmentMachine.StepPreservesValid | test/consignment.js:297-360 | Each committed transaction keeps this invariant: the party is set only from PartyAssigned on, and the verifier only from VerifierAssigned on. |
| ConsignmentMachine.StepKeepsFixedFields | test/consignment.js:25-41 | No transaction changes the consignor or the requirements. |
| ConsignmentMachine.StepRewindsOnlyOnReassignment | test/consignment.js:297-423 | The state moves backwards exactly in two cases: a consignor re-route from past PartyAssigned, and a verifier replacement from Verified. Verification moves exactly one stage forward. |
| ConsignmentMachine.VerifiedOnlyByVerifier | test/consignment.js:263-290 | The only way into Verified is verification by the current verifier from VerifierAssigned. |
| ConsignmentMachine.Run | truffle/test/proof_of_insurance.js:32-49 | In a serialized run, the log has at most one event per transaction, and the consignor and requirements are never changed. |
| ConsignmentMachine.RevertedCallIsInvisible | truffle/test/proof_of_insurance.js:41-48 | A reverted transaction leaves the run exactly as if it had never been sent, so the carrier stays unchanged. |
| ConsignmentMachine.RunPreservesValid | test/consignment.js:297-360 | Any run from a well-formed record ends in a well-formed record. |
| ConsignmentMachine.RunEndingVerifiedLogsVerification | test/consignment.js:246-295 | A run that ends in Verified and logged anything has the verification event as its last event. |
| CarrierConsignment.StateCodeRoundTrip | test/consignment.js:4-6 | The numbering 0, 1, 2 is a bijection with the states the contract can be in. It follows the lifecycle order. |
| CarrierConsignment.StateCode | test/consignment.js:4-6 | The accessor `state()`. Every state except `Created` has a number from 0 to 2, and that number reads back as the same state. |
| CarrierConsignment.Deploy | test/consignment.js:21-41 | The deployed record is well formed and reports state CARRIER_ASSIGNED (0). The consignor is the deployer, the carrier is the argument, the insurer is zero, and the requirements are the given 32-character value. |
| CarrierConsignment.RunNeverReachesCreated | test/consignment.js:4-6 | No run takes the contract to a state outside 0 to 2. |
| CarrierConsignment.InitScenario | test/consignment.js:9-44 | After deployment: state 0, the consignor is the deployer, the carrier is the argument, the insurer is zero, and the requirements are "explosive goods" followed by 17 NULs. |
| CarrierConsignment.CarrierReassignmentScenario | test/consignment.js:46-89 | At CARRIER_ASSIGNED a non-consignor's reassignment reverts. The consignor's reassignment gives state 0 and the new carrier. |
| CarrierConsignment.InsurerAssignmentScenario | test/consignment.js:91-136 | The insurer itself cannot assign the insurer. The carrier can, which gives state 1 with the insurer set. |
| CarrierConsignment.CarrierReassignmentFromInsurerAssignedScenario | test/consignment.js:138-189 | At INSURER_ASSIGNED a non-consignor's reassignment reverts. The consignor's reassignment returns to state 0 with the new carrier. |
| CarrierConsignment.InsurerReplacementScenario | test/consignment.js:191-244 | At INSURER_ASSIGNED the current insurer cannot replace the insurer. The carrier can, and the state stays 1. |
| CarrierConsignment.VerificationScenario | test/consignment.js:246-295 | The carrier cannot verify. The insurer's verification gives state 2. |
| CarrierConsignment.CarrierReassignmentFromVerifiedScenario | test/consignment.js:297-360 | At INSURANCE_VERIFIED a non-consignor's reassignment reverts. The consignor's reassignment gives state 0, the new carrier and a zero insurer. |
| CarrierConsignment.InsurerReplacementFromVerifiedScenario | test/consignment.js:362-423 | At INSURANCE_VERIFIED the insurer cannot replace itself. The carrier's replacement gives state 1 and the new insurer. |
| ProofOfInsurance.StateNameRoundTrip | truffle/test/proof_of_insurance.js:12-13 | The three state names are a bijection with the states the contract can be in. |
| ProofOfInsurance.StateName | truffle/test/proof_of_insurance.js:12-13 | The accessor `state()`. Every state except `Created` has a name, and that name reads back as the same state. |
| ProofOfInsurance.Deploy | truffle/test/proof_of_insurance.js:12-30 | The deployed record is well formed and reports "CARRIER_ASSIGNED". The consignor is the deployer, the carrier is the argument, the insurer is zero, and the requirements are stored exactly as given. |
| ProofOfInsurance.AssignInsurer | truffle/test/proof_of_insurance.js:66-77 | Succeeds for any caller once a carrier is assigned. It sets the insurer and moves to INSURER_ASSIGNED, changing nothing else. |
| ProofOfInsurance.VerifyInsurance | truffle/test/proof_of_insurance.js:93-100 | Succeeds for any caller exactly in INSURER_ASSIGNED, and otherwise fails as not enabled. On success it moves to INSURANCE_VERIFIED and emits the verification event. |
| ProofOfInsurance.InitScenario | truffle/test/proof_of_insurance.js:12-30 | After deployment: "CARRIER_ASSIGNED", the consignor and carrier are set, the insurer is zero, and the requirements are the unpadded "explosive goods". |
| ProofOfInsurance.CarrierReassignmentScenario | truffle/test/proof_of_insurance.js:32-63 | A non-consignor's reassignment leaves the carrier in place. The consignor's reassignment yields "CARRIER_ASSIGNED" with the new carrier. |
| ProofOfInsurance.InsurerScenario | truffle/test/proof_of_insurance.js:66-101 | An insurer assignment issued from the consignor's account yields "INSURER_ASSIGNED" with the insurer set. From there a re-route yields "CARRIER_ASSIGNED", and a verification yields "INSURANCE_VERIFIED". |
| PlusDRegistration.Lookup | test/plus_d_registration.js:69-74 | The accessors `consignors`, `consignees` and `verifiers(address)`. They return the recorded number, or the all-NUL number for an address never registered in that role. |
| PlusDRegistration.Deploy | test/plus_d_registration.js:10-20 | The owner is the deployer, and no address is registered for any role. |
| PlusDRegistration.Register | test/plus_d_registration.js:33-87 | Succeeds exactly when the caller is the owner, and otherwise reverts as unauthorized. On success the read accessor returns the number for that role and address, every other entry and the owner are unchanged, and one event carries the role, address and number. |
| PlusDRegistration.RegisterOverwrites | test/plus_d_registration.js:54-74 | Registering the same address twice for a role keeps only the later number. |
| PlusDRegistration.InitScenario | test/plus_d_registration.js:10-22 | `owner` is the deploying account. |
| PlusDRegistration.RegisterScenario | test/plus_d_registration.js:24-226 | For each role, a non-owner's registration reverts. The owner's registration makes the accessor return the padded "HRB 27814", and the event is exactly the role, the address and the padded number. |
| PlusD.Lookup | test/plus_d.js:50-52 | The accessors `consignors` and `carriers(number)`. They return the recorded address, or the zero address for a number never registered in that table. |
| PlusD.Deploy | test/plus_d.js:4-15 | The owner is the deployer, and every number reads back as the zero address. |
| PlusD.Register | test/plus_d.js:27-52 | Succeeds exactly when the caller is the owner. On success the address is readable under the number in that role's table, and every other entry is unchanged. |
| PlusD.KeyedByNumber | test/plus_d.js:45-52 | The tables are keyed by number: one address registered under two numbers is found under both. |
| PlusD.InitScenario | test/plus_d.js:4-16 | `owner` is the deploying account. |
| PlusD.RegisterScenario | test/plus_d.js:18-94 | For consignors and for carriers, a non-owner's registration reverts. The owner's registration makes the address readable under "27814". |
| PlusDConsignments.Deploy | test/plus_d_consignments.js:14-19 | The deployer owns the registry, nobody is registered in any role, there are no instances, and the factory is well formed. |
| PlusDConsignments.ConsignmentAt | test/plus_d_consignments.js:99-101 | `consignments(consignor, i)` succeeds exactly for an index below the number of instances that consignor created, and then names that consignor's instance at position `i` in creation order. Past the end it fails as an unknown instance. |
| PlusDConsignments.Register | test/plus_d_consignments.js:21-40 | Registration through the factory is owner-only, and otherwise reverts as unauthorized. It sets the registry entry, keeps the owner and every other entry, emits one registration event, and leaves every instance untouched. |
| PlusDConsignments.CreateConsignment | test/plus_d_consignments.js:42-135 | Succeeds exactly when the caller is a registered consignor and the named consignee is a registered consignee. An unregistered caller fails as unauthorized and an unregistered consignee as an invalid party. On success the instance is filed at the next index of the caller's list, with the caller as consignor, the consignee, a zero verifier, the given requirements and state CONSIGNEE_ASSIGNED. One creation event carries its address, which `consignments(caller, index)` returns. The caller's list grows by exactly one, no other instance appears, and every earlier instance and the registry are unchanged. |
| PlusDConsignments.CreateUnassigned | test/plus_d_consignments.js:11 | The consignor-only creation. It succeeds exactly for a registered consignor and files exactly one new instance, in CONSIGNMENT_CREATED (0) with no consignee, and one creation event carrying its address. Earlier instances and the registry are unchanged. |
| PlusDConsignments.AssignConsignee | test/consignment.js:339-354 | Through the factory: succeeds exactly for an existing instance, a registered consignee and the instance's consignor as caller. The failures are checked in that order: unknown instance, then invalid party, then unauthorized. Only that instance changes, and it changes as the machine's re-route rule says. One `ConsigneeAssigned` event carries the new consignee. |
| PlusDConsignments.AssignVerifierVia | test/plus_d_consignments.js:189-250 | Through the factory: succeeds exactly for an existing instance, a registered verifier and the instance's current consignee as caller, once a consignee is assigned. A missing instance fails as unknown. An unregistered verifier fails as an invalid party. With a registered verifier, the instance's own failures pass through unchanged: not enabled before a consignee is assigned, and unauthorized for any caller but the consignee. On success only that instance changes, and only its verifier and state. One `VerifierAssigned` event carries the verifier. |
| PlusDConsignments.VerifyRequirements | test/consignment.js:263-290 | Through the factory: succeeds exactly for an existing instance whose current verifier is the caller and whose state is VERIFIER_ASSIGNED. A missing instance fails as unknown. Otherwise the instance's own failures pass through: unauthorized for anyone but its verifier, and not enabled for the verifier in any other state. Only that instance changes, and only its state. One `RequirementsVerified` event is emitted. |
| PlusDConsignments.ExecutePreservesValid | test/plus_d_consignments.js:84-135 | Every committed factory transaction keeps every instance well formed, filed under its own consignor, with 32-character requirements. Earlier instances are never removed or relabelled. A transaction touches the registry or the instances, never both. |
| PlusDConsignments.RunTx | test/plus_d_consignments.js:129-135 | In a serialized run, the log has at most one event per transaction. A run without registrations leaves the registry unchanged. A run of registrations only leaves the instances unchanged. |
| PlusDConsignments.RunPreservesValid | test/plus_d_consignments.js:84-135 | Any run from a well-formed factory stays well formed and keeps every earlier instance with its consignor and requirements. |
| PlusDConsignments.PartiesRegistered | test/plus_d_consignments.js:21-40 | After the tests' registrations, the consignor and the consignee are registered in their roles only, and no verifier is registered. |
| PlusDConsignments.CreationScenario | test/plus_d_consignments.js:21-138 | Creation by the consignee reverts, and so does naming the consignor as consignee. The consignor's creation files the instance at `consignments(consignor, 0)` with state 1, the consignor, the consignee and the padded requirements. It emits `ConsignmentCreated` with that address. |
| PlusDConsignments.VerifierAssignmentScenario | test/plus_d_consignments.js:140-257 | Through the factory, the verifier cannot assign itself, and the consignee cannot name an unregistered verifier. The consignee naming the registered verifier sets the instance's verifier. |
| PlusDConsignments.LifecycleScenario | test/plus_d_consignments.js:173-250 | For any registered parties, the following steps all succeed: create, assign a verifier, verify, and re-route to another registered consignee. The states are 1, 2, 3 and then 1 again. After the re-route the verifier is zero and the consignee is the new one. |

## Design choices

Where the tests say nothing, the model takes these decisions.

- Re-routing clears the verifier from VerifierAssigned and from Verified. The
  tests check the clearing only from the verified state (test/consignment.js:352-354).
  Clearing it from VerifierAssigned keeps the invariant that a verifier is set
  only from VerifierAssigned on.
- The current party may replace the verifier after verification, which rewinds
  the state to VerifierAssigned. test/consignment.js:404-417 shows this for the
  carrier/insurer contract. The factory's instances use the same machine, so
  they allow it too. A simpler rule would be "the state only rises, except on a
  consignee reassignment". That rule disagrees with test/consignment.js:404-417,
  where the insurer replacement moves the state back from INSURANCE_VERIFIED.
  The model follows the test, and `StepRewindsOnlyOnReassignment` states the
  exact rule.
- In `ProofOfInsurance`, the insurer assignment and the verification are
  issued from the consignor's account, and the test expects them to succeed
  (truffle/test/proof_of_insurance.js:68, 95). So they are modelled with no
  caller check: each acts as the current holder of the role.
- No test exercises the factory's `assignConsignee`, `verifyRequirements` or
  consignor-only creation. They are modelled as follows:
  - `assignConsignee` checks that the new consignee is registered, then
    applies the instance's re-route rule.
  - `verifyRequirements` passes straight to the instance, which checks the
    caller.
  - Consignor-only creation files an instance in state 0 with no consignee.
    State 0 is the value below CONSIGNEE_ASSIGNED = 1 at
    test/plus_d_consignments.js:11.
- An address counts as registered when its number is not all NUL.
  Registration is an upsert.
- The factory checks in this order: that the instance exists, then the
  registry, then whatever the instance itself checks.
- The instance's verifier assignment checks the state before the caller. So a
  call before any party is assigned fails as not enabled, whatever the caller.
  Its verification checks the caller before the state. The tests observe only
  that a revert happens, not which check caused it.

## Left out

- The Solidity contracts themselves are not part of this model. Their
  behaviour is taken from the test suites.
- Gas, and the way new contract addresses are derived: an instance is
  identified by its consignor and creation index instead.
- How the factory passes the original caller on to an instance: every
  operation takes an explicit caller.
- The hex encoding of the tests' comparisons (`web3.toHex`): padded values are
  compared character by character. Each character stands for one byte, so
  non-ASCII text, whose UTF-8 encoding is longer, is not modelled.
- Strings longer than 32 characters passed where a 32-byte value is expected:
  the contracts' operations take already-encoded 32-character values, and only
  the encoder reports that such a string has no encoding.
- The events of the older `PlusD` registry: no test observes any, so its
  registration returns only the new registry.
- The test helpers `attemptUnsuccessfulTransaction` and
  `getEventsForTransaction`: these are promise and event-stream plumbing.
  Events are instead returned by each step and collected by `Run` / `RunTx`.
- Mocha and truffle mechanics: redeployment per `contract()`, instances shared
  across `describe` blocks, and hook ordering. Each scenario lemma starts from
  the state that its block's `before` hooks produce.
- Migration scripts: only the constructor arguments (the carrier and
  "explosive goods") are used.
