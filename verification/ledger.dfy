/** Values shared by every contract of the model: account addresses, the
    failure kinds a transaction can revert with, and the outcome of a call.

    A transaction on the ledger is atomic: it either commits, producing a
    new record and the event it emits, or it reverts and nothing changes.
    Every operation of the model is therefore a pure function from the
    current record to a `Result`. */
module Ledger {

  /** An account address: a 160-bit unsigned integer, opaque to the contracts
      except for the distinguished zero address. */
  newtype Address = a: int | 0 <= a < 0x1_0000_0000_0000_0000_0000_0000_0000_0000_0000_0000

  /** The zero address, read back from an address field that was never set
      or that has been cleared. */
  const ZERO: Address := 0

  /** Why a transaction reverted. The tests observe only that a revert
      happened; the kinds name the check that failed. */
  datatype Failure =
    | Unauthorized      // the caller does not hold the role the operation needs
    | InvalidState      // the operation is not enabled in the current lifecycle state
    | InvalidParty      // a named address is not registered for the role it is given
    | UnknownInstance   // no instance is stored under the given consignor and index

  /** The outcome of a transaction. */
  datatype Result<+T> = Ok(value: T) | Revert(reason: Failure)

  /** An optional value. */
  datatype Option<+T> = None | Some(value: T)
}
