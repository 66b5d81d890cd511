/** The records of engine/allocator.py (`Order`, `Ticket`, `AssignmentResult`)
    and the parts of the rules dictionary the allocator reads. */
module AllocatorRecords {
  import opened Wrappers

  datatype Order = Order(orderNumber: string, source: string, eventName: string, category: string,
                         qty: int, seating: string)

  /** A ticket row of the sheet; `assignedTo` is blank while the seat is free. */
  datatype Ticket = Ticket(idx: int, game: string, block: string, row: int, seat: int, assignedTo: string)

  /** The status strings; `NeedsApproval` is declared in the source but never produced. */
  datatype Status = Assigned | ChangedCategoryNotInMapping | NotAvailable | NeedsApproval

  /** The reason strings, with the numbers the source writes into them. */
  datatype Reason =
    | NoBlocksForCategory
    | NoStock(gameFail: nat, blockFail: nat, alreadyAssigned: nat)
    | SingleOk
    | SingleFromPairSpecificBlock
    | SingleRequiredNoSingleAvailable
    | SingleFromPair
    | SingleFromSch
    | SingleNoCandidates
    | NoGroupWithAdjacentSeats(need: int)
    | AllTogetherOk(need: int)
    | InsufficientAdjacent(need: int, have: nat)

  datatype AssignmentResult = AssignmentResult(status: Status, tickets: seq<Ticket>, reason: Reason)

  /** What the allocator reads from `rules`:
      - `strictSingleOnly`: `rules["single_rule"]["strict_single_only"]`, `None` when absent;
      - `sources`: `rules["sources"]` as each source's `allow_sch` flag (a source or flag
        that is absent reads as false), `None` when the `"sources"` key itself is missing;
      - `pairingPriority`: the profile names under `rules["pairing_priority"]`, `None`
        when that key is missing. */
  datatype Rules = Rules(strictSingleOnly: Option<bool>, sources: Option<map<string, bool>>,
                         pairingPriority: Option<set<string>>)

  /** `choose_tickets_for_order` either returns a result or raises `KeyError(key)`. */
  datatype Outcome = Returned(result: AssignmentResult) | KeyError(key: string)
}
