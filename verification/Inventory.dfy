/** Ticket tiers: the counters every other component reads and writes, and what they mean. */
module Inventory {
  import opened Wrappers

  /** Microseconds since the epoch, the resolution of the program's timestamps. */
  type Time = int

  newtype EventId = uuid: int | 0 <= uuid

  const SECOND: nat := 1_000_000

  /** The columns of a tier that only its organizer edits. */
  datatype SaleTerms = SaleTerms(
    price: int,
    startsAt: Option<Time>,
    endsAt: Option<Time>,
    active: bool,
    sortOrder: nat)

  /** One row of the tier table.  The counters are non-negative by the database's own check
      constraint; a write that would make one negative is refused where it is attempted. */
  datatype TicketTier = TicketTier(event: EventId, total: nat, held: nat, sold: nat, terms: SaleTerms)
  {
    function QuantityAvailable(): nat
    {
      if total - held - sold < 0 then 0 else total - held - sold
    }

    predicate IsOnSale(now: Time)
    {
      if terms.startsAt.Some? && now < terms.startsAt.value then false
      else if terms.endsAt.Some? && now > terms.endsAt.value then false
      else terms.active && QuantityAvailable() > 0
    }
  }

  /** Availability splits the total exactly when nothing is oversold; otherwise it is clipped to zero. */
  lemma AvailabilitySplitsTotal(t: TicketTier)
    ensures t.QuantityAvailable() + t.held + t.sold == t.total <==> t.held + t.sold <= t.total
    ensures t.held + t.sold > t.total ==> t.QuantityAvailable() == 0
  {}
}
