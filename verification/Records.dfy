/** The shared state of the program: database tables, the expiry set and the two caches. */
module Records {
  import opened Wrappers
  import opened Inventory

  // Primary keys are UUIDs; only their equality matters.
  newtype TierId = uuid: int | 0 <= uuid
  newtype Token = uuid: int | 0 <= uuid
  newtype UserId = uuid: int | 0 <= uuid
  newtype PaymentId = uuid: int | 0 <= uuid
  newtype TicketId = uuid: int | 0 <= uuid
  newtype AuditId = uuid: int | 0 <= uuid

  datatype HoldStatus = Active | Expired | Confirmed | Released

  datatype CheckoutHold = CheckoutHold(
    user: UserId,
    tier: TierId,
    quantity: nat,
    status: HoldStatus,
    expiresAt: Time)
  {
    predicate IsExpired(now: Time)
    {
      now > expiresAt
    }
  }

  datatype PaymentStatus = Pending | Processing | Succeeded | Failed | Refunded | Disputed

  datatype Payment = Payment(status: PaymentStatus, amount: int, currency: string)

  datatype TicketStatus = Issued | CheckedIn | Cancelled | Transferred

  datatype Ticket = Ticket(payment: Option<PaymentId>, tier: TierId, status: TicketStatus)

  datatype HoldEntry = HoldEntry(tier: TierId, quantity: nat, expiresAt: Time, user: UserId)

  /** A cache value together with the instant its time-to-live runs out. */
  datatype Cached<T> = Cached(value: T, deadline: Time)
  {
    predicate Live(now: Time)
    {
      now < deadline
    }
  }

  datatype World = World(
    tiers: map<TierId, TicketTier>,
    holds: map<Token, CheckoutHold>,
    payments: map<PaymentId, Payment>,
    tickets: map<TicketId, Ticket>,
    expiry: map<Token, Time>,
    registry: map<Token, Cached<HoldEntry>>,
    availability: map<TierId, Cached<int>>)

  /** The references the database itself keeps intact. */
  predicate ForeignKeys(w: World)
  {
    && (forall tok :: tok in w.holds ==> w.holds[tok].tier in w.tiers)
    && (forall id :: id in w.tickets ==> w.tickets[id].tier in w.tiers)
    && (forall id :: id in w.tickets && w.tickets[id].payment.Some? ==> w.tickets[id].payment.value in w.payments)
  }

  /** `UPDATE ... SET quantity_held = held` on one row. */
  function WithHeld(tiers: map<TierId, TicketTier>, t: TierId, held: nat): (tiers': map<TierId, TicketTier>)
    requires t in tiers
    ensures tiers'.Keys == tiers.Keys
  {
    tiers[t := tiers[t].(held := held)]
  }

  /** `UPDATE ... SET quantity_sold = sold` on one row. */
  function WithSold(tiers: map<TierId, TicketTier>, t: TierId, sold: nat): (tiers': map<TierId, TicketTier>)
    requires t in tiers
    ensures tiers'.Keys == tiers.Keys
  {
    tiers[t := tiers[t].(sold := sold)]
  }

  /** Saving only the status column of one hold. */
  function WithStatus(holds: map<Token, CheckoutHold>, tok: Token, status: HoldStatus)
    : (holds': map<Token, CheckoutHold>)
    requires tok in holds
    ensures holds'.Keys == holds.Keys
  {
    holds[tok := holds[tok].(status := status)]
  }
}
