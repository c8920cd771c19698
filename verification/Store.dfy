/** PostgreSQL and Redis as one mutable object: every service of the program works on it in place. */
module Store {
  import opened Inventory
  import opened Records

  class Store {
    var tiers: map<TierId, TicketTier>
    var holds: map<Token, CheckoutHold>
    var payments: map<PaymentId, Payment>
    var tickets: map<TicketId, Ticket>
    var expiry: map<Token, Time>
    var registry: map<Token, Cached<HoldEntry>>
    var availability: map<TierId, Cached<int>>

    constructor (w: World)
      ensures View() == w
    {
      tiers, holds, payments, tickets := w.tiers, w.holds, w.payments, w.tickets;
      expiry, registry, availability := w.expiry, w.registry, w.availability;
    }

    ghost function View(): World
      reads this
    {
      World(tiers, holds, payments, tickets, expiry, registry, availability)
    }
  }
}
