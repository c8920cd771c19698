/** Serial runs of the hold engine: any sequence of its operations, each running alone. */
module HoldRuns {
  import opened Wrappers
  import opened Inventory
  import opened Sequences
  import opened Records
  import opened CheckoutServices
  import opened CheckoutTasks
  import opened PaymentTasks
  import opened Refunds
  import AvailabilityCache

  datatype Op =
    | Create(call: CreateCall)
    | Release(token: Token)
    | Sweep(now: Time, order: seq<Token>)
    | Timeout(token: Token, now: Time)
    | Refund(payment: PaymentId, auditPk: Option<AuditId>)
    | Fill(tier: TierId, now: Time) // some reader caches a tier's current availability

  /** What the surroundings guarantee: query results are listings of the matching rows, clocks are past
      the epoch, and the cache server handles a write no earlier than the program computed its
      time-to-live.  Clock readings of different operations need not be ordered. */
  ghost predicate Enabled(w: World, op: Op)
  {
    match op
    case Create(c) => 0 <= c.now && c.ttlNow <= c.storedAt
    case Sweep(now, order) => Lists(order, Batch(w, now))
    case _ => true
  }

  function AfterFill(w: World, t: TierId, now: Time): (w': World)
    requires ForeignKeys(w)
    ensures ForeignKeys(w')
  {
    if t in w.tiers then
      w.(availability := w.availability[
           t := Cached(w.tiers[t].QuantityAvailable(), now + AvailabilityCache.AVAILABILITY_TTL * SECOND)])
    else
      w
  }

  function Step(w: World, op: Op): (w': World)
    requires ForeignKeys(w) && Enabled(w, op)
    ensures ForeignKeys(w')
  {
    match op
    case Create(c) => AfterCreate(w, c)
    case Release(tok) => AfterRelease(w, tok)
    case Sweep(now, order) => AfterSweep(w, now, order)
    case Timeout(tok, now) => AfterTimeout(w, tok, now)
    case Refund(pid, auditPk) => RefundKeepsKeys(w, pid, auditPk); AfterRefund(w, pid, auditPk)
    case Fill(t, now) => AfterFill(w, t, now)
  }

  ghost predicate ValidRun(w: World, ops: seq<Op>)
    requires ForeignKeys(w)
    decreases |ops|
  {
    ops != [] ==> Enabled(w, ops[0]) && ValidRun(Step(w, ops[0]), ops[1..])
  }

  function Run(w: World, ops: seq<Op>): (w': World)
    requires ForeignKeys(w) && ValidRun(w, ops)
    ensures ForeignKeys(w')
    decreases |ops|
  {
    if ops == [] then w else Run(Step(w, ops[0]), ops[1..])
  }
}
