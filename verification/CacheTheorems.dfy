/** How far a cached availability can be from the tier's real one. */
module CacheTheorems {
  import opened Wrappers
  import opened Inventory
  import opened Sequences
  import opened Records
  import opened HoldSums
  import opened CheckoutServices
  import opened CheckoutTasks
  import opened PaymentTasks
  import opened Refunds
  import opened HoldRuns
  import opened HoldInvariants
  import opened RefundTheorems
  import AvailabilityCache
  import SweepAccounting

  /** Tickets of tier `t` that this refund gives back. */
  function RefundedBy(w: World, pid: PaymentId, auditPk: Option<AuditId>, t: TierId): nat
  {
    if RefundFailure(w, pid, auditPk).None? then |TicketsOnTier(w, TicketsOf(w, pid), t)| else 0
  }

  /** Tickets of tier `t` that this operation refunds. */
  function RefundedOn(w: World, op: Op, t: TierId): nat
  {
    if op.Refund? then RefundedBy(w, op.payment, op.auditPk, t) else 0
  }

  /** How far behind the cached value of `t` is after this operation, if it was `behind` before. */
  function NextBehind(w: World, op: Op, t: TierId, behind: int): int
  {
    if op.Fill? && op.tier == t then 0 else behind + RefundedOn(w, op, t)
  }

  /** Tickets of `t` refunded since the last fill of its cache entry, starting from `behind`. */
  ghost function RefundedSinceFill(w: World, ops: seq<Op>, t: TierId, behind: int): int
    requires ForeignKeys(w) && ValidRun(w, ops)
    decreases |ops|
  {
    if ops == [] then behind
    else RefundedSinceFill(Step(w, ops[0]), ops[1..], t, NextBehind(w, ops[0], t, behind))
  }

  /** The cached value of `t`, if there is one, is `behind` tickets below the real availability. */
  predicate BehindBy(w: World, t: TierId, behind: int)
  {
    t in w.availability ==> t in w.tiers && w.availability[t].value == w.tiers[t].QuantityAvailable() - behind
  }

  lemma CreateBehind(w: World, c: CreateCall, t: TierId, behind: int)
    requires Inv(w) && BehindBy(w, t, behind)
    ensures BehindBy(AfterCreate(w, c), t, behind)
  {}

  lemma LeavingBehind(w: World, w': World, batch: set<Token>, touched: set<TierId>, t: TierId, behind: int)
    requires Inv(w) && HoldsLeft(w, w', batch, touched) && BehindBy(w, t, behind)
    requires t in w.tiers && t !in touched ==> w'.tiers[t].held == w.tiers[t].held
    ensures BehindBy(w', t, behind)
  {}

  lemma SweptBehind(w: World, w': World, order: seq<Token>, t: TierId, behind: int)
    requires Inv(w) && BehindBy(w, t, behind) && Elements(order) <= w.holds.Keys
    requires HoldsLeft(w, w', Elements(order), Touched(w.holds, order))
    requires t in w.tiers ==> w.tiers[t].held - w'.tiers[t].held == SweepAccounting.GivenBack(w.holds, order, t)
    ensures BehindBy(w', t, behind)
  {
    SweepAccounting.TouchedHasLast(w.holds, order, t);
    LeavingBehind(w, w', Elements(order), Touched(w.holds, order), t, behind);
  }

  lemma ReleaseBehind(w: World, tok: Token, t: TierId, behind: int)
    requires Inv(w) && BehindBy(w, t, behind)
    ensures BehindBy(AfterRelease(w, tok), t, behind)
  {
    if IsActive(w, tok) {
      ReleaseLeaves(w, tok);
      if t in w.tiers {
        ReleaseEffectOn(w, tok, t);
      }
      LeavingBehind(w, AfterRelease(w, tok), {tok}, {w.holds[tok].tier}, t, behind);
    }
  }

  lemma RefundBehind(w: World, pid: PaymentId, auditPk: Option<AuditId>, t: TierId, behind: int)
    requires Inv(w) && BehindBy(w, t, behind)
    ensures BehindBy(AfterRefund(w, pid, auditPk), t, behind + RefundedBy(w, pid, auditPk, t))
  {
    if RefundFailure(w, pid, auditPk).None? && t in w.availability {
      assert CounterOk(w, t);
    }
  }

  lemma SweepBehind(w: World, now: Time, order: seq<Token>, t: TierId, behind: int)
    requires Inv(w) && Lists(order, Batch(w, now)) && BehindBy(w, t, behind)
    ensures BehindBy(AfterSweep(w, now, order), t, behind)
  {
    SweepLeaves(w, now, order);
    if t in w.tiers {
      SweepEffectOn(w, now, order, t);
    }
    SweptBehind(w, AfterSweep(w, now, order), order, t, behind);
  }

  lemma TimeoutBehind(w: World, tok: Token, now: Time, t: TierId, behind: int)
    requires Inv(w) && BehindBy(w, t, behind)
    ensures BehindBy(AfterTimeout(w, tok, now), t, behind)
  {
    ReleaseBehind(w, tok, t, behind);
  }

  lemma FillBehind(w: World, u: TierId, now: Time, t: TierId, behind: int)
    requires Inv(w) && BehindBy(w, t, behind)
    ensures BehindBy(AfterFill(w, u, now), t, if u == t then 0 else behind)
  {}

  lemma HoldStepBehind(w: World, op: Op, t: TierId, behind: int)
    requires Inv(w) && Enabled(w, op) && BehindBy(w, t, behind) && !op.Refund? && !op.Fill?
    ensures BehindBy(Step(w, op), t, behind)
  {
    match op
    case Create(c) => CreateBehind(w, c, t, behind);
    case Release(tok) => ReleaseBehind(w, tok, t, behind);
    case Sweep(now, order) => SweepBehind(w, now, order, t, behind);
    case Timeout(tok, now) => TimeoutBehind(w, tok, now, t, behind);
  }

  /** Hold operations drop the entry of any tier they touch, fills set it right, and refunds leave it
      behind by the tickets they refund. */
  lemma StepBehind(w: World, op: Op, t: TierId, behind: int)
    requires Inv(w) && Enabled(w, op) && BehindBy(w, t, behind)
    ensures BehindBy(Step(w, op), t, NextBehind(w, op, t, behind))
  {
    match op
    case Refund(pid, auditPk) => RefundBehind(w, pid, auditPk, t, behind);
    case Fill(u, now) => FillBehind(w, u, now, t, behind);
    case _ => HoldStepBehind(w, op, t, behind);
  }

  /** Over any run, a cached value is below the real availability by exactly the tickets of that tier
      refunded since the entry was filled: never above it, and equal to it exactly when none was. */
  lemma {:induction false} CachedAvailabilityLaw(w: World, ops: seq<Op>, t: TierId, behind: nat)
    requires Inv(w) && ValidRun(w, ops) && BehindBy(w, t, behind)
    ensures BehindBy(Run(w, ops), t, RefundedSinceFill(w, ops, t, behind))
    ensures RefundedSinceFill(w, ops, t, behind) >= 0
    decreases |ops|
  {
    if ops != [] {
      StepBehind(w, ops[0], t, behind);
      StepKeepsInv(w, ops[0]);
      CachedAvailabilityLaw(Step(w, ops[0]), ops[1..], t, NextBehind(w, ops[0], t, behind));
    }
  }

  /** How far behind the entry of `t` is now. */
  function Lag(w: World, t: TierId): int
  {
    if t in w.availability && t in w.tiers then w.tiers[t].QuantityAvailable() - w.availability[t].value else 0
  }

  /** What a reader of the cache gets after any run from any state: at most the real availability, and
      exactly that when no ticket of the tier was refunded since the fill. */
  lemma CachedReadsAreSafe(w: World, ops: seq<Op>, t: TierId, now: Time)
    requires Inv(w) && ValidRun(w, ops)
    ensures var w' := Run(w, ops);
            match AvailabilityCache.Lookup(w'.availability, t, now)
            case None => true
            case Some(q) =>
              && t in w'.tiers && q <= w'.tiers[t].QuantityAvailable()
              && (q == w'.tiers[t].QuantityAvailable() <==> RefundedSinceFill(w, ops, t, Lag(w, t)) == 0)
  {
    CachedAvailabilityLaw(w, ops, t, Lag(w, t));
  }

  lemma {:induction false} NothingRefundedSinceFill(w: World, ops: seq<Op>, t: TierId)
    requires Inv(w) && ValidRun(w, ops) && AuditAsDeclared(ops)
    ensures RefundedSinceFill(w, ops, t, 0) == 0
    decreases |ops|
  {
    if ops != [] {
      StepKeepsInv(w, ops[0]);
      assert RefundedOn(w, ops[0], t) == 0;
      NothingRefundedSinceFill(Step(w, ops[0]), ops[1..], t);
    }
  }

  /** With the audit model as declared, a cached availability that is right at the start stays right:
      every read after any run returns what is available. */
  lemma CacheExactAsDeclared(w: World, ops: seq<Op>, t: TierId, now: Time)
    requires Inv(w) && ValidRun(w, ops) && AuditAsDeclared(ops) && Lag(w, t) == 0
    ensures var w' := Run(w, ops);
            match AvailabilityCache.Lookup(w'.availability, t, now)
            case None => true
            case Some(q) => t in w'.tiers && q == w'.tiers[t].QuantityAvailable()
  {
    NothingRefundedSinceFill(w, ops, t);
    CachedReadsAreSafe(w, ops, t, now);
  }

  // ----- where a cached value comes from -----

  /** The operation leaves the tier's ACTIVE holds as they are and does not refill its entry. */
  ghost predicate Untouched(w: World, op: Op, t: TierId)
    requires ForeignKeys(w) && Enabled(w, op)
  {
    ActiveOn(Step(w, op).holds, t) == ActiveOn(w.holds, t) && !(op.Fill? && op.tier == t)
  }

  ghost predicate Kept(w: World, ops: seq<Op>, t: TierId)
    requires ForeignKeys(w) && ValidRun(w, ops)
    decreases |ops|
  {
    ops != [] ==> Untouched(w, ops[0], t) && Kept(Step(w, ops[0]), ops[1..], t)
  }

  /** Some fill of the run stores `q` at `filled`, when that is the tier's availability; from then on no
      hold of the tier becomes or ceases to be ACTIVE, and the entry is not refilled. */
  ghost predicate FilledAndKept(w: World, ops: seq<Op>, t: TierId, q: int, filled: Time)
    requires ForeignKeys(w) && ValidRun(w, ops)
    decreases |ops|
  {
    ops != [] &&
    ( ( ops[0] == Fill(t, filled) && t in w.tiers && q == w.tiers[t].QuantityAvailable()
        && Kept(Step(w, ops[0]), ops[1..], t))
      || FilledAndKept(Step(w, ops[0]), ops[1..], t, q, filled))
  }

  predicate SameEntry(w: World, w': World, t: TierId)
  {
    if t in w.availability then t in w'.availability && w'.availability[t] == w.availability[t]
    else t !in w'.availability
  }

  /** An entry survives exactly while the ACTIVE holds of its tier do not change. */
  ghost predicate DropsExactly(w: World, w': World, t: TierId)
  {
    if ActiveOn(w'.holds, t) == ActiveOn(w.holds, t) then SameEntry(w, w', t) else t !in w'.availability
  }

  lemma CreateDrops(w: World, c: CreateCall, t: TierId)
    requires Inv(w)
    ensures DropsExactly(w, AfterCreate(w, c), t)
  {
    if CreateRefusal(w, c).None? {
      InsertDrops(w, AfterCreate(w, c), c.token, NewHold(c), t);
    }
  }

  lemma InsertDrops(w: World, w': World, tok: Token, h: CheckoutHold, t: TierId)
    requires tok !in w.holds && h.status == Active && w'.holds == w.holds[tok := h]
    requires w'.availability == w.availability - {h.tier}
    ensures DropsExactly(w, w', t)
  {
    ActiveOnAfterInsert(w.holds, tok, h, t);
    if h.tier != t {
      assert ActiveOn(w'.holds, t) == ActiveOn(w.holds, t);
    }
  }

  lemma LeavingDrops(w: World, w': World, batch: set<Token>, touched: set<TierId>, t: TierId)
    requires LeftActive(w.holds, w'.holds, batch) && w'.availability == w.availability - touched
    requires t in touched <==> BatchOn(w.holds, batch, t) != {}
    ensures DropsExactly(w, w', t)
  {
    ActiveOnAfterLeaving(w.holds, w'.holds, batch, t);
  }

  lemma ReleaseDrops(w: World, tok: Token, t: TierId)
    requires Inv(w)
    ensures DropsExactly(w, AfterRelease(w, tok), t)
  {
    if IsActive(w, tok) {
      ReleaseLeavesCache(w, tok);
      OneLeavingDrops(w, AfterRelease(w, tok), tok, t);
    }
  }

  lemma OneLeavingDrops(w: World, w': World, tok: Token, t: TierId)
    requires LeftActive(w.holds, w'.holds, {tok}) && tok in w.holds
    requires w'.availability == w.availability - {w.holds[tok].tier}
    ensures DropsExactly(w, w', t)
  {
    BatchOfOne(w.holds, tok, t);
    LeavingDrops(w, w', {tok}, {w.holds[tok].tier}, t);
  }

  lemma ReleaseLeavesCache(w: World, tok: Token)
    requires Inv(w) && IsActive(w, tok)
    ensures LeftActive(w.holds, AfterRelease(w, tok).holds, {tok})
    ensures AfterRelease(w, tok).availability == w.availability - {w.holds[tok].tier}
  {
    ReleaseLeaves(w, tok);
  }

  lemma BatchOfOne(holds: Holds, tok: Token, t: TierId)
    requires tok in holds
    ensures BatchOn(holds, {tok}, t) == if holds[tok].tier == t then {tok} else {}
  {}

  lemma SweepDrops(w: World, now: Time, order: seq<Token>, t: TierId)
    requires Inv(w) && Lists(order, Batch(w, now))
    ensures DropsExactly(w, AfterSweep(w, now, order), t)
  {
    SweepLeaves(w, now, order);
    TouchedExactly(w.holds, order, t);
    LeavingDrops(w, AfterSweep(w, now, order), Elements(order), Touched(w.holds, order), t);
  }

  lemma TouchedExactly(holds: Holds, order: seq<Token>, t: TierId)
    requires Elements(order) <= holds.Keys
    ensures t in Touched(holds, order) <==> BatchOn(holds, Elements(order), t) != {}
  {
    SweepAccounting.TouchedHasLast(holds, order, t);
    AllTouched(holds, order);
    if t in Touched(holds, order) {
      var tok :| tok in Elements(order) && holds[tok].tier == t;
      assert tok in BatchOn(holds, Elements(order), t);
    }
  }

  lemma RefundDrops(w: World, pid: PaymentId, auditPk: Option<AuditId>, t: TierId)
    ensures DropsExactly(w, AfterRefund(w, pid, auditPk), t)
  {}

  lemma TimeoutDrops(w: World, tok: Token, now: Time, t: TierId)
    requires Inv(w)
    ensures DropsExactly(w, AfterTimeout(w, tok, now), t)
  {
    ReleaseDrops(w, tok, t);
  }

  lemma FillDrops(w: World, u: TierId, now: Time, t: TierId)
    requires ForeignKeys(w) && u != t
    ensures DropsExactly(w, AfterFill(w, u, now), t)
  {}

  lemma StepDrops(w: World, op: Op, t: TierId)
    requires Inv(w) && Enabled(w, op) && !(op.Fill? && op.tier == t)
    ensures DropsExactly(w, Step(w, op), t)
  {
    match op
    case Create(c) => CreateDrops(w, c, t);
    case Release(tok) => ReleaseDrops(w, tok, t);
    case Sweep(now, order) => SweepDrops(w, now, order, t);
    case Timeout(tok, now) => TimeoutDrops(w, tok, now, t);
    case Refund(pid, auditPk) => RefundDrops(w, pid, auditPk, t);
    case Fill(u, now) => FillDrops(w, u, now, t);
  }

  predicate Entry(w: World, t: TierId, q: int, filled: Time)
  {
    t in w.availability && w.availability[t] == Cached(q, filled + 30 * SECOND)
  }

  lemma FillEntry(w: World, t: TierId, now: Time, q: int, filled: Time)
    requires Inv(w)
    ensures Entry(AfterFill(w, t, now), t, q, filled)
       <==> now == filled && t in w.tiers && q == w.tiers[t].QuantityAvailable()
  {}

  lemma DroppedEntry(w: World, w': World, t: TierId, q: int, filled: Time)
    requires DropsExactly(w, w', t)
    ensures Entry(w', t, q, filled) <==> Entry(w, t, q, filled) && ActiveOn(w'.holds, t) == ActiveOn(w.holds, t)
  {}

  lemma StepEntry(w: World, op: Op, t: TierId, q: int, filled: Time)
    requires Inv(w) && Enabled(w, op)
    ensures Entry(Step(w, op), t, q, filled)
       <==> (op == Fill(t, filled) && t in w.tiers && q == w.tiers[t].QuantityAvailable())
            || (Entry(w, t, q, filled) && Untouched(w, op, t))
  {
    if op.Fill? && op.tier == t {
      FillEntry(w, t, op.now, q, filled);
    } else {
      StepDrops(w, op, t);
      DroppedEntry(w, Step(w, op), t, q, filled);
    }
  }

  /** An entry found after a run was stored by a fill of the run, or was there before it, and no create,
      release or sweep has touched the tier since. */
  lemma {:induction false} EntryExactly(w: World, ops: seq<Op>, t: TierId, q: int, filled: Time)
    requires Inv(w) && ValidRun(w, ops)
    ensures Entry(Run(w, ops), t, q, filled)
       <==> FilledAndKept(w, ops, t, q, filled) || (Entry(w, t, q, filled) && Kept(w, ops, t))
    decreases |ops|
  {
    if ops != [] {
      StepKeepsInv(w, ops[0]);
      StepEntry(w, ops[0], t, q, filled);
      EntryExactly(Step(w, ops[0]), ops[1..], t, q, filled);
    }
  }

  ghost predicate FilledRecently(w: World, ops: seq<Op>, t: TierId, q: int, filled: Time, now: Time)
    requires ForeignKeys(w) && ValidRun(w, ops)
  {
    FilledAndKept(w, ops, t, q, filled) && now < filled + 30 * SECOND
  }

  /** From an empty cache, a reader gets `q` at `now` exactly when a fill less than thirty seconds ago
      found `q` tickets available and no hold of the tier has become or ceased to be ACTIVE since. */
  lemma ReadExactly(w: World, ops: seq<Op>, t: TierId, now: Time, q: int)
    requires Inv(w) && ValidRun(w, ops) && w.availability == map[]
    ensures AvailabilityCache.Lookup(Run(w, ops).availability, t, now) == Some(q)
       <==> exists filled :: FilledRecently(w, ops, t, q, filled, now)
  {
    forall filled
      ensures Entry(Run(w, ops), t, q, filled) && now < filled + 30 * SECOND
         <==> FilledRecently(w, ops, t, q, filled, now)
    {
      EntryExactly(w, ops, t, q, filled);
    }
    if AvailabilityCache.Lookup(Run(w, ops).availability, t, now) == Some(q) {
      var filled := Run(w, ops).availability[t].deadline - 30 * SECOND;
      assert Entry(Run(w, ops), t, q, filled);
      assert FilledRecently(w, ops, t, q, filled, now);
    }
  }
}
