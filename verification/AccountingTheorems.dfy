/** The accounting law of the held counter, over every serial run. */
module AccountingTheorems {
  import opened Wrappers
  import opened Inventory
  import opened Sequences
  import opened Records
  import opened HoldSums
  import opened CheckoutServices
  import opened CheckoutTasks
  import opened Refunds
  import opened HoldRuns
  import opened SweepAccounting
  import opened HoldInvariants

  /** What the counter holds back beyond the ACTIVE holds. */
  ghost function Leak(w: World, t: TierId): int
    requires t in w.tiers
  {
    w.tiers[t].held - ActiveSum(w.holds, t)
  }

  /** Quantity one operation fails to give back on a tier. */
  function LossOf(w: World, op: Op, t: TierId): int
  {
    if op.Sweep? && Elements(op.order) <= w.holds.Keys then Lost(w.holds, op.order, t) else 0
  }

  ghost function TotalLoss(w: World, ops: seq<Op>, t: TierId): int
    requires ForeignKeys(w) && ValidRun(w, ops)
    decreases |ops|
  {
    if ops == [] then 0 else LossOf(w, ops[0], t) + TotalLoss(Step(w, ops[0]), ops[1..], t)
  }

  /** No sweep of the run loses anything on `t`. */
  ghost predicate LosesNothing(w: World, ops: seq<Op>, t: TierId)
    requires ForeignKeys(w) && ValidRun(w, ops)
    decreases |ops|
  {
    ops != [] ==> LossOf(w, ops[0], t) == 0 && LosesNothing(Step(w, ops[0]), ops[1..], t)
  }

  lemma CreateLeak(w: World, c: CreateCall, t: TierId)
    requires Inv(w) && t in w.tiers && CreateRefusal(w, c).None?
    ensures Leak(AfterCreate(w, c), t) == Leak(w, t)
  {
    ActiveSumAfterInsert(w.holds, c.token, NewHold(c), t);
  }

  lemma ReleaseLeak(w: World, tok: Token, t: TierId)
    requires Inv(w) && t in w.tiers
    ensures t in AfterRelease(w, tok).tiers && Leak(AfterRelease(w, tok), t) == Leak(w, t)
  {
    if IsActive(w, tok) {
      ReleaseLeaves(w, tok);
      ReleaseEffectOn(w, tok, t);
    }
  }

  lemma SweepLeak(w: World, now: Time, order: seq<Token>, t: TierId)
    requires Inv(w) && t in w.tiers && Lists(order, Batch(w, now))
    ensures Elements(order) <= w.holds.Keys
    ensures t in AfterSweep(w, now, order).tiers
    ensures Leak(AfterSweep(w, now, order), t) == Leak(w, t) + Lost(w.holds, order, t)
  {
    SweepLeaves(w, now, order);
    SweepEffectOn(w, now, order, t);
  }

  lemma RefundLeak(w: World, pid: PaymentId, auditPk: Option<AuditId>, t: TierId)
    requires t in w.tiers
    ensures t in AfterRefund(w, pid, auditPk).tiers && Leak(AfterRefund(w, pid, auditPk), t) == Leak(w, t)
  {}

  /** One step changes the leak of a tier by exactly what a sweep loses there. */
  lemma StepLeak(w: World, op: Op, t: TierId)
    requires Inv(w) && Enabled(w, op) && t in w.tiers
    ensures t in Step(w, op).tiers
    ensures Leak(Step(w, op), t) == Leak(w, t) + LossOf(w, op, t)
    ensures LossOf(w, op, t) >= 0
  {
    match op
    case Create(c) => if CreateRefusal(w, c).None? { CreateLeak(w, c, t); }
    case Release(tok) => ReleaseLeak(w, tok, t);
    case Sweep(now, order) =>
      SweepLeak(w, now, order, t);
      LostNonNegative(w.holds, order, t);
    case Timeout(tok, now) => ReleaseLeak(w, tok, t);
    case Refund(pid, auditPk) => RefundLeak(w, pid, auditPk, t);
    case Fill(u, now) =>
  }

  /** The accounting law: held = ACTIVE quantity + leak, and the leak grows by exactly the quantities of
      all but the last hold of the tier in each swept batch. */
  lemma {:induction false} AccountingLaw(w: World, ops: seq<Op>, t: TierId)
    requires Inv(w) && ValidRun(w, ops) && t in w.tiers
    ensures t in Run(w, ops).tiers
    ensures Run(w, ops).tiers[t].held
         == ActiveSum(Run(w, ops).holds, t) + Leak(w, t) + TotalLoss(w, ops, t)
    ensures TotalLoss(w, ops, t) >= 0
    ensures TotalLoss(w, ops, t) == 0 <==> LosesNothing(w, ops, t)
    decreases |ops|
  {
    if ops != [] {
      StepLeak(w, ops[0], t);
      StepKeepsInv(w, ops[0]);
      AccountingLaw(Step(w, ops[0]), ops[1..], t);
    }
  }

  /** The counter equals the quantity of the ACTIVE holds exactly when it did at the start and no batch
      swept since then lost anything on the tier. */
  lemma HeldExactIff(w: World, ops: seq<Op>, t: TierId)
    requires Inv(w) && ValidRun(w, ops) && t in w.tiers
    ensures t in Run(w, ops).tiers
    ensures Run(w, ops).tiers[t].held == ActiveSum(Run(w, ops).holds, t)
       <==> w.tiers[t].held == ActiveSum(w.holds, t) && LosesNothing(w, ops, t)
  {
    assert CounterOk(w, t);
    AccountingLaw(w, ops, t);
  }

  /** Every batch of the run keeps its holds on pairwise distinct tiers. */
  ghost predicate DistinctBatches(w: World, ops: seq<Op>)
    requires ForeignKeys(w) && ValidRun(w, ops)
    decreases |ops|
  {
    ops != [] ==>
      && (ops[0].Sweep? && Elements(ops[0].order) <= w.holds.Keys ==> DistinctTiers(w.holds, ops[0].order))
      && DistinctBatches(Step(w, ops[0]), ops[1..])
  }

  lemma {:induction false} DistinctBatchesLoseNothing(w: World, ops: seq<Op>, t: TierId)
    requires ForeignKeys(w) && ValidRun(w, ops) && DistinctBatches(w, ops)
    ensures LosesNothing(w, ops, t)
    decreases |ops|
  {
    if ops != [] {
      if ops[0].Sweep? && Elements(ops[0].order) <= w.holds.Keys {
        LossesExactly(w.holds, ops[0].order);
      }
      DistinctBatchesLoseNothing(Step(w, ops[0]), ops[1..], t);
    }
  }

  /** One expired hold per tier and batch: every expired hold's quantity comes back. */
  lemma DistinctBatchesKeepHeldExact(w: World, ops: seq<Op>, t: TierId)
    requires Inv(w) && ValidRun(w, ops) && DistinctBatches(w, ops)
    requires t in w.tiers && w.tiers[t].held == ActiveSum(w.holds, t)
    ensures t in Run(w, ops).tiers && Run(w, ops).tiers[t].held == ActiveSum(Run(w, ops).holds, t)
  {
    DistinctBatchesLoseNothing(w, ops, t);
    HeldExactIff(w, ops, t);
  }

  // ----- with holds of at least one ticket, and nothing but counting rows -----

  ghost predicate PositiveHolds(holds: Holds)
  {
    forall tok :: tok in holds ==> holds[tok].quantity > 0
  }

  predicate PositiveCreates(ops: seq<Op>)
  {
    ops != [] ==> (ops[0].Create? ==> ops[0].call.quantity > 0) && PositiveCreates(ops[1..])
  }

  /** No batch of the run has two holds on `t`. */
  ghost predicate OneRowPerBatch(w: World, ops: seq<Op>, t: TierId)
    requires ForeignKeys(w) && ValidRun(w, ops)
    decreases |ops|
  {
    ops != [] ==>
      && (ops[0].Sweep? && Elements(ops[0].order) <= w.holds.Keys ==> CountOn(w.holds, ops[0].order, t) <= 1)
      && OneRowPerBatch(Step(w, ops[0]), ops[1..], t)
  }

  lemma LeavingKeepsPositive(w: World, w': World, batch: set<Token>, touched: set<TierId>)
    requires HoldsLeft(w, w', batch, touched) && PositiveHolds(w.holds)
    ensures PositiveHolds(w'.holds)
  {}

  lemma ReleaseKeepsPositive(w: World, tok: Token)
    requires Inv(w) && PositiveHolds(w.holds)
    ensures PositiveHolds(AfterRelease(w, tok).holds)
  {
    if IsActive(w, tok) {
      ReleaseLeaves(w, tok);
      LeavingKeepsPositive(w, AfterRelease(w, tok), {tok}, {w.holds[tok].tier});
    }
  }

  lemma SweepKeepsPositive(w: World, now: Time, order: seq<Token>)
    requires Inv(w) && Lists(order, Batch(w, now)) && PositiveHolds(w.holds)
    ensures PositiveHolds(AfterSweep(w, now, order).holds)
  {
    SweepLeaves(w, now, order);
    LeavingKeepsPositive(w, AfterSweep(w, now, order), Elements(order), Touched(w.holds, order));
  }

  lemma StepKeepsPositive(w: World, op: Op)
    requires Inv(w) && Enabled(w, op) && PositiveHolds(w.holds) && (op.Create? ==> op.call.quantity > 0)
    ensures PositiveHolds(Step(w, op).holds)
  {
    match op
    case Create(_) =>
    case Release(tok) => ReleaseKeepsPositive(w, tok);
    case Sweep(now, order) => SweepKeepsPositive(w, now, order);
    case Timeout(tok, _) => ReleaseKeepsPositive(w, tok);
    case Refund(_, _) =>
    case Fill(_, _) =>
  }

  lemma LossExactlyIfTwoRows(w: World, op: Op, t: TierId)
    requires PositiveHolds(w.holds)
    ensures LossOf(w, op, t) == 0
       <==> (op.Sweep? && Elements(op.order) <= w.holds.Keys ==> CountOn(w.holds, op.order, t) <= 1)
  {
    if op.Sweep? && Elements(op.order) <= w.holds.Keys {
      LostNothingExactly(w.holds, op.order, t);
    }
  }

  lemma {:induction false} LosesNothingExactly(w: World, ops: seq<Op>, t: TierId)
    requires Inv(w) && ValidRun(w, ops) && PositiveHolds(w.holds) && PositiveCreates(ops)
    ensures LosesNothing(w, ops, t) <==> OneRowPerBatch(w, ops, t)
    decreases |ops|
  {
    if ops != [] {
      StepKeepsInv(w, ops[0]);
      StepKeepsPositive(w, ops[0]);
      LossExactlyIfTwoRows(w, ops[0], t);
      LosesNothingExactly(Step(w, ops[0]), ops[1..], t);
    }
  }

  /** With holds of at least one ticket, the counter of a tier is exact after a run exactly when it was
      before and no batch swept in the run had two rows of that tier. */
  lemma HeldExactExactly(w: World, ops: seq<Op>, t: TierId)
    requires Inv(w) && ValidRun(w, ops) && PositiveHolds(w.holds) && PositiveCreates(ops) && t in w.tiers
    ensures t in Run(w, ops).tiers
    ensures Run(w, ops).tiers[t].held == ActiveSum(Run(w, ops).holds, t)
       <==> w.tiers[t].held == ActiveSum(w.holds, t) && OneRowPerBatch(w, ops, t)
  {
    HeldExactIff(w, ops, t);
    LosesNothingExactly(w, ops, t);
  }

  /** One tier of ten tickets with two ACTIVE holds, of 3 and 4 tickets, both past their expiry. */
  function TwoExpiredHolds(): World
  {
    var ha, hb := CheckoutHold(1, 0, 3, Active, 50), CheckoutHold(2, 0, 4, Active, 60);
    World(
      map[0 := TicketTier(0, 10, 7, 0, SaleTerms(0, None, None, true, 0))],
      map[1 := ha, 2 := hb],
      map[], map[],
      map[1 := 50, 2 := 60],
      map[1 := Cached(EntryOf(ha), 60 * SECOND), 2 := Cached(EntryOf(hb), 60 * SECOND)],
      map[])
  }

  lemma TwoHoldsSum(holds: Holds, a: Token, b: Token, t: TierId)
    requires holds.Keys == {a, b} && a != b
    requires holds[a].tier == t && holds[b].tier == t && holds[a].status == Active && holds[b].status == Active
    ensures ActiveSum(holds, t) == holds[a].quantity + holds[b].quantity
  {
    assert ActiveOn(holds, t) == {a, b};
    SumQtyRemove(holds, {a, b}, a);
    assert {a, b} - {a} == {b};
    SumQtyRemove(holds, {b}, b);
    assert {b} - {b} == {};
  }

  lemma TwoExpiredHoldsCounters()
    ensures ForeignKeys(TwoExpiredHolds()) && CountersOk(TwoExpiredHolds()) && GuardOk(TwoExpiredHolds())
    ensures ActiveSum(TwoExpiredHolds().holds, 0) == 7
  {
    var w := TwoExpiredHolds();
    TwoHoldsSum(w.holds, 1, 2, 0);
    assert Backed(w, 0) == {};
    forall user, event
      ensures |ActiveHolds(w.tiers, w.holds, user, event)| <= 2
    {
      SubsetCardinality(ActiveHolds(w.tiers, w.holds, user, event), {1, 2});
    }
  }

  lemma TwoExpiredHoldsInv()
    ensures Inv(TwoExpiredHolds())
  {
    TwoExpiredHoldsCounters();
  }

  lemma ListsTwo(a: Token, b: Token)
    requires a != b
    ensures Lists([a, b], {a, b}) && Front([a, b]) == [a] && Front([a]) == []
  {
    assert Front([a, b]) == [a] && Front([a]) == [];
    assert Elements([a]) == {} + {a} && Elements([a, b]) == {a} + {b};
  }

  lemma TwoRows(holds: Holds, a: Token, b: Token, t: TierId)
    requires a in holds && b in holds && a != b && holds[a].tier == t == holds[b].tier
    ensures Elements([a, b]) == {a, b}
    ensures BatchQty(holds, [a, b], t) == holds[a].quantity + holds[b].quantity
    ensures GivenBack(holds, [a, b], t) == holds[b].quantity
  {
    ListsTwo(a, b);
    assert BatchQty(holds, [a], t) == holds[a].quantity;
  }

  /** A batch of two holds on one tier: both leave the active sum, only the second one's quantity
      leaves the counter. */
  lemma SweepOfTwo(w: World, now: Time, a: Token, b: Token)
    requires Inv(w) && a != b && Batch(w, now) == {a, b} && w.holds[a].tier == w.holds[b].tier
    ensures Lists([a, b], Batch(w, now))
    ensures var w', t := AfterSweep(w, now, [a, b]), w.holds[a].tier;
            && t in w'.tiers
            && w'.tiers[t].held == w.tiers[t].held - w.holds[b].quantity
            && ActiveSum(w'.holds, t) == ActiveSum(w.holds, t) - w.holds[a].quantity - w.holds[b].quantity
  {
    var t := w.holds[a].tier;
    ListsTwo(a, b);
    SweepLeaves(w, now, [a, b]);
    SweepEffectOn(w, now, [a, b], t);
    assert a in Batch(w, now) && b in Batch(w, now);
    TwoRows(w.holds, a, b, t);
  }

  /** "Restore inventory for each expired hold" is not what the sweep does: in this world, which meets
      the invariant, both holds expire and 3 of their 7 tickets stay held for ever. */
  lemma SweepKeepsThreeTicketsHeld()
    ensures Inv(TwoExpiredHolds())
    ensures Lists([1, 2], Batch(TwoExpiredHolds(), 100))
    ensures var w' := AfterSweep(TwoExpiredHolds(), 100, [1, 2]);
            0 in w'.tiers && w'.tiers[0].held == 3 && ActiveSum(w'.holds, 0) == 0
  {
    TwoExpiredHoldsCounters();
    TwoExpiredHoldsInv();
    assert Batch(TwoExpiredHolds(), 100) == {1, 2};
    SweepOfTwo(TwoExpiredHolds(), 100, 1, 2);
  }

  /** No oversell: in every reachable state the three parts of each tier add up to its total, so
      availability is never clipped, and held covers at least the ACTIVE holds. */
  lemma NoOversell(w: World, ops: seq<Op>, t: TierId)
    requires Inv(w) && ValidRun(w, ops) && t in w.tiers
    ensures t in Run(w, ops).tiers
    ensures var tier := Run(w, ops).tiers[t];
            tier.QuantityAvailable() + tier.held + tier.sold == tier.total == w.tiers[t].total
    ensures Run(w, ops).tiers[t].held >= ActiveSum(Run(w, ops).holds, t)
  {
    RunKeepsInv(w, ops);
    TotalsFixed(w, ops, t);
    assert CounterOk(Run(w, ops), t);
  }

  /** After any run, a create within the abuse guard is refused for lack of stock exactly when the tickets
      sold, the ACTIVE holds, everything sweeps failed to give back and the request exceed the total:
      each lost ticket is one fewer to hold. */
  lemma StockRefusalExactly(w: World, ops: seq<Op>, c: CreateCall)
    requires Inv(w) && ValidRun(w, ops) && c.tier in w.tiers
    ensures c.tier in Run(w, ops).tiers
    ensures var w' := Run(w, ops);
            CreateRefusal(w', c) == Some(InsufficientInventory) <==>
              && |ActiveHolds(w'.tiers, w'.holds, c.user, w'.tiers[c.tier].event)| < 2
              && w'.tiers[c.tier].sold + ActiveSum(w'.holds, c.tier) + Leak(w, c.tier) + TotalLoss(w, ops, c.tier)
                 + c.quantity > w.tiers[c.tier].total
  {
    AccountingLaw(w, ops, c.tier);
    NoOversell(w, ops, c.tier);
  }

  lemma StepFixesTotals(w: World, op: Op, t: TierId)
    requires ForeignKeys(w) && Enabled(w, op) && t in w.tiers
    ensures t in Step(w, op).tiers && Step(w, op).tiers[t].total == w.tiers[t].total
    ensures Step(w, op).tiers[t].event == w.tiers[t].event
  {}

  lemma {:induction false} TotalsFixed(w: World, ops: seq<Op>, t: TierId)
    requires ForeignKeys(w) && ValidRun(w, ops) && t in w.tiers
    ensures t in Run(w, ops).tiers && Run(w, ops).tiers[t].total == w.tiers[t].total
    decreases |ops|
  {
    if ops != [] {
      StepFixesTotals(w, ops[0], t);
      TotalsFixed(Step(w, ops[0]), ops[1..], t);
    }
  }

  /** The abuse guard over serial runs: a user never has more than two ACTIVE holds on one event. */
  lemma GuardHolds(w: World, ops: seq<Op>, user: UserId, event: EventId)
    requires Inv(w) && ValidRun(w, ops)
    ensures |ActiveHolds(Run(w, ops).tiers, Run(w, ops).holds, user, event)| <= 2
  {
    RunKeepsInv(w, ops);
  }
}
