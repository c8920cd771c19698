/** The invariant of the hold engine, kept by every operation. */
module HoldInvariants {
  import opened Wrappers
  import opened Inventory
  import opened Sequences
  import opened Records
  import opened HoldSums
  import opened CheckoutServices
  import opened CheckoutTasks
  import opened Refunds
  import opened HoldRuns
  import opened SweepAccounting
  import ExpiryHeap
  import HoldRegistry

  /** Tickets of a tier that a succeeded payment still pays for. */
  function Backed(w: World, t: TierId): set<TicketId>
  {
    set id | id in w.tickets && w.tickets[id].tier == t && w.tickets[id].payment.Some?
             && w.tickets[id].payment.value in w.payments
             && w.payments[w.tickets[id].payment.value].status == Succeeded
  }

  /** The held counter covers the ACTIVE holds, the sold counter the paid tickets, and together they
      fit into the total. */
  ghost predicate CounterOk(w: World, t: TierId)
    requires t in w.tiers
  {
    && ActiveSum(w.holds, t) <= w.tiers[t].held
    && w.tiers[t].held + w.tiers[t].sold <= w.tiers[t].total
    && |Backed(w, t)| <= w.tiers[t].sold
  }

  ghost predicate CountersOk(w: World)
  {
    forall t :: t in w.tiers ==> CounterOk(w, t)
  }

  /** No user has more than the allowed number of ACTIVE holds on one event. */
  ghost predicate GuardOk(w: World)
  {
    forall user, event :: |ActiveHolds(w.tiers, w.holds, user, event)| <= MAX_HOLDS_PER_USER_PER_EVENT
  }

  /** Every ACTIVE hold waits in the expiry set under its own expiry. */
  ghost predicate ExpiryOk(w: World)
  {
    forall tok :: IsActive(w, tok) ==>
      tok in w.expiry && w.expiry[tok] == w.holds[tok].expiresAt && 0 <= w.holds[tok].expiresAt
  }

  /** Registry entries belong to ACTIVE holds and repeat them; every ACTIVE hold has one that outlives
      it by more than 59 seconds. */
  ghost predicate RegistryOk(w: World)
  {
    && (forall tok :: tok in w.registry ==> IsActive(w, tok) && w.registry[tok].value == EntryOf(w.holds[tok]))
    && (forall tok :: IsActive(w, tok) ==>
          tok in w.registry && w.registry[tok].deadline > w.holds[tok].expiresAt + 59 * SECOND)
  }

  function EntryOf(h: CheckoutHold): HoldEntry
  {
    HoldEntry(h.tier, h.quantity, h.expiresAt, h.user)
  }

  /** A cached availability never promises more than there is. */
  ghost predicate CacheOk(w: World)
  {
    forall t :: t in w.availability ==> t in w.tiers && w.availability[t].value <= w.tiers[t].QuantityAvailable()
  }

  ghost predicate Inv(w: World)
  {
    ForeignKeys(w) && CountersOk(w) && GuardOk(w) && ExpiryOk(w) && RegistryOk(w) && CacheOk(w)
  }

  // ----- creating a hold -----

  lemma CreateKeepsCounter(w: World, c: CreateCall, t: TierId)
    requires Inv(w) && CreateRefusal(w, c).None? && t in w.tiers
    ensures t in AfterCreate(w, c).tiers && CounterOk(AfterCreate(w, c), t)
  {
    assert CounterOk(w, t);
    ActiveSumAfterInsert(w.holds, c.token, NewHold(c), t);
    assert Backed(AfterCreate(w, c), t) == Backed(w, t);
  }

  lemma CreateKeepsCounters(w: World, c: CreateCall)
    requires Inv(w) && CreateRefusal(w, c).None?
    ensures CountersOk(AfterCreate(w, c)) && CacheOk(AfterCreate(w, c))
  {
    forall t | t in AfterCreate(w, c).tiers
      ensures CounterOk(AfterCreate(w, c), t)
    {
      CreateKeepsCounter(w, c, t);
    }
  }

  lemma CreateKeepsGuard(w: World, c: CreateCall)
    requires Inv(w) && CreateRefusal(w, c).None?
    ensures GuardOk(AfterCreate(w, c))
  {
    var w' := AfterCreate(w, c);
    forall user, event
      ensures |ActiveHolds(w'.tiers, w'.holds, user, event)| <= MAX_HOLDS_PER_USER_PER_EVENT
    {
      assert |ActiveHolds(w.tiers, w.holds, user, event)| <= MAX_HOLDS_PER_USER_PER_EVENT;
      ActiveHoldsAfterInsert(w.tiers, w'.tiers, w.holds, c.token, NewHold(c), user, event);
    }
  }

  /** A new ACTIVE hold enters the expiry set and the registry with its own values. */
  lemma InsertKeepsRegistries(w: World, w': World, tok: Token, h: CheckoutHold, deadline: Time)
    requires ExpiryOk(w) && RegistryOk(w) && tok !in w.holds
    requires h.status == Active && 0 <= h.expiresAt && deadline > h.expiresAt + 59 * SECOND
    requires w'.holds == w.holds[tok := h] && w'.expiry == w.expiry[tok := h.expiresAt]
    requires w'.registry == w.registry[tok := Cached(EntryOf(h), deadline)]
    ensures ExpiryOk(w') && RegistryOk(w')
  {
    forall x
      ensures IsActive(w', x) <==> x == tok || IsActive(w, x)
    {}
  }

  lemma CreateKeepsRegistries(w: World, c: CreateCall)
    requires Inv(w) && CreateRefusal(w, c).None? && Enabled(w, Create(c))
    ensures ExpiryOk(AfterCreate(w, c)) && RegistryOk(AfterCreate(w, c))
  {
    var cached := HoldRegistry.Registered(NewEntry(c), c.ttlNow, c.storedAt);
    HoldRegistry.EntryOutlivesHold(NewEntry(c), c.ttlNow, c.storedAt);
    InsertKeepsRegistries(w, AfterCreate(w, c), c.token, NewHold(c), cached.deadline);
  }

  lemma CreateKeepsInv(w: World, c: CreateCall)
    requires Inv(w) && Enabled(w, Create(c))
    ensures Inv(AfterCreate(w, c))
  {
    if CreateRefusal(w, c).None? {
      CreateKeepsCounters(w, c);
      CreateKeepsGuard(w, c);
      CreateKeepsRegistries(w, c);
    }
  }

  // ----- holds leaving ACTIVE -----

  /** What a release and a sweep have in common: exactly the holds of `batch` leave ACTIVE, and their
      registry entries and the cached availabilities of their tiers go with them. */
  ghost predicate HoldsLeft(w: World, w': World, batch: set<Token>, touched: set<TierId>)
  {
    && LeftActive(w.holds, w'.holds, batch)
    && w'.registry == w.registry - batch
    && w'.payments == w.payments && w'.tickets == w.tickets
    && w'.tiers.Keys == w.tiers.Keys
    && (forall t :: t in w.tiers ==> w'.tiers[t] == w.tiers[t].(held := w'.tiers[t].held))
    && w'.availability == w.availability - touched
    && (forall tok :: tok in batch ==> w.holds[tok].tier in touched)
    && (forall tok :: IsActive(w', tok) && tok in w.expiry ==> tok in w'.expiry && w'.expiry[tok] == w.expiry[tok])
  }

  /** Each counter ends between the quantity still ACTIVE and its old value, and is untouched where no
      hold left. */
  ghost predicate HeldInRange(w: World, w': World, touched: set<TierId>)
    requires w'.tiers.Keys == w.tiers.Keys
  {
    forall t :: t in w.tiers ==>
      && ActiveSum(w'.holds, t) <= w'.tiers[t].held <= w.tiers[t].held
      && (t !in touched ==> w'.tiers[t].held == w.tiers[t].held)
  }

  lemma LeavingKeepsRegistries(w: World, w': World, batch: set<Token>, touched: set<TierId>)
    requires Inv(w) && HoldsLeft(w, w', batch, touched)
    ensures ExpiryOk(w') && RegistryOk(w') && GuardOk(w') && ForeignKeys(w')
  {
    forall tok
      ensures IsActive(w', tok) <==> IsActive(w, tok) && tok !in batch
      ensures tok in w.holds ==> w'.holds[tok].tier == w.holds[tok].tier
    {}
    forall user, event
      ensures |ActiveHolds(w'.tiers, w'.holds, user, event)| <= MAX_HOLDS_PER_USER_PER_EVENT
    {
      assert |ActiveHolds(w.tiers, w.holds, user, event)| <= MAX_HOLDS_PER_USER_PER_EVENT;
      ActiveHoldsAfterLeaving(w.tiers, w'.tiers, w.holds, w'.holds, batch, user, event);
    }
  }

  lemma LeavingKeepsCounters(w: World, w': World, batch: set<Token>, touched: set<TierId>)
    requires Inv(w) && HoldsLeft(w, w', batch, touched) && HeldInRange(w, w', touched)
    ensures CountersOk(w') && CacheOk(w')
  {
    forall t | t in w'.tiers
      ensures CounterOk(w', t)
    {
      assert CounterOk(w, t);
      assert Backed(w', t) == Backed(w, t);
    }
  }

  // ----- releasing one hold -----

  lemma ActiveQtyHeld(w: World, tok: Token)
    requires ForeignKeys(w) && CountersOk(w) && IsActive(w, tok)
    ensures w.holds[tok].quantity <= w.tiers[w.holds[tok].tier].held
  {
    var t := w.holds[tok].tier;
    assert CounterOk(w, t);
    SumQtyAtLeast(w.holds, ActiveOn(w.holds, t), tok);
  }

  lemma RestoredLeaves(w: World, tok: Token, held: nat)
    requires ForeignKeys(w) && IsActive(w, tok)
    ensures HoldsLeft(w, Restored(w, tok, Released, held), {tok}, {w.holds[tok].tier})
  {
    OneLeaves(w.holds, tok, Released);
  }

  lemma ReleaseLeaves(w: World, tok: Token)
    requires ForeignKeys(w) && CountersOk(w) && IsActive(w, tok)
    ensures !ReleaseRaises(w, tok)
    ensures HoldsLeft(w, AfterRelease(w, tok), {tok}, {w.holds[tok].tier})
  {
    ActiveQtyHeld(w, tok);
    RestoredLeaves(w, tok, HeldAfterRelease(w, tok));
  }

  /** In a reachable state a release is never refused; it takes the hold's quantity out of the counter
      and out of the active sum of its tier, and nothing out of any other tier. */
  lemma ReleaseEffectOn(w: World, tok: Token, t: TierId)
    requires ForeignKeys(w) && CountersOk(w) && IsActive(w, tok) && t in w.tiers
    ensures ActiveSum(w.holds, t) - ActiveSum(AfterRelease(w, tok).holds, t)
         == w.tiers[t].held - AfterRelease(w, tok).tiers[t].held
         == if t == w.holds[tok].tier then w.holds[tok].quantity else 0
  {
    ReleaseLeaves(w, tok);
    ActiveSumAfterOne(w.holds, AfterRelease(w, tok).holds, tok, t);
  }

  lemma ReleaseKeepsInv(w: World, tok: Token)
    requires Inv(w)
    ensures Inv(AfterRelease(w, tok))
  {
    if IsActive(w, tok) {
      var w' := AfterRelease(w, tok);
      var touched := {w.holds[tok].tier};
      ReleaseLeaves(w, tok);
      LeavingKeepsRegistries(w, w', {tok}, touched);
      forall t | t in w.tiers
        ensures ActiveSum(w'.holds, t) <= w'.tiers[t].held <= w.tiers[t].held
        ensures t !in touched ==> w'.tiers[t].held == w.tiers[t].held
      {
        assert CounterOk(w, t);
        ReleaseEffectOn(w, tok, t);
      }
      LeavingKeepsCounters(w, w', {tok}, touched);
    }
  }

  // ----- sweeping -----

  lemma SweepNotRefused(w: World, order: seq<Token>)
    requires ForeignKeys(w) && CountersOk(w)
    requires forall tok :: tok in Elements(order) ==> IsActive(w, tok)
    ensures Elements(order) <= w.holds.Keys && FirstRefused(w.tiers, w.holds, order) == |order|
  {
    forall i | 0 <= i < |order|
      ensures !Refused(w.tiers, w.holds, order[i])
    {
      ItemWithin(order, i);
      ActiveQtyHeld(w, order[i]);
    }
    NothingRefused(w.tiers, w.holds, order);
  }

  /** The world an undisturbed sweep leaves, field by field. */
  ghost predicate SweptTo(w: World, now: Time, order: seq<Token>, w': World)
    requires Elements(order) <= w.holds.Keys
  {
    && w'.payments == w.payments && w'.tickets == w.tickets
    && w'.expiry == w.expiry - ExpiryHeap.Due(w.expiry, now)
    && w'.holds == StatusesAfter(w.holds, order)
    && w'.tiers == CountersAfter(w.tiers, w.holds, order)
    && w'.registry == w.registry - Elements(order)
    && w'.availability == w.availability - Touched(w.holds, order)
  }

  lemma SweepWorld(w: World, now: Time, order: seq<Token>)
    requires ForeignKeys(w) && CountersOk(w) && Lists(order, Batch(w, now))
    ensures Elements(order) <= w.holds.Keys && !SweepRaises(w, order)
    ensures SweptTo(w, now, order, AfterSweep(w, now, order))
  {
    SweepNotRefused(w, order);
    assert order[..|order|] == order;
  }

  lemma StatusesLeave(holds: Holds, order: seq<Token>)
    requires Elements(order) <= holds.Keys
    requires forall tok :: tok in Elements(order) ==> holds[tok].status == Active
    ensures LeftActive(holds, StatusesAfter(holds, order), Elements(order))
  {}

  lemma OnlyHeldWritten(snapshot: Tiers, holds: Holds, order: seq<Token>)
    requires Elements(order) <= holds.Keys
    ensures var tiers' := CountersAfter(snapshot, holds, order);
            tiers'.Keys == snapshot.Keys
            && forall t :: t in snapshot ==> tiers'[t] == snapshot[t].(held := tiers'[t].held)
  {}

  lemma {:induction false} AllTouched(holds: Holds, order: seq<Token>)
    requires Elements(order) <= holds.Keys
    ensures forall tok :: tok in Elements(order) ==> holds[tok].tier in Touched(holds, order)
  {
    if order != [] {
      AllTouched(holds, Front(order));
    }
  }

  lemma SweptLeaves(w: World, now: Time, order: seq<Token>, w': World)
    requires Lists(order, Batch(w, now)) && Elements(order) <= w.holds.Keys && SweptTo(w, now, order, w')
    ensures HoldsLeft(w, w', Elements(order), Touched(w.holds, order))
  {
    StatusesLeave(w.holds, order);
    OnlyHeldWritten(w.tiers, w.holds, order);
    AllTouched(w.holds, order);
  }

  lemma SweepLeaves(w: World, now: Time, order: seq<Token>)
    requires ForeignKeys(w) && CountersOk(w) && Lists(order, Batch(w, now))
    ensures Elements(order) <= w.holds.Keys
    ensures HoldsLeft(w, AfterSweep(w, now, order), Elements(order), Touched(w.holds, order))
  {
    SweepWorld(w, now, order);
    SweptLeaves(w, now, order, AfterSweep(w, now, order));
  }

  lemma SweptEffectOn(w: World, now: Time, order: seq<Token>, w': World, t: TierId)
    requires ForeignKeys(w) && CountersOk(w) && Lists(order, Batch(w, now)) && t in w.tiers
    requires Elements(order) <= w.holds.Keys && SweptTo(w, now, order, w')
    ensures t in w'.tiers && w.tiers[t].held - w'.tiers[t].held == GivenBack(w.holds, order, t)
    ensures ActiveSum(w.holds, t) - ActiveSum(w'.holds, t) == BatchQty(w.holds, order, t)
  {
    StatusesLeave(w.holds, order);
    ActiveSumAfterLeaving(w.holds, w'.holds, Elements(order), t);
    BatchQtyIsSum(w.holds, order, t);
    forall tok | tok in Elements(order) && w.holds[tok].tier == t
      ensures w.holds[tok].quantity <= w.tiers[t].held
    {
      ActiveQtyHeld(w, tok);
    }
    GivenBackBounded(w.holds, order, t, w.tiers[t].held);
  }

  /** The sweep takes the whole batch out of the active sum of a tier, but only the last hold's quantity
      out of its counter. */
  lemma SweepEffectOn(w: World, now: Time, order: seq<Token>, t: TierId)
    requires ForeignKeys(w) && CountersOk(w) && Lists(order, Batch(w, now)) && t in w.tiers
    ensures Elements(order) <= w.holds.Keys && t in AfterSweep(w, now, order).tiers
    ensures w.tiers[t].held - AfterSweep(w, now, order).tiers[t].held == GivenBack(w.holds, order, t)
    ensures ActiveSum(w.holds, t) - ActiveSum(AfterSweep(w, now, order).holds, t) == BatchQty(w.holds, order, t)
  {
    SweepWorld(w, now, order);
    SweptEffectOn(w, now, order, AfterSweep(w, now, order), t);
  }

  lemma SweepKeepsInv(w: World, now: Time, order: seq<Token>)
    requires Inv(w) && Lists(order, Batch(w, now))
    ensures Inv(AfterSweep(w, now, order))
  {
    var w' := AfterSweep(w, now, order);
    SweepLeaves(w, now, order);
    var touched := Touched(w.holds, order);
    LeavingKeepsRegistries(w, w', Elements(order), touched);
    forall t | t in w.tiers
      ensures ActiveSum(w'.holds, t) <= w'.tiers[t].held <= w.tiers[t].held
      ensures t !in touched ==> w'.tiers[t].held == w.tiers[t].held
    {
      assert CounterOk(w, t);
      SweepEffectOn(w, now, order, t);
      LostNonNegative(w.holds, order, t);
      TouchedHasLast(w.holds, order, t);
    }
    LeavingKeepsCounters(w, w', Elements(order), touched);
  }

  // ----- refunds, timeouts and cache fills -----

  /** A refund takes the payment's tickets out of the paid ones and out of the sold counter alike. */
  lemma RefundEffectOn(w: World, pid: PaymentId, t: TierId)
    requires pid in w.payments && w.payments[pid].status == Succeeded
    ensures var w' := TicketsRestored(MarkRefunded(w, pid), TicketsOf(w, pid));
            |Backed(w, t)| == |Backed(w', t)| + |TicketsOnTier(w, TicketsOf(w, pid), t)|
  {
    var w' := TicketsRestored(MarkRefunded(w, pid), TicketsOf(w, pid));
    var gone := TicketsOnTier(w, TicketsOf(w, pid), t);
    assert Backed(w', t) == Backed(w, t) - gone;
    assert Backed(w, t) == Backed(w', t) + gone;
  }

  lemma RefundCovered(w: World, pid: PaymentId)
    requires CountersOk(w) && pid in w.payments && w.payments[pid].status == Succeeded
    ensures SoldCovers(w, TicketsOf(w, pid))
  {
    forall t | t in w.tiers
      ensures |TicketsOnTier(w, TicketsOf(w, pid), t)| <= w.tiers[t].sold
    {
      assert CounterOk(w, t);
      RefundEffectOn(w, pid, t);
    }
  }

  lemma RestoringKeepsHolds(w: World, w': World, user: UserId, event: EventId)
    requires SameEvents(w.tiers, w'.tiers) && w'.holds == w.holds
    ensures ActiveHolds(w'.tiers, w'.holds, user, event) == ActiveHolds(w.tiers, w.holds, user, event)
  {}

  lemma RefundKeepsCounters(w: World, pid: PaymentId, auditPk: Option<AuditId>)
    requires ForeignKeys(w) && CountersOk(w) && CacheOk(w) && RefundFailure(w, pid, auditPk).None?
    ensures CountersOk(AfterRefund(w, pid, auditPk)) && CacheOk(AfterRefund(w, pid, auditPk))
  {
    var w' := AfterRefund(w, pid, auditPk);
    forall t | t in w.tiers
      ensures CounterOk(w', t)
      ensures w.tiers[t].QuantityAvailable() <= w'.tiers[t].QuantityAvailable()
    {
      assert CounterOk(w, t);
      RefundEffectOn(w, pid, t);
    }
  }

  lemma RefundKeepsGuard(w: World, pid: PaymentId, auditPk: Option<AuditId>)
    requires GuardOk(w)
    ensures GuardOk(AfterRefund(w, pid, auditPk))
  {
    var w' := AfterRefund(w, pid, auditPk);
    forall user, event
      ensures |ActiveHolds(w'.tiers, w'.holds, user, event)| <= MAX_HOLDS_PER_USER_PER_EVENT
    {
      RestoringKeepsHolds(w, w', user, event);
      assert |ActiveHolds(w.tiers, w.holds, user, event)| <= MAX_HOLDS_PER_USER_PER_EVENT;
    }
  }

  /** Neither a refund nor a cache fill touches holds, the expiry set or the registry. */
  lemma SameHoldsSameRegistries(w: World, w': World)
    requires ExpiryOk(w) && RegistryOk(w)
    requires w'.holds == w.holds && w'.expiry == w.expiry && w'.registry == w.registry
    ensures ExpiryOk(w') && RegistryOk(w')
  {
    assert forall tok :: IsActive(w', tok) <==> IsActive(w, tok);
  }

  lemma RefundKeepsInv(w: World, pid: PaymentId, auditPk: Option<AuditId>)
    requires Inv(w)
    ensures Inv(AfterRefund(w, pid, auditPk))
  {
    if RefundFailure(w, pid, auditPk).None? {
      RefundKeepsKeys(w, pid, auditPk);
      RefundKeepsCounters(w, pid, auditPk);
      RefundKeepsGuard(w, pid, auditPk);
      SameHoldsSameRegistries(w, AfterRefund(w, pid, auditPk));
    }
  }

  lemma SameDatabaseSameCounters(w: World, w': World)
    requires CountersOk(w) && GuardOk(w)
    requires w'.tiers == w.tiers && w'.holds == w.holds && w'.tickets == w.tickets && w'.payments == w.payments
    ensures CountersOk(w') && GuardOk(w')
  {
    forall t | t in w.tiers
      ensures CounterOk(w', t)
    {
      assert CounterOk(w, t) && Backed(w', t) == Backed(w, t);
    }
    forall user, event
      ensures |ActiveHolds(w'.tiers, w'.holds, user, event)| <= MAX_HOLDS_PER_USER_PER_EVENT
    {
      assert |ActiveHolds(w.tiers, w.holds, user, event)| <= MAX_HOLDS_PER_USER_PER_EVENT;
    }
  }

  lemma FillKeepsCache(w: World, t: TierId, now: Time)
    requires ForeignKeys(w) && CacheOk(w)
    ensures CacheOk(AfterFill(w, t, now))
  {}

  lemma FillKeepsInv(w: World, t: TierId, now: Time)
    requires Inv(w)
    ensures Inv(AfterFill(w, t, now))
  {
    if t in w.tiers {
      var w' := AfterFill(w, t, now);
      FillKeepsCache(w, t, now);
      SameDatabaseSameCounters(w, w');
      SameHoldsSameRegistries(w, w');
    }
  }

  lemma StepKeepsInv(w: World, op: Op)
    requires Inv(w) && Enabled(w, op)
    ensures Inv(Step(w, op))
  {
    match op
    case Create(c) => CreateKeepsInv(w, c);
    case Release(tok) => ReleaseKeepsInv(w, tok);
    case Sweep(now, order) => SweepKeepsInv(w, now, order);
    case Timeout(tok, now) => ReleaseKeepsInv(w, tok);
    case Refund(pid, auditPk) => RefundKeepsInv(w, pid, auditPk);
    case Fill(t, now) => FillKeepsInv(w, t, now);
  }

  /** The invariant holds after every serial run. */
  lemma {:induction false} RunKeepsInv(w: World, ops: seq<Op>)
    requires Inv(w) && ValidRun(w, ops)
    ensures Inv(Run(w, ops))
    decreases |ops|
  {
    if ops != [] {
      StepKeepsInv(w, ops[0]);
      RunKeepsInv(Step(w, ops[0]), ops[1..]);
    }
  }
}
