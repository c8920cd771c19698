/** What a serial create answers, what it leaves behind, and how long its hold can be looked up. */
module CreateTheorems {
  import opened Wrappers
  import opened Inventory
  import opened Records
  import opened HoldSums
  import opened CheckoutServices
  import opened HoldRuns
  import opened HoldInvariants
  import opened LifecycleTheorems
  import CheckoutTasks
  import HoldRegistry
  import PaymentTasks
  import Sequences

  // ----- the answer -----

  /** After every serial run, which answer a create gets: each outcome exactly on its own condition. */
  lemma CreateOutcomeExactly(w: World, ops: seq<Op>, c: CreateCall)
    requires Inv(w) && ValidRun(w, ops)
    ensures var w' := Run(w, ops);
            var known := c.tier in w'.tiers;
            var mine := set tok | tok in w'.holds && w'.holds[tok].user == c.user && w'.holds[tok].status == Active
                                  && w'.holds[tok].tier in w'.tiers && known
                                  && w'.tiers[w'.holds[tok].tier].event == w'.tiers[c.tier].event;
            var fits := known && w'.tiers[c.tier].held + w'.tiers[c.tier].sold + c.quantity <= w'.tiers[c.tier].total;
            var storable := c.quantity >= 0 && c.token !in w'.holds;
            && (CreateRefusal(w', c) == Some(TierNotFound) <==> !known)
            && (CreateRefusal(w', c) == Some(HoldAbuse) <==> known && |mine| >= 2)
            && (CreateRefusal(w', c) == Some(InsufficientInventory) <==> known && |mine| < 2 && !fits)
            && (CreateRefusal(w', c) == Some(ConstraintViolation) <==> known && |mine| < 2 && fits && !storable)
            && (CreateRefusal(w', c) == None <==> known && |mine| < 2 && fits && storable)
  {
    RunKeepsInv(w, ops);
    OutcomeExactly(Run(w, ops), c);
    if c.tier in Run(w, ops).tiers {
      SameHolders(Run(w, ops), c);
    }
  }

  lemma SameHolders(w: World, c: CreateCall)
    requires c.tier in w.tiers
    ensures (set tok | tok in w.holds && w.holds[tok].user == c.user && w.holds[tok].status == Active
                       && w.holds[tok].tier in w.tiers && c.tier in w.tiers
                       && w.tiers[w.holds[tok].tier].event == w.tiers[c.tier].event)
         == ActiveHolds(w.tiers, w.holds, c.user, w.tiers[c.tier].event)
  {}

  lemma OutcomeExactly(w: World, c: CreateCall)
    requires Inv(w)
    ensures CreateRefusal(w, c) == Some(TierNotFound) <==> c.tier !in w.tiers
    ensures c.tier in w.tiers ==>
              var tier := w.tiers[c.tier];
              var mine := |ActiveHolds(w.tiers, w.holds, c.user, tier.event)|;
              var fits := tier.held + tier.sold + c.quantity <= tier.total;
              var storable := c.quantity >= 0 && c.token !in w.holds;
              && (CreateRefusal(w, c) == Some(HoldAbuse) <==> mine >= 2)
              && (CreateRefusal(w, c) == Some(InsufficientInventory) <==> mine < 2 && !fits)
              && (CreateRefusal(w, c) == Some(ConstraintViolation) <==> mine < 2 && fits && !storable)
              && (CreateRefusal(w, c) == None <==> mine < 2 && fits && storable)
  {
    if c.tier in w.tiers {
      assert CounterOk(w, c.tier);
    }
  }

  // ----- the effect -----

  /** A create changes the state exactly when it succeeds. */
  lemma CreateAllOrNothing(w: World, c: CreateCall)
    requires ForeignKeys(w)
    ensures AfterCreate(w, c) == w <==> CreateRefusal(w, c).Some?
  {
    if CreateRefusal(w, c).None? {
      assert c.token in AfterCreate(w, c).holds;
    }
  }

  /** A create that succeeds takes exactly its quantity from its tier's availability and gives its user one
      more ACTIVE hold on the event. */
  lemma CreateTakesStock(w: World, c: CreateCall)
    requires Inv(w) && CreateRefusal(w, c).None?
    ensures var w' := AfterCreate(w, c);
            && c.tier in w'.tiers
            && w'.tiers[c.tier].QuantityAvailable() == w.tiers[c.tier].QuantityAvailable() - c.quantity
            && |ActiveHolds(w'.tiers, w'.holds, c.user, w.tiers[c.tier].event)|
               == |ActiveHolds(w.tiers, w.holds, c.user, w.tiers[c.tier].event)| + 1
  {
    assert CounterOk(w, c.tier);
    ActiveHoldsAfterInsert(w.tiers, AfterCreate(w, c).tiers, w.holds, c.token, NewHold(c), c.user,
                           w.tiers[c.tier].event);
  }

  /** It leaves every other row and every other key of the caches as they were. */
  lemma CreateTouchesNothingElse(w: World, c: CreateCall, tok: Token, t: TierId)
    requires ForeignKeys(w) && tok != c.token && t != c.tier
    ensures var w' := AfterCreate(w, c);
            && w'.payments == w.payments && w'.tickets == w.tickets
            && (tok in w'.holds <==> tok in w.holds) && (tok in w.holds ==> w'.holds[tok] == w.holds[tok])
            && (tok in w'.expiry <==> tok in w.expiry) && (tok in w.expiry ==> w'.expiry[tok] == w.expiry[tok])
            && (tok in w'.registry <==> tok in w.registry)
            && (tok in w.registry ==> w'.registry[tok] == w.registry[tok])
            && (t in w'.tiers <==> t in w.tiers) && (t in w.tiers ==> w'.tiers[t] == w.tiers[t])
            && (t in w'.availability <==> t in w.availability)
            && (t in w.availability ==> w'.availability[t] == w.availability[t])
  {}

  // ----- the registry entry -----

  /** If the hold is still ACTIVE, its entry is the one it had. */
  predicate EntryKept(w: World, w': World, tok: Token)
  {
    IsActive(w', tok) && tok in w.registry ==> tok in w'.registry && w'.registry[tok] == w.registry[tok]
  }

  lemma CreateKeepsEntry(w: World, c: CreateCall, tok: Token)
    requires ForeignKeys(w) && tok in w.holds
    ensures EntryKept(w, AfterCreate(w, c), tok)
  {}

  lemma LeavingKeepsEntry(w: World, w': World, batch: set<Token>, touched: set<TierId>, tok: Token)
    requires HoldsLeft(w, w', batch, touched)
    ensures EntryKept(w, w', tok)
  {}

  lemma ReleaseKeepsEntry(w: World, t: Token, tok: Token)
    requires Inv(w)
    ensures EntryKept(w, AfterRelease(w, t), tok)
  {
    if IsActive(w, t) {
      ReleaseLeaves(w, t);
      LeavingKeepsEntry(w, AfterRelease(w, t), {t}, {w.holds[t].tier}, tok);
    }
  }

  lemma TimeoutKeepsEntry(w: World, t: Token, now: Time, tok: Token)
    requires Inv(w)
    ensures EntryKept(w, PaymentTasks.AfterTimeout(w, t, now), tok)
  {
    ReleaseKeepsEntry(w, t, tok);
  }

  lemma SweepKeepsEntry(w: World, now: Time, order: seq<Token>, tok: Token)
    requires Inv(w) && Sequences.Lists(order, CheckoutTasks.Batch(w, now))
    ensures EntryKept(w, CheckoutTasks.AfterSweep(w, now, order), tok)
  {
    SweepLeaves(w, now, order);
    LeavingKeepsEntry(w, CheckoutTasks.AfterSweep(w, now, order), Sequences.Elements(order),
                      CheckoutTasks.Touched(w.holds, order), tok);
  }

  lemma OthersKeepEntry(w: World, op: Op, tok: Token)
    requires ForeignKeys(w) && Enabled(w, op) && (op.Refund? || op.Fill?)
    ensures EntryKept(w, Step(w, op), tok)
  {}

  /** While a hold stays ACTIVE, no operation touches its entry. */
  lemma StepKeepsEntry(w: World, op: Op, tok: Token)
    requires Inv(w) && Enabled(w, op) && tok in w.holds
    ensures EntryKept(w, Step(w, op), tok)
  {
    match op
    case Create(c) => CreateKeepsEntry(w, c, tok);
    case Release(t) => ReleaseKeepsEntry(w, t, tok);
    case Sweep(now, order) => SweepKeepsEntry(w, now, order, tok);
    case Timeout(t, now) => TimeoutKeepsEntry(w, t, now, tok);
    case _ => OthersKeepEntry(w, op, tok);
  }

  lemma {:induction false} RunKeepsEntry(w: World, ops: seq<Op>, tok: Token)
    requires Inv(w) && ValidRun(w, ops) && IsActive(w, tok) && NothingEnds(w.holds[tok], ops, tok)
    ensures tok in w.registry && IsActive(Run(w, ops), tok)
    ensures tok in Run(w, ops).registry && Run(w, ops).registry[tok] == w.registry[tok]
    decreases |ops|
  {
    if ops != [] {
      NothingEndsFirst(w.holds[tok], ops, tok);
      StepHolds(w, ops[0], tok);
      StepKeepsInv(w, ops[0]);
      StepKeepsEntry(w, ops[0], tok);
      RunKeepsEntry(Step(w, ops[0]), ops[1..], tok);
    }
  }

  lemma EntryAfterCreate(w: World, c: CreateCall)
    requires ForeignKeys(w) && CreateRefusal(w, c).None?
    ensures c.token in AfterCreate(w, c).registry
    ensures AfterCreate(w, c).registry[c.token]
         == Cached(HoldEntry(c.tier, c.quantity, c.now + 15 * 60 * SECOND, c.user),
                   c.storedAt + HoldRegistry.Ttl(c.now + 15 * 60 * SECOND, c.ttlNow) * SECOND)
  {}

  /** A lookup of a created hold finds exactly what was created, exactly as long as nothing in the run has
      ended the hold and its time-to-live has not run out. */
  lemma FoundExactly(w: World, c: CreateCall, ops: seq<Op>, at: Time)
    requires Inv(w) && Enabled(w, Create(c)) && CreateRefusal(w, c).None?
    requires ValidRun(AfterCreate(w, c), ops)
    ensures HoldRegistry.Lookup(Run(AfterCreate(w, c), ops).registry, c.token, at)
         == if NothingEnds(NewHold(c), ops, c.token)
               && at < c.storedAt + HoldRegistry.Ttl(c.now + 15 * 60 * SECOND, c.ttlNow) * SECOND
            then Some(HoldEntry(c.tier, c.quantity, c.now + 15 * 60 * SECOND, c.user)) else None
  {
    var w1 := AfterCreate(w, c);
    CreateKeepsInv(w, c);
    CreateMakesHold(w, c);
    EntryAfterCreate(w, c);
    ActiveExactlyIfNothingEnds(w1, ops, c.token);
    RunKeepsInv(w1, ops);
    if NothingEnds(NewHold(c), ops, c.token) {
      RunKeepsEntry(w1, ops, c.token);
    }
  }

  lemma NewHoldEnds(c: CreateCall, ops: seq<Op>)
    requires 0 <= c.quantity
    ensures NothingEnds(NewHold(c), ops, c.token)
       <==> forall i :: 0 <= i < |ops| ==>
              match ops[i]
              case Release(t) => t != c.token
              case Sweep(now, _) => now < c.now + 15 * 60 * SECOND
              case Timeout(t, now) => t != c.token || now <= c.now + 15 * 60 * SECOND
              case _ => true
  {
    NothingEndsSpelledOut(NewHold(c), ops, c.token);
  }

  lemma SixteenMinutesToLive(now: Time)
    ensures HoldRegistry.Ttl(now + 15 * 60 * SECOND, now) == 16 * 60
  {}

  lemma FoundUntil(w: World, c: CreateCall, ops: seq<Op>, at: Time)
    requires Inv(w) && Enabled(w, Create(c)) && CreateRefusal(w, c).None?
    requires c.ttlNow == c.storedAt == c.now && ValidRun(AfterCreate(w, c), ops)
    ensures HoldRegistry.Lookup(Run(AfterCreate(w, c), ops).registry, c.token, at).Some?
       <==> at < c.now + 16 * 60 * SECOND && NothingEnds(NewHold(c), ops, c.token)
  {
    FoundExactly(w, c, ops, at);
    SixteenMinutesToLive(c.now);
  }

  /** Registered without delay, a hold is found exactly until sixteen minutes after its creation, unless it
      was released, swept at or after its expiry, or timed out after it. */
  lemma FoundForSixteenMinutes(w: World, c: CreateCall, ops: seq<Op>, at: Time)
    requires Inv(w) && Enabled(w, Create(c)) && CreateRefusal(w, c).None?
    requires c.ttlNow == c.storedAt == c.now && ValidRun(AfterCreate(w, c), ops)
    ensures HoldRegistry.Lookup(Run(AfterCreate(w, c), ops).registry, c.token, at).Some?
       <==> at < c.now + 16 * 60 * SECOND
            && forall i :: 0 <= i < |ops| ==>
                 match ops[i]
                 case Release(t) => t != c.token
                 case Sweep(now, _) => now < c.now + 15 * 60 * SECOND
                 case Timeout(t, now) => t != c.token || now <= c.now + 15 * 60 * SECOND
                 case _ => true
  {
    FoundUntil(w, c, ops, at);
    NewHoldEnds(c, ops);
  }
}
