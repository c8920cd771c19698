/** How many ACTIVE holds a user can have on one event when creates run concurrently. */
module GuardTheorems {
  import opened Inventory
  import opened Sequences
  import opened Records
  import opened HoldSums
  import opened CheckoutServices
  import opened ConcurrentHolds
  import opened ConcurrentTheorems
  import opened ClosedTiers
  import opened Schedules

  /** Tiers of the event that can ever hold `least` more tickets: those with that many neither sold nor
      held back by a leak of the counter. */
  ghost function OpenTiers(s: Sys, event: EventId, least: int): set<TierId>
  {
    set t | t in s.tiers && s.tiers[t].event == event && (least <= 0 || !NoRoom(s.tiers, t, CLeak(s, t), least))
  }

  /** Nothing is in flight, or requests for no ticket at all are allowed, which need no room. */
  ghost predicate Ready(s: Sys, least: int)
  {
    Quiet(s) && TiersKnown(s) && (least <= 0 || (Covered(s) && s.restorers == map[]))
  }

  /** The tiers of the event that are not open are closed, as they were in `s0`. */
  ghost predicate OthersClosed(s0: Sys, s: Sys, event: EventId, open: set<TierId>, least: int)
  {
    forall t :: t in TiersOf(s0.tiers, event) - open ==>
      least >= 1 && Closed(s, t, CLeak(s0, t), ActiveSum(s0.holds, t), least)
  }

  lemma ReadyClosed(s: Sys, event: EventId, open: set<TierId>, least: int)
    requires Ready(s, least) && OpenTiers(s, event, least) <= open
    ensures Sound(s, least) && OthersClosed(s, s, event, open, least)
  {
    forall t | t in TiersOf(s.tiers, event) - open
      ensures least >= 1 && Closed(s, t, CLeak(s, t), ActiveSum(s.holds, t), least)
    {
      assert t !in OpenTiers(s, event, least);
    }
  }

  lemma RunKeepsOthersClosed(s: Sys, steps: seq<CStep>, event: EventId, open: set<TierId>, least: int)
    requires Sound(s, least) && OthersClosed(s, s, event, open, least)
    requires Interleaving(s, steps) && BeginsAtLeast(steps, least)
    ensures OthersClosed(s, CRun(s, steps), event, open, least)
  {
    forall t | t in TiersOf(s.tiers, event) - open
      ensures least >= 1 && Closed(CRun(s, steps), t, CLeak(s, t), ActiveSum(s.holds, t), least)
    {
      assert Closed(s, t, CLeak(s, t), ActiveSum(s.holds, t), least);
      RunKeepsClosed(s, steps, t, CLeak(s, t), ActiveSum(s.holds, t), least);
    }
  }

  lemma StockedIsOpen(s0: Sys, s: Sys, event: EventId, open: set<TierId>, least: int)
    requires Sound(s, least) && OthersClosed(s0, s, event, open, least) && SameSupply(s0.tiers, s.tiers)
    ensures StockedOpen(s, event, open)
  {
    forall id | id in s.txns && s.txns[id].phase == Stocked && s.txns[id].tier in TiersOf(s.tiers, event)
      ensures s.txns[id].tier in open
    {
      var t := s.txns[id].tier;
      if t in TiersOf(s0.tiers, event) - open {
        ClosedRefuses(s, id, t, CLeak(s0, t), ActiveSum(s0.holds, t), least);
      }
    }
  }

  /** Every interleaving of creates for at least `least` tickets with releases and sweeps keeps ACTIVE
      holds plus creates past the guard within MAX - 1 plus the number of open tiers. */
  lemma {:induction false} BoundOnOpenTiers(s: Sys, steps: seq<CStep>, user: UserId, event: EventId,
                                            open: set<TierId>, least: int)
    requires Sound(s, least) && UserBound(s, user, event, open) && OthersClosed(s, s, event, open, least)
    requires Interleaving(s, steps) && BeginsAtLeast(steps, least)
    ensures Sound(CRun(s, steps), least) && UserBound(CRun(s, steps), user, event, open)
    ensures SameSupply(s.tiers, CRun(s, steps).tiers)
  {
    if steps != [] {
      var s1 := CRun(s, Front(steps));
      BoundOnOpenTiers(s, Front(steps), user, event, open, least);
      RunKeepsOthersClosed(s, Front(steps), event, open, least);
      StockedIsOpen(s, s1, event, open, least);
      StepKeepsSound(s1, Last(steps), least);
      StepKeepsBound(s1, Last(steps), user, event, open);
      StepKeepsSupply(s1, Last(steps));
      SameSupplyTwice(s.tiers, s1.tiers, CNext(s1, Last(steps)).tiers);
    }
  }

  /** From a state with no create in flight the bound holds wherever the interleaving leads. */
  lemma BoundFromReady(s: Sys, s': Sys, user: UserId, event: EventId, open: set<TierId>, least: int)
    requires Ready(s, least) && Reaches(s, s', least)
    requires |ActiveHolds(s.tiers, s.holds, user, event)| <= MAX_HOLDS_PER_USER_PER_EVENT
    requires OpenTiers(s, event, least) <= open <= TiersOf(s.tiers, event) && open != {}
    ensures |ActiveHolds(s'.tiers, s'.holds, user, event)| <= MAX_HOLDS_PER_USER_PER_EVENT - 1 + |open|
  {
    var steps :| Interleaving(s, steps) && BeginsAtLeast(steps, least) && CRun(s, steps) == s';
    assert InFlight(s, user, open) == {};
    assert |open| >= 1;
    ReadyClosed(s, event, open, least);
    BoundOnOpenTiers(s, steps, user, event, open, least);
  }

  // ----- many creates past the guard at once -----

  /** A create of `user` on `event`, past both checks and holding its tier's lock. */
  predicate StockedFor(s: Sys, id: TxnId, user: UserId, event: EventId, quantity: nat)
    requires id in s.txns
  {
    var x := s.txns[id];
    && x.phase == Stocked && x.quantity == quantity && x.user == user && x.token !in s.holds
    && x.tier in s.tiers && x.row == s.tiers[x.tier] && x.row.event == event
    && x.tier in s.locks && s.locks[x.tier] == id
  }

  ghost predicate OwnTokens(txns: map<TxnId, Txn>)
  {
    forall id, other :: id in txns && other in txns && txns[id].token == txns[other].token ==> id == other
  }

  /** Every transaction in flight is one, each with its own token. */
  ghost predicate AllStocked(s: Sys, user: UserId, event: EventId, quantity: nat)
  {
    OwnTokens(s.txns) && forall id :: id in s.txns ==> StockedFor(s, id, user, event, quantity)
  }

  lemma OneMoreToken(txns: map<TxnId, Txn>, id: TxnId, x: Txn)
    requires OwnTokens(txns) && id !in txns && forall other :: other in txns ==> txns[other].token != x.token
    ensures OwnTokens(txns[id := x]) && |txns[id := x]| == |txns| + 1
  {
    assert txns[id := x].Keys == txns.Keys + {id};
  }

  lemma OneMoreStocked(s: Sys, id: TxnId, user: UserId, event: EventId, quantity: nat, t: TierId, tok: Token)
    requires AllStocked(s, user, event, quantity) && id !in s.txns && t in TiersOf(s.tiers, event) && t !in s.locks
    requires tok !in s.holds && forall x :: x in s.txns ==> s.txns[x].token != tok
    ensures AllStocked(With(s, id, Request(s, user, t, quantity, tok, Stocked)), user, event, quantity)
    ensures |With(s, id, Request(s, user, t, quantity, tok, Stocked)).txns| == |s.txns| + 1
  {
    var x := Request(s, user, t, quantity, tok, Stocked);
    var s' := With(s, id, x);
    OneMoreToken(s.txns, id, x);
    assert StockedFor(s', id, user, event, quantity);
    forall other | other in s.txns
      ensures StockedFor(s', other, user, event, quantity)
    {
      StockedStays(s, other, id, x, user, event, quantity);
    }
  }

  lemma StockedStays(s: Sys, other: TxnId, id: TxnId, x: Txn, user: UserId, event: EventId, quantity: nat)
    requires other in s.txns && StockedFor(s, other, user, event, quantity) && id !in s.txns && x.tier !in s.locks
    ensures other in With(s, id, x).txns && With(s, id, x).txns[other] == s.txns[other]
    ensures StockedFor(With(s, id, x), other, user, event, quantity)
  {}

  /** One create on each of the given unlocked tiers passes the guard before any of them commits. */
  lemma {:induction false} AllPassTheGuard(s0: Sys, s: Sys, user: UserId, event: EventId, tiers: set<TierId>,
                                           quantity: nat, least: int)
    returns (s': Sys)
    requires Reaches(s0, s, least) && AllStocked(s, user, event, quantity) && least <= quantity
    requires tiers <= TiersOf(s.tiers, event) && tiers !! s.locks.Keys
    requires forall t :: t in tiers ==> quantity <= s.tiers[t].QuantityAvailable()
    requires |ActiveHolds(s.tiers, s.holds, user, event)| < MAX_HOLDS_PER_USER_PER_EVENT
    ensures Reaches(s0, s', least) && AllStocked(s', user, event, quantity)
    ensures s'.tiers == s.tiers && s'.holds == s.holds && |s'.txns| == |s.txns| + |tiers|
    decreases |tiers|
  {
    if tiers == {} {
      s' := s;
    } else {
      var t :| t in tiers;
      var id := FreshTxnId(s.txns.Keys);
      var tok := FreshToken(s.holds.Keys + set x | x in s.txns :: s.txns[x].token);
      PassesBothChecks(s0, s, id, user, t, quantity, tok, least);
      OneMoreStocked(s, id, user, event, quantity, t, tok);
      var s1 := With(s, id, Request(s, user, t, quantity, tok, Stocked));
      s' := AllPassTheGuard(s0, s1, user, event, tiers - {t}, quantity, least);
    }
  }

  lemma StockedCommits(s: Sys, id: TxnId, other: TxnId, user: UserId, event: EventId, quantity: nat)
    requires id in s.txns && other in s.txns && id != other && s.txns[id].token != s.txns[other].token
    requires StockedFor(s, id, user, event, quantity) && StockedFor(s, other, user, event, quantity)
    ensures other in Committed(s, id).txns && StockedFor(Committed(s, id), other, user, event, quantity)
  {}

  lemma OneFewerStocked(s: Sys, id: TxnId, user: UserId, event: EventId, quantity: nat)
    requires AllStocked(s, user, event, quantity) && id in s.txns
    ensures AllStocked(Committed(s, id), user, event, quantity) && |Committed(s, id).txns| == |s.txns| - 1
  {
    assert (s.txns - {id}).Keys == s.txns.Keys - {id};
    forall other | other in Committed(s, id).txns
      ensures StockedFor(Committed(s, id), other, user, event, quantity)
    {
      StockedCommits(s, id, other, user, event, quantity);
    }
  }

  lemma OneMoreHold(s: Sys, id: TxnId, user: UserId, event: EventId, quantity: nat)
    requires id in s.txns && StockedFor(s, id, user, event, quantity)
    ensures |ActiveHolds(Committed(s, id).tiers, Committed(s, id).holds, user, event)|
         == |ActiveHolds(s.tiers, s.holds, user, event)| + 1
  {
    ActiveHoldsAfterInsert(s.tiers, Committed(s, id).tiers, s.holds, s.txns[id].token, HoldOf(s.txns[id]), user, event);
  }

  /** And then they all commit. */
  lemma {:induction false} AllCommit(s0: Sys, s: Sys, user: UserId, event: EventId, quantity: nat, least: int)
    returns (s': Sys)
    requires Reaches(s0, s, least) && AllStocked(s, user, event, quantity)
    ensures Reaches(s0, s', least)
    ensures |ActiveHolds(s'.tiers, s'.holds, user, event)| == |ActiveHolds(s.tiers, s.holds, user, event)| + |s.txns|
    decreases |s.txns|
  {
    if s.txns == map[] {
      s' := s;
    } else {
      var id :| id in s.txns;
      ReachesStep(s0, s, Commit(id), least);
      OneFewerStocked(s, id, user, event, quantity);
      OneMoreHold(s, id, user, event, quantity);
      s' := AllCommit(s0, Committed(s, id), user, event, quantity, least);
    }
  }

  // ----- the maximum is reached -----

  /** One hold that takes no stock: a stale restorer erases its quantity from the counter. */
  lemma HoldsForNothing(s0: Sys, s: Sys, user: UserId, t: TierId, quantity: nat, least: int) returns (s': Sys)
    requires Reaches(s0, s, least) && Quiet(s) && Actives(s.holds) == {} && t in s.tiers
    requires least <= quantity <= s.tiers[t].QuantityAvailable()
    ensures Reaches(s0, s', least) && Quiet(s') && s'.tiers == s.tiers
    ensures |ActiveHolds(s'.tiers, s'.holds, user, s.tiers[t].event)| == 1
  {
    var s1, id := MakesStale(s0, s, t, quantity, least);
    NothingActive(s1);
    var tok := CreateRuns(s0, s1, user, t, quantity, least);
    var s2 := Created(s1, user, t, quantity, tok);
    ActiveHoldsAfterInsert(s1.tiers, s2.tiers, s1.holds, tok, CheckoutHold(user, t, quantity, Active, 0), user,
                           s.tiers[t].event);
    s' := Overwrites(s0, s2, id, t, s.tiers[t].held, least);
    assert s'.tiers == s.tiers;
  }

  lemma OpenHasRoom(s: Sys, s1: Sys, event: EventId, least: int, quantity: nat, t: TierId)
    requires Actives(s1.holds) == {} && t in OpenTiers(s, event, least) && SameSupply(s.tiers, s1.tiers)
    requires if least <= 0 then quantity == 0 else quantity == least && SameLeaks(s, s1)
    ensures quantity <= s1.tiers[t].QuantityAvailable()
  {
    NothingActive(s1);
    assert least >= 1 ==> CLeak(s1, t) == CLeak(s, t);
  }

  /** Some interleaving takes the user to one hold below the limit plus one per open tier of the event. */
  lemma MostHoldsReached(s: Sys, user: UserId, event: EventId, least: int) returns (s': Sys)
    requires Ready(s, least) && OpenTiers(s, event, least) != {}
    ensures Reaches(s, s', least)
    ensures |ActiveHolds(s'.tiers, s'.holds, user, event)|
         == MAX_HOLDS_PER_USER_PER_EVENT - 1 + |OpenTiers(s, event, least)|
  {
    var quantity: nat := if least <= 0 then 0 else least;
    var open := OpenTiers(s, event, least);
    ReachesSelf(s, least);
    var s1 := ReleasesAll(s, s, least);
    forall t | t in open
      ensures t in TiersOf(s1.tiers, event) && quantity <= s1.tiers[t].QuantityAvailable()
    {
      OpenHasRoom(s, s1, event, least, quantity, t);
    }
    var t :| t in open;
    var s2 := HoldsForNothing(s, s1, user, t, quantity, least);
    var s3 := AllPassTheGuard(s, s2, user, event, open, quantity, least);
    s' := AllCommit(s, s3, user, event, quantity, least);
  }

  /** The exact maximum over all interleavings of creates for at least `least` tickets with releases and
      sweeps, from a state within the limit. */
  lemma MostHoldsExactly(s: Sys, user: UserId, event: EventId, least: int)
    requires Ready(s, least) && OpenTiers(s, event, least) != {}
    requires |ActiveHolds(s.tiers, s.holds, user, event)| <= MAX_HOLDS_PER_USER_PER_EVENT
    ensures forall s' :: Reaches(s, s', least) ==>
              |ActiveHolds(s'.tiers, s'.holds, user, event)|
              <= MAX_HOLDS_PER_USER_PER_EVENT - 1 + |OpenTiers(s, event, least)|
    ensures exists s' :: Reaches(s, s', least) &&
              |ActiveHolds(s'.tiers, s'.holds, user, event)|
              == MAX_HOLDS_PER_USER_PER_EVENT - 1 + |OpenTiers(s, event, least)|
  {
    var open := OpenTiers(s, event, least);
    forall s' | Reaches(s, s', least)
      ensures |ActiveHolds(s'.tiers, s'.holds, user, event)| <= MAX_HOLDS_PER_USER_PER_EVENT - 1 + |open|
    {
      BoundFromReady(s, s', user, event, open, least);
    }
    var most := MostHoldsReached(s, user, event, least);
  }

  // ----- when the documented limit survives -----

  /** No interleaving from here takes the user beyond the documented limit on the event. */
  ghost predicate LimitHolds(s: Sys, user: UserId, event: EventId, least: int)
  {
    forall s' :: Reaches(s, s', least) ==>
      |ActiveHolds(s'.tiers, s'.holds, user, event)| <= MAX_HOLDS_PER_USER_PER_EVENT
  }

  lemma NoTiersNoHolds(s: Sys, user: UserId, event: EventId)
    ensures TiersOf(s.tiers, event) != {} || |ActiveHolds(s.tiers, s.holds, user, event)| == 0
  {
    if ActiveHolds(s.tiers, s.holds, user, event) != {} {
      var tok :| tok in ActiveHolds(s.tiers, s.holds, user, event);
      assert s.holds[tok].tier in TiersOf(s.tiers, event);
    }
  }

  lemma {:induction false} RunKeepsSupply(s: Sys, steps: seq<CStep>)
    requires Interleaving(s, steps)
    ensures SameSupply(s.tiers, CRun(s, steps).tiers)
  {
    if steps != [] {
      RunKeepsSupply(s, Front(steps));
      StepKeepsSupply(CRun(s, Front(steps)), Last(steps));
      SameSupplyTwice(s.tiers, CRun(s, Front(steps)).tiers, CRun(s, steps).tiers);
    }
  }

  lemma LimitHoldsWithoutTiers(s: Sys, user: UserId, event: EventId, least: int)
    requires TiersOf(s.tiers, event) == {}
    ensures LimitHolds(s, user, event, least)
  {
    forall s' | Reaches(s, s', least)
      ensures |ActiveHolds(s'.tiers, s'.holds, user, event)| <= MAX_HOLDS_PER_USER_PER_EVENT
    {
      var steps :| Interleaving(s, steps) && BeginsAtLeast(steps, least) && CRun(s, steps) == s';
      RunKeepsSupply(s, steps);
      assert TiersOf(s'.tiers, event) == {};
      NoTiersNoHolds(s', user, event);
    }
  }

  lemma LimitHoldsOnOneTier(s: Sys, user: UserId, event: EventId, least: int)
    requires Ready(s, least) && |OpenTiers(s, event, least)| <= 1
    requires |ActiveHolds(s.tiers, s.holds, user, event)| <= MAX_HOLDS_PER_USER_PER_EVENT
    ensures LimitHolds(s, user, event, least)
  {
    if TiersOf(s.tiers, event) == {} {
      LimitHoldsWithoutTiers(s, user, event, least);
    } else {
      var open := OpenTiers(s, event, least);
      if open == {} {
        var t :| t in TiersOf(s.tiers, event);
        open := {t};
      }
      forall s' | Reaches(s, s', least)
        ensures |ActiveHolds(s'.tiers, s'.holds, user, event)| <= MAX_HOLDS_PER_USER_PER_EVENT
      {
        BoundFromReady(s, s', user, event, open, least);
      }
    }
  }

  /** "Max 2 active holds per user per event" survives every interleaving of creates for at least `least`
      tickets exactly when at most one tier of the event can ever hold that many more: the lock is per
      tier, the limit per event. */
  lemma LimitHoldsExactly(s: Sys, user: UserId, event: EventId, least: int)
    requires Ready(s, least)
    requires |ActiveHolds(s.tiers, s.holds, user, event)| <= MAX_HOLDS_PER_USER_PER_EVENT
    ensures LimitHolds(s, user, event, least) <==> |OpenTiers(s, event, least)| <= 1
  {
    if |OpenTiers(s, event, least)| <= 1 {
      LimitHoldsOnOneTier(s, user, event, least);
    } else {
      var s' := MostHoldsReached(s, user, event, least);
      assert Reaches(s, s', least);
    }
  }
}
