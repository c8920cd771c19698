/** The life of a hold over serial runs: how long it stays ACTIVE, how often it can leave, what the
    registry says about it, and how a sweep compares with releasing the batch hold by hold. */
module LifecycleTheorems {
  import opened Inventory
  import opened Sequences
  import opened Records
  import opened HoldSums
  import opened CheckoutServices
  import opened CheckoutTasks
  import opened PaymentTasks
  import opened HoldRuns
  import opened SweepAccounting
  import opened HoldInvariants
  import ExpiryHeap
  import HoldRegistry

  /** The operations that end the ACTIVE hold `h` with token `tok`: its release, any sweep at or after its
      expiry, and its payment timeout after its expiry. */
  predicate Ends(h: CheckoutHold, op: Op, tok: Token)
  {
    match op
    case Release(t) => t == tok
    case Sweep(now, _) => h.expiresAt <= now
    case Timeout(t, now) => t == tok && h.IsExpired(now)
    case _ => false
  }

  lemma SweptHolds(w: World, now: Time, order: seq<Token>, w': World, tok: Token)
    requires ExpiryOk(w) && Lists(order, Batch(w, now)) && tok in w.holds
    requires Elements(order) <= w.holds.Keys && SweptTo(w, now, order, w')
    ensures tok in w'.holds
    ensures w'.holds[tok] == if IsActive(w, tok) && w.holds[tok].expiresAt <= now
                             then w.holds[tok].(status := Expired) else w.holds[tok]
  {}

  lemma SweepHolds(w: World, now: Time, order: seq<Token>, tok: Token)
    requires Inv(w) && Lists(order, Batch(w, now)) && tok in w.holds
    ensures tok in AfterSweep(w, now, order).holds
    ensures AfterSweep(w, now, order).holds[tok]
         == if IsActive(w, tok) && w.holds[tok].expiresAt <= now
            then w.holds[tok].(status := Expired) else w.holds[tok]
  {
    SweepWorld(w, now, order);
    SweptHolds(w, now, order, AfterSweep(w, now, order), tok);
  }

  lemma ReleaseHolds(w: World, t: Token, tok: Token)
    requires Inv(w) && tok in w.holds
    ensures tok in AfterRelease(w, t).holds
    ensures AfterRelease(w, t).holds[tok]
         == if tok == t && IsActive(w, t) then w.holds[tok].(status := Released) else w.holds[tok]
  {
    if IsActive(w, t) {
      ReleaseLeaves(w, t);
      assert AfterRelease(w, t).holds == WithStatus(w.holds, t, Released);
    }
  }

  lemma TimeoutHolds(w: World, t: Token, now: Time, tok: Token)
    requires Inv(w) && tok in w.holds
    ensures tok in AfterTimeout(w, t, now).holds
    ensures AfterTimeout(w, t, now).holds[tok]
         == if tok == t && IsActive(w, t) && w.holds[t].IsExpired(now)
            then w.holds[tok].(status := Released) else w.holds[tok]
  {
    ReleaseHolds(w, t, tok);
  }

  lemma OthersKeepHolds(w: World, op: Op, tok: Token)
    requires ForeignKeys(w) && Enabled(w, op) && tok in w.holds && (op.Create? || op.Refund? || op.Fill?)
    ensures tok in Step(w, op).holds && Step(w, op).holds[tok] == w.holds[tok]
  {}

  /** One step: an existing hold changes only if it is ACTIVE and the step ends it, and then only its
      status changes, to RELEASED or EXPIRED. */
  lemma StepHolds(w: World, op: Op, tok: Token)
    requires Inv(w) && Enabled(w, op) && tok in w.holds
    ensures tok in Step(w, op).holds
    ensures Step(w, op).holds[tok]
         == if IsActive(w, tok) && Ends(w.holds[tok], op, tok)
            then w.holds[tok].(status := if op.Sweep? then Expired else Released)
            else w.holds[tok]
  {
    match op
    case Release(t) => ReleaseHolds(w, t, tok);
    case Sweep(now, order) => SweepHolds(w, now, order, tok);
    case Timeout(t, now) => TimeoutHolds(w, t, now, tok);
    case _ => OthersKeepHolds(w, op, tok);
  }

  /** How many steps of the run move `tok` out of ACTIVE. */
  ghost function Exits(w: World, ops: seq<Op>, tok: Token): nat
    requires ForeignKeys(w) && ValidRun(w, ops)
    decreases |ops|
  {
    if ops == [] then 0
    else (if IsActive(w, tok) && !IsActive(Step(w, ops[0]), tok) then 1 else 0)
         + Exits(Step(w, ops[0]), ops[1..], tok)
  }

  lemma {:induction false} NeverBackToActive(w: World, ops: seq<Op>, tok: Token)
    requires Inv(w) && ValidRun(w, ops) && tok in w.holds && !IsActive(w, tok)
    ensures tok in Run(w, ops).holds && Run(w, ops).holds[tok] == w.holds[tok]
    ensures Exits(w, ops, tok) == 0
    decreases |ops|
  {
    if ops != [] {
      StepHolds(w, ops[0], tok);
      StepKeepsInv(w, ops[0]);
      NeverBackToActive(Step(w, ops[0]), ops[1..], tok);
    }
  }

  /** Whichever mix of release, timeout and sweep reaches it, a hold leaves ACTIVE at most once, so its
      quantity is given back at most once; it has left exactly when it is no longer ACTIVE. */
  lemma {:induction false} LeavesAtMostOnce(w: World, ops: seq<Op>, tok: Token)
    requires Inv(w) && ValidRun(w, ops)
    ensures Exits(w, ops, tok) <= 1
    ensures IsActive(w, tok) ==> (Exits(w, ops, tok) == 1 <==> !IsActive(Run(w, ops), tok))
    decreases |ops|
  {
    if ops != [] {
      var w1 := Step(w, ops[0]);
      StepKeepsInv(w, ops[0]);
      if tok in w.holds {
        StepHolds(w, ops[0], tok);
      }
      if tok in w1.holds && !IsActive(w1, tok) {
        NeverBackToActive(w1, ops[1..], tok);
      } else {
        LeavesAtMostOnce(w1, ops[1..], tok);
      }
    }
  }

  /** Nothing in the run ends this hold. */
  predicate NothingEnds(h: CheckoutHold, ops: seq<Op>, tok: Token)
  {
    forall i :: 0 <= i < |ops| ==> !Ends(h, ops[i], tok)
  }

  lemma NothingEndsFirst(h: CheckoutHold, ops: seq<Op>, tok: Token)
    requires ops != []
    ensures NothingEnds(h, ops, tok) <==> !Ends(h, ops[0], tok) && NothingEnds(h, ops[1..], tok)
  {
    assert forall i :: 0 <= i < |ops| - 1 ==> ops[1..][i] == ops[i + 1];
    forall i | 1 <= i < |ops| && NothingEnds(h, ops[1..], tok)
      ensures !Ends(h, ops[i], tok)
    {
      assert ops[i] == ops[1..][i - 1];
    }
  }

  /** A hold is ACTIVE after a run exactly when nothing in the run ended it. */
  lemma {:induction false} ActiveExactlyIfNothingEnds(w: World, ops: seq<Op>, tok: Token)
    requires Inv(w) && ValidRun(w, ops) && IsActive(w, tok)
    ensures IsActive(Run(w, ops), tok) <==> NothingEnds(w.holds[tok], ops, tok)
    decreases |ops|
  {
    if ops != [] {
      var w1 := Step(w, ops[0]);
      StepKeepsInv(w, ops[0]);
      StepHolds(w, ops[0], tok);
      NothingEndsFirst(w.holds[tok], ops, tok);
      if Ends(w.holds[tok], ops[0], tok) {
        NeverBackToActive(w1, ops[1..], tok);
      } else {
        ActiveExactlyIfNothingEnds(w1, ops[1..], tok);
      }
    }
  }

  lemma NothingEndsSpelledOut(h: CheckoutHold, ops: seq<Op>, tok: Token)
    ensures NothingEnds(h, ops, tok)
       <==> forall i :: 0 <= i < |ops| ==>
              match ops[i]
              case Release(t) => t != tok
              case Sweep(now, _) => now < h.expiresAt
              case Timeout(t, now) => t != tok || now <= h.expiresAt
              case _ => true
  {}

  lemma CreateMakesHold(w: World, c: CreateCall)
    requires ForeignKeys(w) && CreateRefusal(w, c).None?
    ensures IsActive(AfterCreate(w, c), c.token) && AfterCreate(w, c).holds[c.token] == NewHold(c)
  {}

  /** A created hold is ACTIVE after a run exactly when, in that run, it was not released, no sweep came
      fifteen minutes or more after its creation, and its payment timeout not later than that. */
  lemma FifteenMinutes(w: World, c: CreateCall, ops: seq<Op>)
    requires Inv(w) && Enabled(w, Create(c)) && CreateRefusal(w, c).None?
    requires ValidRun(AfterCreate(w, c), ops)
    ensures IsActive(Run(AfterCreate(w, c), ops), c.token)
       <==> forall i :: 0 <= i < |ops| ==>
              match ops[i]
              case Release(t) => t != c.token
              case Sweep(now, _) => now < c.now + 15 * 60 * SECOND
              case Timeout(t, now) => t != c.token || now <= c.now + 15 * 60 * SECOND
              case _ => true
  {
    CreateKeepsInv(w, c);
    CreateMakesHold(w, c);
    ActiveExactlyIfNothingEnds(AfterCreate(w, c), ops, c.token);
    NothingEndsSpelledOut(NewHold(c), ops, c.token);
  }

  /** Once a hold has been released, whatever runs in between, neither another release nor its payment
      timeout changes anything, and no sweep takes it up. */
  lemma ReleasedForGood(w: World, tok: Token, ops: seq<Op>, now: Time)
    requires Inv(w) && tok in w.holds && ValidRun(AfterRelease(w, tok), ops)
    ensures var w' := Run(AfterRelease(w, tok), ops);
            AfterRelease(w', tok) == w' && AfterTimeout(w', tok, now) == w' && tok !in Batch(w', now)
  {
    ReleaseHolds(w, tok, tok);
    ReleaseKeepsInv(w, tok);
    NeverBackToActive(AfterRelease(w, tok), ops, tok);
  }

  /** A release changes the state exactly when its token names an ACTIVE hold. */
  lemma ReleaseFindsExactly(w: World, tok: Token)
    requires Inv(w)
    ensures AfterRelease(w, tok) != w <==> IsActive(w, tok)
  {
    if IsActive(w, tok) {
      ReleaseHolds(w, tok, tok);
    }
  }

  /** After a sweep at `now` no ACTIVE hold is past due, every hold due later and every stale token's
      hold is untouched, and nothing past due is left in the expiry set. */
  lemma SweepComplete(w: World, now: Time, order: seq<Token>, tok: Token)
    requires Inv(w) && Lists(order, Batch(w, now))
    ensures var w' := AfterSweep(w, now, order);
            && (IsActive(w', tok) <==> IsActive(w, tok) && now < w.holds[tok].expiresAt)
            && (tok in w.holds && !(IsActive(w, tok) && w.holds[tok].expiresAt <= now) ==>
                  tok in w'.holds && w'.holds[tok] == w.holds[tok])
            && (tok in w'.expiry <==> tok in w.expiry && !(0 <= w.expiry[tok] <= now))
  {
    SweepWorld(w, now, order);
    SweptHoldsComplete(w, now, order, AfterSweep(w, now, order), tok);
  }

  lemma SweptHoldsComplete(w: World, now: Time, order: seq<Token>, w': World, tok: Token)
    requires ExpiryOk(w) && Lists(order, Batch(w, now))
    requires Elements(order) <= w.holds.Keys && SweptTo(w, now, order, w')
    ensures IsActive(w', tok) <==> IsActive(w, tok) && now < w.holds[tok].expiresAt
    ensures tok in w.holds && !(IsActive(w, tok) && w.holds[tok].expiresAt <= now) ==>
              tok in w'.holds && w'.holds[tok] == w.holds[tok]
    ensures tok in w'.expiry <==> tok in w.expiry && !(0 <= w.expiry[tok] <= now)
  {
    if tok in w.holds {
      SweptHolds(w, now, order, w', tok);
    }
  }

  /** What a registry lookup tells: an entry it returns describes an ACTIVE hold, and any hold that is
      ACTIVE and not 59 seconds past its expiry is found. */
  lemma RegistryAgrees(w: World, ops: seq<Op>, tok: Token, now: Time)
    requires Inv(w) && ValidRun(w, ops)
    ensures var w' := Run(w, ops);
            match HoldRegistry.Lookup(w'.registry, tok, now)
            case Some(e) => IsActive(w', tok) && e == EntryOf(w'.holds[tok])
            case None => IsActive(w', tok) ==> now > w'.holds[tok].expiresAt + 59 * SECOND
  {
    RunKeepsInv(w, ops);
  }

  // ----- the exact effects, from any database, whether the constraint refuses a counter or not -----

  /** A release raises exactly when the counter is smaller than its ACTIVE hold, and then leaves no trace;
      otherwise it changes one status, one counter, one registry entry and one cache entry. */
  lemma ReleaseExactly(w: World, tok: Token, other: Token, t: TierId)
    requires ForeignKeys(w)
    ensures ReleaseRaises(w, tok) <==> IsActive(w, tok) && w.tiers[w.holds[tok].tier].held < w.holds[tok].quantity
    ensures !IsActive(w, tok) || ReleaseRaises(w, tok) ==> AfterRelease(w, tok) == w
    ensures IsActive(w, tok) && !ReleaseRaises(w, tok) ==>
              var w', h := AfterRelease(w, tok), w.holds[tok];
              && w'.payments == w.payments && w'.tickets == w.tickets && w'.expiry == w.expiry
              && w'.holds == w.holds[tok := h.(status := Released)]
              && w'.tiers == w.tiers[h.tier := w.tiers[h.tier].(held := w.tiers[h.tier].held - h.quantity)]
              && (other in w'.registry <==> other in w.registry && other != tok)
              && (other in w'.registry ==> w'.registry[other] == w.registry[other])
              && (t in w'.availability <==> t in w.availability && t != h.tier)
              && (t in w'.availability ==> w'.availability[t] == w.availability[t])
  {}

  /** The first `k` rows of the batch are writable, and the next one, if there is one, is not. */
  predicate StopsAt(w: World, order: seq<Token>, k: nat)
    requires ForeignKeys(w)
  {
    && k <= |order| && (forall i :: 0 <= i < |order| ==> order[i] in w.holds)
    && (forall i :: 0 <= i < k ==> w.holds[order[i]].quantity <= w.tiers[w.holds[order[i]].tier].held)
    && (k < |order| ==> w.holds[order[k]].quantity > w.tiers[w.holds[order[k]].tier].held)
  }

  /** The rows whose new status is saved: those written, and the one the database then refuses. */
  function Marked(order: seq<Token>, k: nat): seq<Token>
    requires k <= |order|
  {
    if k < |order| then order[..k + 1] else order
  }

  lemma SweepParts(w: World, now: Time, order: seq<Token>, k: nat)
    requires ForeignKeys(w) && Lists(order, Batch(w, now)) && StopsAt(w, order, k)
    ensures Elements(order[..k]) <= w.holds.Keys && (SweepRaises(w, order) <==> k < |order|)
    ensures AfterSweep(w, now, order)
         == w.(expiry := w.expiry - ExpiryHeap.Due(w.expiry, now),
               holds := StatusesAfter(w.holds, Marked(order, k)),
               tiers := CountersAfter(w.tiers, w.holds, order[..k]),
               registry := w.registry - Elements(order[..k]),
               availability := w.availability - Touched(w.holds, order[..k]))
  {
    PrefixWithin(order, k);
    FirstRefusedAt(w.tiers, w.holds, order, k);
  }

  lemma PrefixGivesBack(w: World, order: seq<Token>, k: nat, t: TierId)
    requires ForeignKeys(w) && StopsAt(w, order, k) && Elements(order[..k]) <= w.holds.Keys && t in w.tiers
    ensures GivenBack(w.holds, order[..k], t) <= w.tiers[t].held
  {
    forall tok | tok in Elements(order[..k]) && w.holds[tok].tier == t
      ensures w.holds[tok].quantity <= w.tiers[t].held
    {
      var i := ElementAt(order[..k], tok);
    }
    GivenBackBounded(w.holds, order[..k], t, w.tiers[t].held);
  }

  /** The rows before the refused one are marked EXPIRED, the refused one as well, the later ones are not;
      the due tokens are gone from the expiry set all the same. */
  lemma SweepMarksExactly(w: World, now: Time, order: seq<Token>, k: nat, tok: Token)
    requires ForeignKeys(w) && Lists(order, Batch(w, now)) && StopsAt(w, order, k)
    ensures SweepRaises(w, order) <==> k < |order|
    ensures var w' := AfterSweep(w, now, order);
            && w'.payments == w.payments && w'.tickets == w.tickets
            && (tok in w'.expiry <==> tok in w.expiry && !(0 <= w.expiry[tok] <= now))
            && (tok in w'.expiry ==> w'.expiry[tok] == w.expiry[tok])
            && (tok in w'.holds <==> tok in w.holds)
            && (tok in w.holds ==>
                  w'.holds[tok] == if tok in Elements(Marked(order, k)) then w.holds[tok].(status := Expired)
                                   else w.holds[tok])
  {
    SweepParts(w, now, order, k);
  }

  /** Only the rows before the refused one are given back and dropped from registry and cache. */
  lemma SweepGivesBackExactly(w: World, now: Time, order: seq<Token>, k: nat, tok: Token, t: TierId)
    requires ForeignKeys(w) && Lists(order, Batch(w, now)) && StopsAt(w, order, k)
    ensures Elements(order[..k]) <= w.holds.Keys
    ensures var w' := AfterSweep(w, now, order);
            && (tok in w'.registry <==> tok in w.registry && tok !in Elements(order[..k]))
            && (tok in w'.registry ==> w'.registry[tok] == w.registry[tok])
            && (t in w'.availability <==> t in w.availability && t !in Touched(w.holds, order[..k]))
            && (t in w'.availability ==> w'.availability[t] == w.availability[t])
            && (t in w'.tiers <==> t in w.tiers)
            && (t in w.tiers ==>
                  && w'.tiers[t] == w.tiers[t].(held := w'.tiers[t].held)
                  && w'.tiers[t].held == w.tiers[t].held - GivenBack(w.holds, order[..k], t))
  {
    SweepParts(w, now, order, k);
    if t in w.tiers {
      PrefixGivesBack(w, order, k, t);
    }
  }

  // ----- a sweep against one release per hold -----

  function ReleaseAll(w: World, order: seq<Token>): (w': World)
    requires ForeignKeys(w)
    ensures ForeignKeys(w')
  {
    if order == [] then w else AfterRelease(ReleaseAll(w, Front(order)), Last(order))
  }

  /** What releasing a listing of ACTIVE holds one at a time leaves behind. */
  ghost predicate ReleasedTo(w: World, order: seq<Token>, r: World, t: TierId)
    requires t in w.tiers && Elements(order) <= w.holds.Keys
  {
    && r.expiry == w.expiry && r.payments == w.payments && r.tickets == w.tickets
    && r.registry == w.registry - Elements(order)
    && r.availability == w.availability - Touched(w.holds, order)
    && LeftActive(w.holds, r.holds, Elements(order))
    && t in r.tiers
    && r.tiers[t] == w.tiers[t].(held := r.tiers[t].held)
    && w.tiers[t].held - r.tiers[t].held == BatchQty(w.holds, order, t)
  }

  lemma NothingReleased(w: World, t: TierId)
    requires t in w.tiers
    ensures ReleasedTo(w, [], w, t)
  {
    assert w.registry - {} == w.registry && w.availability - {} == w.availability;
  }

  lemma {:induction false} ReleaseAllKeepsInv(w: World, order: seq<Token>)
    requires Inv(w)
    ensures Inv(ReleaseAll(w, order))
  {
    if order != [] {
      ReleaseAllKeepsInv(w, Front(order));
      ReleaseKeepsInv(ReleaseAll(w, Front(order)), Last(order));
    }
  }

  lemma {:induction false} ReleaseAllEffect(w: World, order: seq<Token>, t: TierId)
    requires Inv(w) && NoRepeats(order) && t in w.tiers
    requires forall tok :: tok in Elements(order) ==> IsActive(w, tok)
    ensures Elements(order) <= w.holds.Keys
    ensures ReleasedTo(w, order, ReleaseAll(w, order), t)
  {
    if order == [] {
      NothingReleased(w, t);
    } else {
      ReleaseAllEffect(w, Front(order), t);
      ReleaseAllKeepsInv(w, Front(order));
      ReleaseOneMore(w, ReleaseAll(w, Front(order)), order, t);
    }
  }

  lemma LeftOneMore(holds: Holds, left: Holds, left': Holds, batch: set<Token>, tok: Token)
    requires LeftActive(holds, left, batch) && LeftActive(left, left', {tok}) && tok !in batch
    ensures LeftActive(holds, left', batch + {tok})
  {}

  lemma ReleaseOneMore(w: World, r: World, order: seq<Token>, t: TierId)
    requires Inv(r) && order != [] && NoRepeats(order) && Elements(order) <= w.holds.Keys
    requires IsActive(w, Last(order)) && t in w.tiers
    requires ReleasedTo(w, Front(order), r, t)
    ensures ReleasedTo(w, order, AfterRelease(r, Last(order)), t)
  {
    var tok := Last(order);
    assert r.holds[tok] == w.holds[tok];
    ReleaseLeaves(r, tok);
    ReleaseEffectOn(r, tok, t);
    ReleasedOneMore(w, r, order, AfterRelease(r, tok), t);
  }

  lemma ReleasedOneMore(w: World, r: World, order: seq<Token>, r': World, t: TierId)
    requires order != [] && NoRepeats(order) && Elements(order) <= w.holds.Keys && t in w.tiers
    requires ReleasedTo(w, Front(order), r, t)
    requires HoldsLeft(r, r', {Last(order)}, {w.holds[Last(order)].tier}) && r'.expiry == r.expiry
    requires r.tiers[t].held - r'.tiers[t].held == BatchQty(w.holds, order, t) - BatchQty(w.holds, Front(order), t)
    ensures ReleasedTo(w, order, r', t)
  {
    LeftOneMore(w.holds, r.holds, r'.holds, Elements(Front(order)), Last(order));
    SubtractTwice(w.registry, Elements(Front(order)), {Last(order)});
    SubtractTwice(w.availability, Touched(w.holds, Front(order)), {w.holds[Last(order)].tier});
  }

  /** A sweep and one release per hold, for every iteration order: the registry and the availability
      cache end equal, every swept hold differs only in EXPIRED against RELEASED, and each counter
      differs by exactly what the sweep loses. */
  lemma SweepAgainstReleases(w: World, now: Time, order: seq<Token>, t: TierId)
    requires Inv(w) && Lists(order, Batch(w, now)) && t in w.tiers
    ensures Elements(order) <= w.holds.Keys
    ensures var s, r := AfterSweep(w, now, order), ReleaseAll(w, order);
            && s.registry == r.registry && s.availability == r.availability
            && s.payments == r.payments && s.tickets == r.tickets
            && s.holds.Keys == r.holds.Keys
            && (forall tok :: tok in s.holds ==>
                  s.holds[tok] == r.holds[tok].(status := s.holds[tok].status)
                  && (IsActive(s, tok) <==> IsActive(r, tok)))
            && t in s.tiers && t in r.tiers
            && s.tiers[t] == r.tiers[t].(held := s.tiers[t].held)
            && s.tiers[t].held == r.tiers[t].held + Lost(w.holds, order, t)
  {
    ReleaseAllEffect(w, order, t);
    SweepLeaves(w, now, order);
    SweepEffectOn(w, now, order, t);
    SweepWorld(w, now, order);
    SameLeavers(w.holds, AfterSweep(w, now, order).holds, ReleaseAll(w, order).holds, Elements(order));
  }

  lemma SameLeavers(holds: Holds, a: Holds, b: Holds, batch: set<Token>)
    requires LeftActive(holds, a, batch) && LeftActive(holds, b, batch)
    ensures a.Keys == b.Keys
    ensures forall tok :: tok in a ==>
              a[tok] == b[tok].(status := a[tok].status) && (a[tok].status == Active <==> b[tok].status == Active)
  {}

  /** In particular the counters agree when the batch has one hold per tier; when every hold is for at
      least one ticket, only then. */
  lemma SweepEqualsReleasesExactly(w: World, now: Time, order: seq<Token>)
    requires Inv(w) && Lists(order, Batch(w, now))
    ensures Elements(order) <= w.holds.Keys
    ensures DistinctTiers(w.holds, order) ==> AfterSweep(w, now, order).tiers == ReleaseAll(w, order).tiers
    ensures (forall tok :: tok in w.holds ==> w.holds[tok].quantity > 0) ==>
              (AfterSweep(w, now, order).tiers == ReleaseAll(w, order).tiers <==> DistinctTiers(w.holds, order))
  {
    SweepLeaves(w, now, order);
    LossesExactly(w.holds, order);
    forall t | t in w.tiers
      ensures LossBetween(w, order, AfterSweep(w, now, order).tiers, ReleaseAll(w, order).tiers, t)
    {
      SweepAgainstReleases(w, now, order, t);
    }
    ReleaseAllKeys(w, order);
    EqualCountersExactly(w, order, AfterSweep(w, now, order).tiers, ReleaseAll(w, order).tiers);
  }

  ghost predicate LossBetween(w: World, order: seq<Token>, swept: Tiers, released: Tiers, t: TierId)
    requires Elements(order) <= w.holds.Keys
  {
    && t in swept && t in released
    && swept[t] == released[t].(held := swept[t].held)
    && swept[t].held == released[t].held + Lost(w.holds, order, t)
  }

  lemma EqualCountersExactly(w: World, order: seq<Token>, swept: Tiers, released: Tiers)
    requires ForeignKeys(w) && Elements(order) <= w.holds.Keys
    requires swept.Keys == released.Keys == w.tiers.Keys
    requires forall t :: t in w.tiers ==> LossBetween(w, order, swept, released, t)
    ensures swept == released <==> forall t :: Lost(w.holds, order, t) == 0
  {
    forall t
      ensures t !in w.tiers ==> Lost(w.holds, order, t) == 0
      ensures t in w.tiers && Lost(w.holds, order, t) != 0 ==> swept[t] != released[t]
    {
      TouchedHasLast(w.holds, order, t);
      if t in w.tiers {
        assert LossBetween(w, order, swept, released, t);
      }
    }
  }

  lemma {:induction false} ReleaseAllKeys(w: World, order: seq<Token>)
    requires ForeignKeys(w)
    ensures ReleaseAll(w, order).tiers.Keys == w.tiers.Keys
  {
    if order != [] {
      ReleaseAllKeys(w, Front(order));
    }
  }
}
