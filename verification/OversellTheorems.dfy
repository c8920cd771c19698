/** When concurrency oversells a tier. */
module OversellTheorems {
  import opened Sequences
  import opened Records
  import opened HoldSums
  import opened CheckoutServices
  import opened ConcurrentHolds
  import opened ConcurrentTheorems
  import opened Schedules
  import opened ClosedTiers

  /** Tickets sold and committed ACTIVE holds exceed the tier's total. */
  ghost predicate Oversold(s: Sys, t: TierId)
  {
    t in s.tiers && s.tiers[t].sold + ActiveSum(s.holds, t) > s.tiers[t].total
  }

  // ----- a release around a committing create -----

  lemma CreatedSum(s: Sys, user: UserId, t: TierId, quantity: nat, tok: Token)
    requires t in s.tiers && tok !in s.holds
    ensures ActiveSum(Created(s, user, t, quantity, tok).holds, t) == ActiveSum(s.holds, t) + quantity
  {
    ActiveSumAfterInsert(s.holds, tok, CheckoutHold(user, t, quantity, Active, 0), t);
  }

  lemma EndedSum(s: Sys, id: TxnId)
    requires id in s.restorers && s.restorers[id].token in s.holds && s.holds[s.restorers[id].token].tier in s.tiers
    requires s.holds[s.restorers[id].token].status == Active
    ensures var h := s.holds[s.restorers[id].token];
            ActiveSum(Ended(s, id, Released).holds, h.tier) == ActiveSum(s.holds, h.tier) - h.quantity
  {
    var tok := s.restorers[id].token;
    OneLeaves(s.holds, tok, Released);
    ActiveSumAfterOne(s.holds, Ended(s, id, Released).holds, tok, s.holds[tok].tier);
  }

  /** A release that reads the counter before a create commits and writes it afterwards erases the
      create's quantity: the counter drops to what it was without the create, the ACTIVE holds do not. */
  lemma LostUpdate(s: Sys, tok: Token, user: UserId, quantity: nat, least: int) returns (s': Sys)
    requires Quiet(s) && TiersKnown(s) && tok in s.holds && s.holds[tok].status == Active
    requires CLeak(s, s.holds[tok].tier) >= 0
    requires least <= quantity <= s.tiers[s.holds[tok].tier].QuantityAvailable()
    requires |ActiveHolds(s.tiers, s.holds, user, s.tiers[s.holds[tok].tier].event)| < MAX_HOLDS_PER_USER_PER_EVENT
    ensures Reaches(s, s', least) && Quiet(s') && SameSupply(s.tiers, s'.tiers)
    ensures var t := s.holds[tok].tier;
            && s'.tiers[t].held == s.tiers[t].held - s.holds[tok].quantity
            && ActiveSum(s'.holds, t) == ActiveSum(s.holds, t) + quantity - s.holds[tok].quantity
  {
    var t := s.holds[tok].tier;
    var id := FreshTxnId(s.restorers.Keys);
    var s1 := AfterRead(s, id, tok);
    ReachesSelf(s, least);
    Reads(s, s, id, tok, least);
    var newTok := CreateRuns(s, s1, user, t, quantity, least);
    var s2 := Created(s1, user, t, quantity, newTok);
    CreatedSum(s1, user, t, quantity, newTok);
    Ends(s, s2, id, Released, least);
    EndedSum(s2, id);
    SumQtyAtLeast(s.holds, ActiveOn(s.holds, t), tok);
    s' := Ended(s2, id, Released);
  }

  /** After the lost update, a create for all the tickets that then look available takes sold plus ACTIVE to
      the total plus the erased quantity, less what the counter held back before; an exact counter is
      oversold by exactly the erased quantity. */
  lemma LostUpdateOversells(s: Sys, tok: Token, user: UserId, quantity: nat, least: int) returns (s': Sys)
    requires Quiet(s) && TiersKnown(s) && tok in s.holds && s.holds[tok].status == Active && Fits(s)
    requires CLeak(s, s.holds[tok].tier) >= 0
    requires least <= quantity <= s.tiers[s.holds[tok].tier].QuantityAvailable()
    requires |ActiveHolds(s.tiers, s.holds, user, s.tiers[s.holds[tok].tier].event)| < MAX_HOLDS_PER_USER_PER_EVENT
    ensures Reaches(s, s', least) && SameSupply(s.tiers, s'.tiers)
    ensures var t := s.holds[tok].tier;
            s'.tiers[t].sold + ActiveSum(s'.holds, t) == s'.tiers[t].total + quantity - CLeak(s, t)
  {
    var t := s.holds[tok].tier;
    var s1 := LostUpdate(s, tok, user, quantity, least);
    SumQtyAtLeast(s.holds, ActiveOn(s.holds, t), tok);
    s' := TakesTheRest(s, s1, t, least);
  }

  /** Someone creates a hold for everything a tier shows as available. */
  lemma TakesTheRest(s0: Sys, s: Sys, t: TierId, least: int) returns (s': Sys)
    requires Reaches(s0, s, least) && Quiet(s) && t in s.tiers && s.tiers[t].held + s.tiers[t].sold <= s.tiers[t].total
    requires least <= s.tiers[t].QuantityAvailable()
    ensures Reaches(s0, s', least) && SameSupply(s.tiers, s'.tiers)
    ensures s'.tiers[t].sold + ActiveSum(s'.holds, t) == s'.tiers[t].total - CLeak(s, t)
  {
    var user := FreshUser(s.tiers, s.holds);
    var rest := s.tiers[t].QuantityAvailable();
    var tok := CreateRuns(s0, s, user, t, rest, least);
    CreatedSum(s, user, t, rest, tok);
    s' := Created(s, user, t, rest, tok);
  }

  // ----- exactly when a tier can be oversold -----

  /** `n` more tickets are in committed ACTIVE holds, and the counters do not show it. */
  ghost predicate Erased(s: Sys, s': Sys, t: TierId, n: nat)
  {
    Quiet(s') && s'.tiers == s.tiers && ActiveSum(s'.holds, t) == ActiveSum(s.holds, t) + n
  }

  lemma ErasesHold(s0: Sys, s: Sys, t: TierId, quantity: nat, least: int) returns (s': Sys)
    requires Reaches(s0, s, least) && Quiet(s) && t in s.tiers
    requires least <= quantity <= s.tiers[t].QuantityAvailable()
    ensures Reaches(s0, s', least) && Erased(s, s', t, quantity)
  {
    var s1, id := MakesStale(s0, s, t, quantity, least);
    var user := FreshUser(s1.tiers, s1.holds);
    var tok := CreateRuns(s0, s1, user, t, quantity, least);
    var s2 := Created(s1, user, t, quantity, tok);
    CreatedSum(s1, user, t, quantity, tok);
    s' := Overwrites(s0, s2, id, t, s.tiers[t].held, least);
    SetBack(s.tiers, t, quantity);
  }

  lemma SetBack(tiers: Tiers, t: TierId, quantity: nat)
    requires t in tiers
    ensures WithHeld(WithHeld(tiers, t, tiers[t].held + quantity), t, tiers[t].held) == tiers
  {}

  /** As many of them as one likes. */
  lemma {:induction false} ErasesMany(s0: Sys, s: Sys, t: TierId, n: nat, least: int) returns (s': Sys)
    requires Reaches(s0, s, least) && Quiet(s) && t in s.tiers && least <= 1 <= s.tiers[t].QuantityAvailable()
    ensures Reaches(s0, s', least) && Erased(s, s', t, n)
    decreases n
  {
    if n == 0 {
      s' := s;
    } else {
      var s1 := ErasesHold(s0, s, t, 1, least);
      s' := ErasesMany(s0, s1, t, n - 1, least);
    }
  }

  /** If one more ticket can ever be held, any number of tickets can be oversold. */
  lemma OversellReached(s: Sys, t: TierId, n: nat, least: int) returns (s': Sys)
    requires Quiet(s) && TiersKnown(s) && Covered(s) && t in s.tiers && least <= 1
    requires s.tiers[t].sold + CLeak(s, t) < s.tiers[t].total
    ensures Reaches(s, s', least) && SameSupply(s.tiers, s'.tiers)
    ensures s'.tiers[t].sold + ActiveSum(s'.holds, t) == s'.tiers[t].total + n
  {
    ReachesSelf(s, least);
    var s1 := ReleasesAll(s, s, least);
    NothingActive(s1);
    assert CLeak(s1, t) == CLeak(s, t) >= 0;
    var s2 := ErasesMany(s, s1, t, CLeak(s, t) + n, least);
    s' := TakesTheRest(s, s2, t, least);
    SameSupplyTwice(s.tiers, s1.tiers, s'.tiers);
  }

  lemma ClosedNeverOversold(s: Sys, s': Sys, t: TierId, least: int)
    requires Quiet(s) && s.restorers == map[] && TiersKnown(s) && Fits(s) && t in s.tiers && CLeak(s, t) >= 0
    requires NoRoom(s.tiers, t, CLeak(s, t), least) && Reaches(s, s', least)
    ensures !Oversold(s', t)
  {
    var steps :| Interleaving(s, steps) && BeginsAtLeast(steps, least) && CRun(s, steps) == s';
    RunKeepsClosed(s, steps, t, CLeak(s, t), ActiveSum(s.holds, t), least);
  }

  /** "SELECT FOR UPDATE prevents oversell under concurrency" is true of a tier, whatever the order of
      creates, releases and sweeps from a state that serial runs can reach, exactly when it has no ticket
      left that is neither sold nor held back by a leak. */
  lemma OversellExactly(s: Sys, t: TierId, least: int)
    requires Quiet(s) && s.restorers == map[] && TiersKnown(s) && Covered(s) && Fits(s) && t in s.tiers && least <= 1
    ensures (exists s' :: Reaches(s, s', least) && Oversold(s', t))
       <==> s.tiers[t].sold + CLeak(s, t) < s.tiers[t].total
  {
    if s.tiers[t].sold + CLeak(s, t) < s.tiers[t].total {
      var s' := OversellReached(s, t, 1, least);
      assert Reaches(s, s', least) && Oversold(s', t);
    } else {
      assert CLeak(s, t) >= 0;
      forall s' | Reaches(s, s', least)
        ensures !Oversold(s', t)
      {
        ClosedNeverOversold(s, s', t, least);
      }
    }
  }
}
