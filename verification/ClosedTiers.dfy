/** Tiers that stay closed: whatever runs concurrently, no create for a ticket ever commits on them. */
module ClosedTiers {
  import opened Sequences
  import opened Records
  import opened HoldSums
  import opened ConcurrentHolds
  import opened ConcurrentTheorems

  /** What every interleaving keeps when all creates ask for at least `least` tickets. */
  ghost predicate Sound(s: Sys, least: int)
  {
    LocksOk(s) && LockedRowsFresh(s) && StockCovered(s) && TxnsAtLeast(s, least)
  }

  lemma StepKeepsSound(s: Sys, step: CStep, least: int)
    requires Sound(s, least) && CEnabled(s, step) && (step.Begin? ==> step.quantity >= least)
    ensures Sound(CNext(s, step), least)
  {
    StepKeepsLocks(s, step);
    StepKeepsRows(s, step);
    StepKeepsStock(s, step);
    StepKeepsLeast(s, step, least);
  }

  /** The smallest request for a ticket, when all requests ask for at least `least`. */
  function Smallest(least: int): nat
  {
    if least < 1 then 1 else least
  }

  /** Beside the tickets sold, `leak` tickets are out of reach: too many for one more request. */
  predicate NoRoom(tiers: Tiers, t: TierId, leak: int, least: int)
  {
    t in tiers && tiers[t].sold + leak + Smallest(least) > tiers[t].total
  }

  /** What the restorer is going to write covers the leak and all ACTIVE holds but its own. */
  ghost predicate WritesEnough(s: Sys, r: Restorer, t: TierId, leak: int)
  {
    && r.token in s.holds && (r.left ==> s.holds[r.token].status != Active)
    && var h := s.holds[r.token];
    h.tier == t ==>
      r.seen - h.quantity >= leak + ActiveSum(s.holds, t) - (if h.status == Active then h.quantity else 0)
  }

  ghost predicate RestorersOk(s: Sys, t: TierId, leak: int)
  {
    forall id :: id in s.restorers ==> WritesEnough(s, s.restorers[id], t, leak)
  }

  /** The counter of `t` shows its leak and its ACTIVE holds, of at most `most` tickets. */
  ghost predicate Closed(s: Sys, t: TierId, leak: int, most: int, least: int)
  {
    NoRoom(s.tiers, t, leak, least) && CLeak(s, t) >= leak && ActiveSum(s.holds, t) <= most && RestorersOk(s, t, leak)
  }

  /** No request for a ticket passes the stock check of a closed tier. */
  lemma ClosedRefuses(s: Sys, id: TxnId, t: TierId, leak: int, most: int, least: int)
    requires Sound(s, least) && Closed(s, t, leak, most, least) && InPhase(s, id, Stocked) && s.txns[id].tier == t
    ensures s.txns[id].quantity <= 0 && least <= 0
  {
    assert s.txns[id].row == s.tiers[t];
  }

  lemma SameHoldsClosed(s: Sys, s': Sys, t: TierId, leak: int, most: int, least: int)
    requires Closed(s, t, leak, most, least)
    requires s'.tiers == s.tiers && s'.holds == s.holds && s'.restorers == s.restorers
    ensures Closed(s', t, leak, most, least)
  {}

  lemma CommitKeepsSum(s: Sys, id: TxnId, t: TierId, leak: int, most: int, least: int)
    requires Sound(s, least) && Closed(s, t, leak, most, least) && InPhase(s, id, Stocked)
    requires 0 <= s.txns[id].quantity && s.txns[id].token !in s.holds
    ensures t in Committed(s, id).tiers && Committed(s, id).tiers[t] == s.tiers[t]
    ensures ActiveSum(Committed(s, id).holds, t) == ActiveSum(s.holds, t)
  {
    ActiveSumAfterInsert(s.holds, s.txns[id].token, HoldOf(s.txns[id]), t);
    if s.txns[id].tier == t {
      ClosedRefuses(s, id, t, leak, most, least);
    }
  }

  lemma CommitKeepsClosed(s: Sys, id: TxnId, t: TierId, leak: int, most: int, least: int)
    requires Sound(s, least) && Closed(s, t, leak, most, least) && InPhase(s, id, Stocked)
    requires 0 <= s.txns[id].quantity && s.txns[id].token !in s.holds
    ensures Closed(Committed(s, id), t, leak, most, least)
  {
    CommitKeepsSum(s, id, t, leak, most, least);
    forall other | other in s.restorers
      ensures WritesEnough(Committed(s, id), s.restorers[other], t, leak)
    {
      assert WritesEnough(s, s.restorers[other], t, leak);
    }
  }

  lemma ReadKeepsClosed(s: Sys, id: TxnId, tok: Token, t: TierId, leak: int, most: int, least: int)
    requires Closed(s, t, leak, most, least) && CEnabled(s, Read(id, tok))
    ensures Closed(CNext(s, Read(id, tok)), t, leak, most, least)
  {
    var s' := CNext(s, Read(id, tok));
    forall other | other in s'.restorers
      ensures WritesEnough(s', s'.restorers[other], t, leak)
    {
      assert other != id ==> WritesEnough(s, s.restorers[other], t, leak);
    }
  }

  /** The ACTIVE sum drops by what leaves it. */
  lemma LeaveSum(s: Sys, id: TxnId, status: HoldStatus, t: TierId)
    requires CEnabled(s, Leave(id, status)) && t in s.tiers
    ensures ActiveSum(CNext(s, Leave(id, status)).holds, t) == ActiveSum(s.holds, t) - Drift(s, Leave(id, status), t)
    ensures Drift(s, Leave(id, status), t) >= 0
  {
    LeaveLeak(s, id, status, t);
  }

  lemma LeaveKeepsClosed(s: Sys, id: TxnId, status: HoldStatus, t: TierId, leak: int, most: int, least: int)
    requires Closed(s, t, leak, most, least) && CEnabled(s, Leave(id, status))
    ensures Closed(CNext(s, Leave(id, status)), t, leak, most, least)
  {
    var s' := CNext(s, Leave(id, status));
    LeaveSum(s, id, status, t);
    forall other | other in s'.restorers
      ensures WritesEnough(s', s'.restorers[other], t, leak)
    {
      assert WritesEnough(s, s.restorers[other], t, leak);
    }
  }

  lemma WriteBackKeepsClosed(s: Sys, id: TxnId, t: TierId, leak: int, most: int, least: int)
    requires Closed(s, t, leak, most, least) && CEnabled(s, WriteBack(id))
    ensures Closed(CNext(s, WriteBack(id)), t, leak, most, least)
  {
    var s' := CNext(s, WriteBack(id));
    assert WritesEnough(s, s.restorers[id], t, leak);
    forall other | other in s'.restorers
      ensures WritesEnough(s', s'.restorers[other], t, leak)
    {
      assert WritesEnough(s, s.restorers[other], t, leak);
    }
  }

  lemma StepKeepsClosed(s: Sys, step: CStep, t: TierId, leak: int, most: int, least: int)
    requires Sound(s, least) && Closed(s, t, leak, most, least) && CEnabled(s, step)
    ensures Closed(CNext(s, step), t, leak, most, least)
  {
    match step
    case Commit(id) =>
      if s.txns[id].quantity >= 0 && s.txns[id].token !in s.holds {
        CommitKeepsClosed(s, id, t, leak, most, least);
      } else {
        SameHoldsClosed(s, CNext(s, step), t, leak, most, least);
      }
    case Read(id, tok) => ReadKeepsClosed(s, id, tok, t, leak, most, least);
    case Leave(id, status) => LeaveKeepsClosed(s, id, status, t, leak, most, least);
    case WriteBack(id) => WriteBackKeepsClosed(s, id, t, leak, most, least);
    case _ => SameHoldsClosed(s, CNext(s, step), t, leak, most, least);
  }

  /** A closed tier stays closed over every interleaving. */
  lemma {:induction false} RunKeepsClosed(s: Sys, steps: seq<CStep>, t: TierId, leak: int, most: int, least: int)
    requires Sound(s, least) && Closed(s, t, leak, most, least)
    requires Interleaving(s, steps) && BeginsAtLeast(steps, least)
    ensures Sound(CRun(s, steps), least) && Closed(CRun(s, steps), t, leak, most, least)
    ensures SameSupply(s.tiers, CRun(s, steps).tiers)
  {
    if steps != [] {
      var s1 := CRun(s, Front(steps));
      RunKeepsClosed(s, Front(steps), t, leak, most, least);
      StepKeepsClosed(s1, Last(steps), t, leak, most, least);
      StepKeepsSound(s1, Last(steps), least);
      StepKeepsSupply(s1, Last(steps));
      SameSupplyTwice(s.tiers, s1.tiers, CNext(s1, Last(steps)).tiers);
    }
  }
}
