/** What interleavings keep, and what they do not. */
module ConcurrentTheorems {
  import opened Wrappers
  import opened Sequences
  import opened Records
  import opened HoldSums
  import opened CheckoutServices
  import opened ConcurrentHolds

  /** A locked row is the committed row. */
  ghost predicate LockedRowsFresh(s: Sys)
  {
    forall id :: id in s.txns && s.txns[id].phase != Waiting ==>
      s.txns[id].tier in s.tiers && s.txns[id].row == s.tiers[s.txns[id].tier]
  }

  /** A row past the stock check has room for the request. */
  ghost predicate StockCovered(s: Sys)
  {
    forall id :: id in s.txns && s.txns[id].phase == Stocked ==>
      s.txns[id].quantity <= s.txns[id].row.QuantityAvailable()
  }

  lemma BeginKeepsRows(s: Sys, step: CStep)
    requires LocksOk(s) && LockedRowsFresh(s) && CEnabled(s, step) && (step.Begin? || step.Lock?)
    ensures LockedRowsFresh(CNext(s, step))
  {}

  lemma ChecksKeepRows(s: Sys, step: CStep)
    requires LocksOk(s) && LockedRowsFresh(s) && CEnabled(s, step) && (step.Guard? || step.CheckStock?)
    ensures LockedRowsFresh(CNext(s, step))
  {}

  lemma AbortKeepsRows(s: Sys, id: TxnId)
    requires LockedRowsFresh(s) && id in s.txns
    ensures LockedRowsFresh(Aborted(s, id))
  {}

  lemma CommitKeepsRows(s: Sys, id: TxnId)
    requires LocksOk(s) && LockedRowsFresh(s) && InPhase(s, id, Stocked) && 0 <= s.txns[id].quantity
    ensures LockedRowsFresh(Committed(s, id))
  {
    var s' := Committed(s, id);
    forall other | other in s'.txns && s'.txns[other].phase != Waiting
      ensures s'.txns[other].tier != s.txns[id].tier
    {}
  }

  /** A counter is only written while its row is not locked by another transaction. */
  lemma RestorersKeepRows(s: Sys, step: CStep)
    requires LocksOk(s) && LockedRowsFresh(s) && CEnabled(s, step) && (step.Read? || step.Leave? || step.WriteBack?)
    ensures LockedRowsFresh(CNext(s, step))
  {}

  lemma StepKeepsRows(s: Sys, step: CStep)
    requires LocksOk(s) && LockedRowsFresh(s) && CEnabled(s, step)
    ensures LockedRowsFresh(CNext(s, step))
  {
    match step
    case Begin(_, _, _, _, _, _) => BeginKeepsRows(s, step);
    case Lock(_) => BeginKeepsRows(s, step);
    case Guard(_) => ChecksKeepRows(s, step);
    case CheckStock(_) => ChecksKeepRows(s, step);
    case Commit(id) => AbortKeepsRows(s, id); if 0 <= s.txns[id].quantity { CommitKeepsRows(s, id); }
    case _ => RestorersKeepRows(s, step);
  }

  lemma StepKeepsStock(s: Sys, step: CStep)
    requires StockCovered(s) && CEnabled(s, step)
    ensures StockCovered(CNext(s, step))
  {}

  /** Totals, sold counters and events are what they were. */
  predicate SameSupply(tiers: Tiers, tiers': Tiers)
  {
    && tiers'.Keys == tiers.Keys
    && forall t :: t in tiers ==>
         tiers'[t].total == tiers[t].total && tiers'[t].sold == tiers[t].sold && tiers'[t].event == tiers[t].event
  }

  lemma SameSupplyTwice(a: Tiers, b: Tiers, c: Tiers)
    requires SameSupply(a, b) && SameSupply(b, c)
    ensures SameSupply(a, c)
  {}

  lemma StepKeepsSupply(s: Sys, step: CStep)
    requires CEnabled(s, step)
    ensures SameSupply(s.tiers, CNext(s, step).tiers)
  {}

  // ----- the exact law of the counter over all interleavings -----

  /** What the counter holds back beyond the committed ACTIVE holds. */
  ghost function CLeak(s: Sys, t: TierId): int
    requires t in s.tiers
  {
    s.tiers[t].held - ActiveSum(s.holds, t)
  }

  /** What one step adds to that: a hold that leaves ACTIVE adds its quantity until its counter is
      written; that write sets the counter to what the writer once saw, less the quantity. */
  function Drift(s: Sys, step: CStep, t: TierId): int
    requires CEnabled(s, step) && t in s.tiers
  {
    match step
    case Leave(id, _) =>
      var h := s.holds[s.restorers[id].token];
      if h.tier == t && h.status == Active then h.quantity else 0
    case WriteBack(id) =>
      var r := s.restorers[id];
      var h := s.holds[r.token];
      if h.tier == t && r.seen - h.quantity >= 0 then r.seen - h.quantity - s.tiers[t].held else 0
    case _ => 0
  }

  lemma {:induction false} SameKeys(s: Sys, steps: seq<CStep>)
    requires Interleaving(s, steps)
    ensures CRun(s, steps).tiers.Keys == s.tiers.Keys
  {
    if steps != [] {
      SameKeys(s, Front(steps));
      StepKeepsEvents(CRun(s, Front(steps)), Last(steps));
    }
  }

  ghost function TotalDrift(s: Sys, steps: seq<CStep>, t: TierId): int
    requires Interleaving(s, steps) && t in s.tiers
  {
    if steps == [] then 0
    else
      SameKeys(s, Front(steps));
      TotalDrift(s, Front(steps), t) + Drift(CRun(s, Front(steps)), Last(steps), t)
  }

  lemma CommitLeak(s: Sys, id: TxnId, t: TierId)
    requires LocksOk(s) && LockedRowsFresh(s) && InPhase(s, id, Stocked) && 0 <= s.txns[id].quantity
    requires s.txns[id].token !in s.holds && t in s.tiers
    ensures t in Committed(s, id).tiers && CLeak(Committed(s, id), t) == CLeak(s, t)
  {
    ActiveSumAfterInsert(s.holds, s.txns[id].token, HoldOf(s.txns[id]), t);
  }

  lemma LeaveLeak(s: Sys, id: TxnId, status: HoldStatus, t: TierId)
    requires CEnabled(s, Leave(id, status)) && t in s.tiers
    ensures t in CNext(s, Leave(id, status)).tiers
    ensures CLeak(CNext(s, Leave(id, status)), t) == CLeak(s, t) + Drift(s, Leave(id, status), t)
  {
    var tok, s' := s.restorers[id].token, CNext(s, Leave(id, status));
    if s.holds[tok].status == Active {
      OneLeaves(s.holds, tok, status);
      ActiveSumAfterOne(s.holds, s'.holds, tok, t);
    } else {
      assert ActiveOn(s'.holds, t) == ActiveOn(s.holds, t);
      SumQtySame(s.holds, s'.holds, ActiveOn(s.holds, t));
    }
  }

  lemma StepDrift(s: Sys, step: CStep, t: TierId)
    requires LocksOk(s) && LockedRowsFresh(s) && CEnabled(s, step) && t in s.tiers
    ensures t in CNext(s, step).tiers && CLeak(CNext(s, step), t) == CLeak(s, t) + Drift(s, step, t)
  {
    match step
    case Commit(id) => if s.txns[id].quantity >= 0 && s.txns[id].token !in s.holds { CommitLeak(s, id, t); }
    case Leave(id, status) => LeaveLeak(s, id, status, t);
    case _ =>
  }

  /** Every interleaving of creates, releases and sweeps changes held minus the ACTIVE quantity of a tier
      by exactly the drift of its steps. */
  lemma {:induction false} DriftLaw(s: Sys, steps: seq<CStep>, t: TierId)
    requires LocksOk(s) && LockedRowsFresh(s) && Interleaving(s, steps) && t in s.tiers
    ensures LocksOk(CRun(s, steps)) && LockedRowsFresh(CRun(s, steps))
    ensures t in CRun(s, steps).tiers
    ensures CLeak(CRun(s, steps), t) == CLeak(s, t) + TotalDrift(s, steps, t)
  {
    if steps != [] {
      DriftLaw(s, Front(steps), t);
      StepKeepsLocks(CRun(s, Front(steps)), Last(steps));
      StepKeepsRows(CRun(s, Front(steps)), Last(steps));
      StepDrift(CRun(s, Front(steps)), Last(steps), t);
    }
  }

  // ----- creates only: the counters stay exact -----

  predicate CreateStep(step: CStep)
  {
    step.Begin? || step.Lock? || step.Guard? || step.CheckStock? || step.Commit?
  }

  predicate CreatesOnly(steps: seq<CStep>)
  {
    steps != [] ==> CreateStep(Last(steps)) && CreatesOnly(Front(steps))
  }

  ghost predicate Fits(s: Sys)
  {
    forall t :: t in s.tiers ==> s.tiers[t].held + s.tiers[t].sold <= s.tiers[t].total
  }

  lemma CreateStepFits(s: Sys, step: CStep)
    requires LockedRowsFresh(s) && StockCovered(s) && Fits(s) && CEnabled(s, step) && CreateStep(step)
    ensures Fits(CNext(s, step))
  {}

  /** Every interleaving of creates alone keeps held + sold within the total of every tier, and held
      minus the quantity of the committed ACTIVE holds unchanged: the lock covers read, check and write. */
  lemma {:induction false} CreatesNeverOversell(s: Sys, steps: seq<CStep>, t: TierId)
    requires LocksOk(s) && LockedRowsFresh(s) && StockCovered(s) && Fits(s) && t in s.tiers
    requires Interleaving(s, steps) && CreatesOnly(steps)
    ensures LocksOk(CRun(s, steps)) && LockedRowsFresh(CRun(s, steps))
    ensures StockCovered(CRun(s, steps)) && Fits(CRun(s, steps))
    ensures t in CRun(s, steps).tiers && CLeak(CRun(s, steps), t) == CLeak(s, t)
  {
    if steps != [] {
      var s1 := CRun(s, Front(steps));
      CreatesNeverOversell(s, Front(steps), t);
      StepKeepsLocks(s1, Last(steps));
      StepKeepsRows(s1, Last(steps));
      StepKeepsStock(s1, Last(steps));
      CreateStepFits(s1, Last(steps));
      StepDrift(s1, Last(steps), t);
    }
  }

  /** A commit that succeeds writes what the serial `create_hold` would write in the same database; only
      its abuse guard might by then refuse. */
  lemma CommitIsSerialCreate(s: Sys, id: TxnId, w: World, c: CreateCall)
    requires LocksOk(s) && LockedRowsFresh(s) && StockCovered(s) && InPhase(s, id, Stocked)
    requires ForeignKeys(w) && w.tiers == s.tiers && w.holds == s.holds
    requires c.user == s.txns[id].user && c.tier == s.txns[id].tier && c.token == s.txns[id].token
    requires c.quantity == s.txns[id].quantity && c.now + HOLD_DURATION == s.txns[id].expiresAt
    requires CreateRefusal(w, c) != Some(HoldAbuse)
    ensures CNext(s, Commit(id)).tiers == AfterCreate(w, c).tiers
    ensures CNext(s, Commit(id)).holds == AfterCreate(w, c).holds
  {
    if c.quantity >= 0 && c.token !in w.holds {
      assert CreateRefusal(w, c).None?;
    }
  }

  // ----- one release or swept hold, overlapped by creates -----

  /** This step commits a new hold on `t`. */
  predicate CommitsOn(s: Sys, step: CStep, t: TierId)
    requires CEnabled(s, step)
  {
    step.Commit? && s.txns[step.id].tier == t && s.txns[step.id].quantity >= 0 && s.txns[step.id].token !in s.holds
  }

  function CommittedBy(s: Sys, step: CStep, t: TierId): nat
    requires CEnabled(s, step)
  {
    if CommitsOn(s, step, t) then s.txns[step.id].quantity else 0
  }

  /** Quantity of the holds that these steps commit on `t`. */
  function CommittedOn(s: Sys, steps: seq<CStep>, t: TierId): nat
    requires Interleaving(s, steps)
  {
    if steps == [] then 0
    else CommittedOn(s, Front(steps), t) + CommittedBy(CRun(s, Front(steps)), Last(steps), t)
  }

  /** Between its read and its write the restorer `id` saves the new status; all other steps are of creates. */
  predicate OnlyCreatesAnd(id: TxnId, steps: seq<CStep>)
  {
    steps != [] ==>
      (CreateStep(Last(steps)) || (Last(steps).Leave? && Last(steps).id == id)) && OnlyCreatesAnd(id, Front(steps))
  }

  /** The restorer `id` of hold `tok` is under way since `s0`; `n` tickets of its tier were committed since. */
  ghost predicate Underway(s0: Sys, s: Sys, id: TxnId, tok: Token, t: TierId, n: nat)
  {
    && LocksOk(s) && LockedRowsFresh(s)
    && id in s0.restorers && id in s.restorers
    && s.restorers[id].token == tok && s.restorers[id].seen == s0.restorers[id].seen
    && tok in s0.holds && tok in s.holds && s.holds[tok].tier == t && s.holds[tok].quantity == s0.holds[tok].quantity
    && (s.restorers[id].left <==> s.holds[tok].status != Active)
    && t in s0.tiers && t in s.tiers && s.tiers[t].held == s0.tiers[t].held + n
    && CLeak(s, t) == CLeak(s0, t) + (if s.restorers[id].left then s.holds[tok].quantity else 0)
  }

  lemma CreateStepCounts(s: Sys, step: CStep, t: TierId)
    requires LocksOk(s) && LockedRowsFresh(s) && CEnabled(s, step) && CreateStep(step) && t in s.tiers
    ensures t in CNext(s, step).tiers
    ensures CNext(s, step).tiers[t].held == s.tiers[t].held + CommittedBy(s, step, t)
    ensures CNext(s, step).restorers == s.restorers
    ensures forall tok :: tok in s.holds ==> tok in CNext(s, step).holds && CNext(s, step).holds[tok] == s.holds[tok]
  {}

  lemma UnderwayStep(s0: Sys, s: Sys, id: TxnId, tok: Token, t: TierId, n: nat, step: CStep)
    requires Underway(s0, s, id, tok, t, n) && CEnabled(s, step)
    requires CreateStep(step) || (step.Leave? && step.id == id)
    ensures Underway(s0, CNext(s, step), id, tok, t, n + CommittedBy(s, step, t))
  {
    StepKeepsLocks(s, step);
    StepKeepsRows(s, step);
    StepDrift(s, step, t);
    if CreateStep(step) {
      CreateStepCounts(s, step, t);
    }
  }

  lemma {:induction false} StaysUnderway(s: Sys, id: TxnId, tok: Token, t: TierId, steps: seq<CStep>)
    requires Underway(s, s, id, tok, t, 0) && Interleaving(s, steps) && OnlyCreatesAnd(id, steps)
    ensures Underway(s, CRun(s, steps), id, tok, t, CommittedOn(s, steps, t))
  {
    if steps != [] {
      StaysUnderway(s, id, tok, t, Front(steps));
      UnderwayStep(s, CRun(s, Front(steps)), id, tok, t, CommittedOn(s, Front(steps), t), Last(steps));
    }
  }

  /** A release or swept hold overlapped by creates takes back, when it finally writes, every ticket that
      they committed on its tier since it read the counter. */
  lemma OverlapLaw(s: Sys, id: TxnId, tok: Token, steps: seq<CStep>)
    requires LocksOk(s) && LockedRowsFresh(s) && CEnabled(s, Read(id, tok)) && CLeak(s, s.holds[tok].tier) >= 0
    requires Interleaving(CNext(s, Read(id, tok)), steps) && OnlyCreatesAnd(id, steps)
    requires CEnabled(CRun(CNext(s, Read(id, tok)), steps), WriteBack(id))
    ensures var t, s1 := s.holds[tok].tier, CNext(s, Read(id, tok));
            var s' := CNext(CRun(s1, steps), WriteBack(id));
            t in s'.tiers && CLeak(s', t) == CLeak(s, t) - CommittedOn(s1, steps, t)
  {
    var t, s1 := s.holds[tok].tier, CNext(s, Read(id, tok));
    StepKeepsLocks(s, Read(id, tok));
    StepKeepsRows(s, Read(id, tok));
    StaysUnderway(s1, id, tok, t, steps);
    StepDrift(CRun(s1, steps), WriteBack(id), t);
    SumQtyAtLeast(s.holds, ActiveOn(s.holds, t), tok);
  }

  /** No new hold on `t` is committed. */
  predicate NoCommitOn(s: Sys, steps: seq<CStep>, t: TierId)
    requires Interleaving(s, steps)
  {
    steps != [] ==> !CommitsOn(CRun(s, Front(steps)), Last(steps), t) && NoCommitOn(s, Front(steps), t)
  }

  ghost predicate TxnsAtLeast(s: Sys, least: int)
  {
    forall id :: id in s.txns ==> s.txns[id].quantity >= least
  }

  /** Every create begun in these steps asks for at least `least` tickets. */
  predicate BeginsAtLeast(steps: seq<CStep>, least: int)
  {
    steps != [] ==> (Last(steps).Begin? ==> Last(steps).quantity >= least) && BeginsAtLeast(Front(steps), least)
  }

  lemma StepKeepsLeast(s: Sys, step: CStep, least: int)
    requires TxnsAtLeast(s, least) && CEnabled(s, step) && (step.Begin? ==> step.quantity >= least)
    ensures TxnsAtLeast(CNext(s, step), least)
  {}

  lemma {:induction false} CommittedOnExactly(s: Sys, steps: seq<CStep>, t: TierId)
    requires Interleaving(s, steps) && TxnsAtLeast(s, 1) && BeginsAtLeast(steps, 1)
    ensures TxnsAtLeast(CRun(s, steps), 1)
    ensures CommittedOn(s, steps, t) == 0 <==> NoCommitOn(s, steps, t)
  {
    if steps != [] {
      CommittedOnExactly(s, Front(steps), t);
      StepKeepsLeast(CRun(s, Front(steps)), Last(steps), 1);
    }
  }

  /** With creates of at least one ticket: a release overlapped by creates leaves what the counter holds
      beyond the ACTIVE holds unchanged exactly when no create on its tier commits between its read of
      the counter and its write. */
  lemma OverlapKeepsCounterExactly(s: Sys, id: TxnId, tok: Token, steps: seq<CStep>)
    requires LocksOk(s) && LockedRowsFresh(s) && CEnabled(s, Read(id, tok)) && CLeak(s, s.holds[tok].tier) >= 0
    requires Interleaving(CNext(s, Read(id, tok)), steps) && OnlyCreatesAnd(id, steps)
    requires CEnabled(CRun(CNext(s, Read(id, tok)), steps), WriteBack(id))
    requires TxnsAtLeast(s, 1) && BeginsAtLeast(steps, 1)
    ensures var t, s1 := s.holds[tok].tier, CNext(s, Read(id, tok));
            var s' := CNext(CRun(s1, steps), WriteBack(id));
            t in s'.tiers && (CLeak(s', t) == CLeak(s, t) <==> NoCommitOn(s1, steps, t))
  {
    OverlapLaw(s, id, tok, steps);
    CommittedOnExactly(CNext(s, Read(id, tok)), steps, s.holds[tok].tier);
  }
}
