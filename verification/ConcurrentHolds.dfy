/** Concurrent transactions under READ COMMITTED: `create_hold` step by step under its row lock, and the
    unlocked read-then-write that releases and sweeps perform. */
module ConcurrentHolds {
  import opened Inventory
  import opened Sequences
  import opened Records
  import opened HoldSums
  import opened CheckoutServices

  newtype TxnId = id: int | 0 <= id

  /** How far a `create_hold` transaction has come. */
  datatype Phase = Waiting | Locked | Guarded | Stocked

  /** `row` is the tier row as SELECT FOR UPDATE returned it (meaningless while Waiting). */
  datatype Txn = Txn(
    user: UserId,
    tier: TierId,
    quantity: int,
    token: Token,
    expiresAt: Time,
    phase: Phase,
    row: TicketTier)

  /** One hold on its way out of ACTIVE: `seen` is the counter its writer has read, without a lock. */
  datatype Restorer = Restorer(token: Token, seen: int, left: bool)

  /** Committed rows, row locks, and the transactions in flight. */
  datatype Sys = Sys(
    tiers: Tiers,
    holds: Holds,
    locks: map<TierId, TxnId>,
    txns: map<TxnId, Txn>,
    restorers: map<TxnId, Restorer>)

  datatype CStep =
    | Begin(id: TxnId, user: UserId, tier: TierId, quantity: int, token: Token, expiresAt: Time)
    | Lock(id: TxnId)       // SELECT ... FOR UPDATE returns
    | Guard(id: TxnId)      // the count of committed ACTIVE holds, and the abuse guard
    | CheckStock(id: TxnId) // the stock check on the locked row
    | Commit(id: TxnId)     // the new hold and the counter become visible, the lock goes
    | Read(id: TxnId, token: Token)         // a release or sweep loads a hold with its tier's counter
    | Leave(id: TxnId, status: HoldStatus)  // it saves the hold's new status
    | WriteBack(id: TxnId)                  // it writes the counter computed from what it read

  predicate InPhase(s: Sys, id: TxnId, phase: Phase)
  {
    id in s.txns && s.txns[id].phase == phase
  }

  predicate CEnabled(s: Sys, step: CStep)
  {
    match step
    case Begin(id, _, tier, _, _, _) => id !in s.txns && tier in s.tiers
    case Lock(id) => InPhase(s, id, Waiting) && s.txns[id].tier !in s.locks && s.txns[id].tier in s.tiers
    case Guard(id) => InPhase(s, id, Locked)
    case CheckStock(id) => InPhase(s, id, Guarded)
    case Commit(id) => InPhase(s, id, Stocked) && s.txns[id].tier in s.tiers
    case Read(id, tok) =>
      id !in s.restorers && tok in s.holds && s.holds[tok].status == Active && s.holds[tok].tier in s.tiers
    case Leave(id, status) =>
      id in s.restorers && !s.restorers[id].left && s.restorers[id].token in s.holds
      && (status == Expired || status == Released)
    case WriteBack(id) =>
      id in s.restorers && s.restorers[id].left && s.restorers[id].token in s.holds
      && s.holds[s.restorers[id].token].tier in s.tiers
      && s.holds[s.restorers[id].token].tier !in s.locks // an UPDATE waits for the row lock
  }

  /** Rolling back publishes nothing and frees the lock. */
  function Aborted(s: Sys, id: TxnId): Sys
    requires id in s.txns
  {
    s.(locks := s.locks - {s.txns[id].tier}, txns := s.txns - {id})
  }

  function AtPhase(s: Sys, id: TxnId, phase: Phase): Sys
    requires id in s.txns
  {
    s.(txns := s.txns[id := s.txns[id].(phase := phase)])
  }

  function HoldOf(x: Txn): CheckoutHold
    requires 0 <= x.quantity
  {
    CheckoutHold(x.user, x.tier, x.quantity, Active, x.expiresAt)
  }

  function Committed(s: Sys, id: TxnId): Sys
    requires id in s.txns && s.txns[id].tier in s.tiers && 0 <= s.txns[id].quantity
  {
    var x := s.txns[id];
    s.(
      holds := s.holds[x.token := HoldOf(x)],
      tiers := WithHeld(s.tiers, x.tier, x.row.held + x.quantity),
      locks := s.locks - {x.tier},
      txns := s.txns - {id})
  }

  function CNext(s: Sys, step: CStep): Sys
    requires CEnabled(s, step)
  {
    match step
    case Begin(id, user, tier, quantity, token, expiresAt) =>
      s.(txns := s.txns[id := Txn(user, tier, quantity, token, expiresAt, Waiting, s.tiers[tier])])
    case Lock(id) =>
      var x := s.txns[id];
      s.(locks := s.locks[x.tier := id], txns := s.txns[id := x.(phase := Locked, row := s.tiers[x.tier])])
    case Guard(id) =>
      var x := s.txns[id];
      if |ActiveHolds(s.tiers, s.holds, x.user, x.row.event)| >= MAX_HOLDS_PER_USER_PER_EVENT
      then Aborted(s, id) else AtPhase(s, id, Guarded)
    case CheckStock(id) =>
      var x := s.txns[id];
      if x.row.QuantityAvailable() < x.quantity then Aborted(s, id) else AtPhase(s, id, Stocked)
    case Commit(id) =>
      var x := s.txns[id];
      if x.quantity < 0 || x.token in s.holds then Aborted(s, id) else Committed(s, id)
    case Read(id, tok) =>
      s.(restorers := s.restorers[id := Restorer(tok, s.tiers[s.holds[tok].tier].held, false)])
    case Leave(id, status) =>
      var r := s.restorers[id];
      s.(holds := WithStatus(s.holds, r.token, status), restorers := s.restorers[id := r.(left := true)])
    case WriteBack(id) =>
      var r := s.restorers[id];
      var h := s.holds[r.token];
      if r.seen - h.quantity < 0 then s.(restorers := s.restorers - {id}) // refused by the check constraint
      else s.(tiers := WithHeld(s.tiers, h.tier, r.seen - h.quantity), restorers := s.restorers - {id})
  }

  function CRun(s: Sys, steps: seq<CStep>): Sys
  {
    if steps == [] then s
    else
      var s1 := CRun(s, Front(steps));
      if CEnabled(s1, Last(steps)) then CNext(s1, Last(steps)) else s1
  }

  /** An interleaving: every step could happen when it did. */
  predicate Interleaving(s: Sys, steps: seq<CStep>)
  {
    steps != [] ==> Interleaving(s, Front(steps)) && CEnabled(CRun(s, Front(steps)), Last(steps))
  }

  function TiersOf(tiers: Tiers, event: EventId): set<TierId>
  {
    set t | t in tiers && tiers[t].event == event
  }

  /** Creates of a user on some tiers that have passed the abuse guard and are not finished. */
  function InFlight(s: Sys, user: UserId, open: set<TierId>): set<TxnId>
  {
    set id | id in s.txns && s.txns[id].user == user && s.txns[id].tier in open
             && (s.txns[id].phase == Guarded || s.txns[id].phase == Stocked)
  }

  /** Every transaction past its lock is the one holder of its tier's lock. */
  ghost predicate LocksOk(s: Sys)
  {
    && (forall id :: id in s.txns ==> s.txns[id].tier in s.tiers)
    && (forall id :: id in s.txns && s.txns[id].phase != Waiting ==>
          && s.txns[id].tier in s.locks && s.locks[s.txns[id].tier] == id
          && s.txns[id].row.event == s.tiers[s.txns[id].tier].event)
    && (forall tok :: tok in s.holds ==> s.holds[tok].tier in s.tiers)
  }

  /** The user's ACTIVE holds on an event and creates past the guard on its `open` tiers, together. */
  ghost predicate UserBound(s: Sys, user: UserId, event: EventId, open: set<TierId>)
  {
    && open <= TiersOf(s.tiers, event)
    && |ActiveHolds(s.tiers, s.holds, user, event)| + |InFlight(s, user, open)|
       <= MAX_HOLDS_PER_USER_PER_EVENT - 1 + |open|
  }

  /** Only creates on the open tiers of the event are about to commit. */
  ghost predicate StockedOpen(s: Sys, event: EventId, open: set<TierId>)
  {
    forall id :: id in s.txns && s.txns[id].phase == Stocked && s.txns[id].tier in TiersOf(s.tiers, event) ==>
      s.txns[id].tier in open
  }

  lemma {:induction false} ImageCardinality(m: map<TierId, TxnId>, s: set<TierId>)
    requires s <= m.Keys
    ensures |set t | t in s :: m[t]| <= |s|
    decreases |s|
  {
    if s != {} {
      var x :| x in s;
      ImageCardinality(m, s - {x});
      assert (set t | t in s :: m[t]) == (set t | t in s - {x} :: m[t]) + {m[x]};
    }
  }

  /** One lock holder per tier: no more creates are past the guard than there are tiers. */
  lemma InFlightBounded(s: Sys, user: UserId, open: set<TierId>)
    requires LocksOk(s)
    ensures |InFlight(s, user, open)| <= |open|
  {
    var held := set t | t in open && t in s.locks;
    ImageCardinality(s.locks, held);
    SubsetCardinality(held, open);
    var holders := set t | t in held :: s.locks[t];
    forall id | id in InFlight(s, user, open)
      ensures id in holders
    {
      assert s.txns[id].tier in held;
    }
    SubsetCardinality(InFlight(s, user, open), holders);
  }

  lemma SameTiersOf(tiers: Tiers, tiers': Tiers, event: EventId)
    requires SameEvents(tiers, tiers')
    ensures TiersOf(tiers', event) == TiersOf(tiers, event)
  {}

  // ----- every step keeps the lock discipline -----

  lemma AbortKeepsLocks(s: Sys, id: TxnId)
    requires LocksOk(s) && id in s.txns && s.txns[id].phase != Waiting
    ensures LocksOk(Aborted(s, id))
  {}

  lemma PhaseKeepsLocks(s: Sys, id: TxnId, phase: Phase)
    requires LocksOk(s) && id in s.txns && s.txns[id].phase != Waiting && phase != Waiting
    ensures LocksOk(AtPhase(s, id, phase))
  {}

  lemma CommitKeepsLocks(s: Sys, id: TxnId)
    requires LocksOk(s) && id in s.txns && s.txns[id].phase != Waiting && 0 <= s.txns[id].quantity
    ensures LocksOk(Committed(s, id))
  {}

  lemma LockKeepsLocks(s: Sys, id: TxnId)
    requires LocksOk(s) && CEnabled(s, Lock(id))
    ensures LocksOk(CNext(s, Lock(id)))
  {}

  lemma RestorersKeepLocks(s: Sys, step: CStep)
    requires LocksOk(s) && CEnabled(s, step) && (step.Read? || step.Leave? || step.WriteBack? || step.Begin?)
    ensures LocksOk(CNext(s, step))
  {}

  lemma StepKeepsLocks(s: Sys, step: CStep)
    requires LocksOk(s) && CEnabled(s, step)
    ensures LocksOk(CNext(s, step))
  {
    match step
    case Begin(_, _, _, _, _, _) => RestorersKeepLocks(s, step);
    case Lock(id) => LockKeepsLocks(s, id);
    case Guard(id) => AbortKeepsLocks(s, id); PhaseKeepsLocks(s, id, Guarded);
    case CheckStock(id) => AbortKeepsLocks(s, id); PhaseKeepsLocks(s, id, Stocked);
    case Commit(id) => AbortKeepsLocks(s, id); if 0 <= s.txns[id].quantity { CommitKeepsLocks(s, id); }
    case Read(_, _) => RestorersKeepLocks(s, step);
    case Leave(_, _) => RestorersKeepLocks(s, step);
    case WriteBack(_) => RestorersKeepLocks(s, step);
  }

  lemma StepKeepsEvents(s: Sys, step: CStep)
    requires CEnabled(s, step)
    ensures SameEvents(s.tiers, CNext(s, step).tiers)
  {}

  // ----- and the bound per user and event -----

  lemma FewerInFlight(s: Sys, s': Sys, user: UserId, event: EventId, open: set<TierId>)
    requires s'.tiers == s.tiers && s'.holds == s.holds && UserBound(s, user, event, open)
    requires InFlight(s', user, open) <= InFlight(s, user, open)
    ensures UserBound(s', user, event, open)
  {
    SubsetCardinality(InFlight(s', user, open), InFlight(s, user, open));
  }

  lemma GuardKeepsBound(s: Sys, id: TxnId, user: UserId, event: EventId, open: set<TierId>)
    requires LocksOk(s) && CEnabled(s, Guard(id)) && UserBound(s, user, event, open)
    ensures UserBound(CNext(s, Guard(id)), user, event, open)
  {
    var x, s' := s.txns[id], CNext(s, Guard(id));
    if |ActiveHolds(s.tiers, s.holds, x.user, x.row.event)| >= MAX_HOLDS_PER_USER_PER_EVENT {
      FewerInFlight(s, s', user, event, open);
    } else if x.user == user && x.tier in open {
      StepKeepsLocks(s, Guard(id));
      InFlightBounded(s', user, open);
    } else {
      FewerInFlight(s, s', user, event, open);
    }
  }

  lemma CheckStockKeepsBound(s: Sys, id: TxnId, user: UserId, event: EventId, open: set<TierId>)
    requires CEnabled(s, CheckStock(id)) && UserBound(s, user, event, open)
    ensures UserBound(CNext(s, CheckStock(id)), user, event, open)
  {
    FewerInFlight(s, CNext(s, CheckStock(id)), user, event, open);
  }

  lemma CommitKeepsBound(s: Sys, id: TxnId, user: UserId, event: EventId, open: set<TierId>)
    requires LocksOk(s) && CEnabled(s, Commit(id)) && UserBound(s, user, event, open)
    requires StockedOpen(s, event, open)
    ensures UserBound(CNext(s, Commit(id)), user, event, open)
  {
    var x, s' := s.txns[id], CNext(s, Commit(id));
    if x.quantity < 0 || x.token in s.holds {
      FewerInFlight(s, s', user, event, open);
    } else {
      ActiveHoldsAfterInsert(s.tiers, s'.tiers, s.holds, x.token, HoldOf(x), user, event);
      SameTiersOf(s.tiers, s'.tiers, event);
      CommittedInFlight(s, id, user, open);
    }
  }

  lemma CommittedInFlight(s: Sys, id: TxnId, user: UserId, open: set<TierId>)
    requires LocksOk(s) && InPhase(s, id, Stocked) && 0 <= s.txns[id].quantity
    ensures |InFlight(Committed(s, id), user, open)|
         == |InFlight(s, user, open)| - (if s.txns[id].user == user && s.txns[id].tier in open then 1 else 0)
  {
    var before, after := InFlight(s, user, open), InFlight(Committed(s, id), user, open);
    assert after == before - {id};
    assert id in before <==> s.txns[id].user == user && s.txns[id].tier in open;
  }

  lemma LeaveKeepsBound(s: Sys, id: TxnId, status: HoldStatus, user: UserId, event: EventId, open: set<TierId>)
    requires CEnabled(s, Leave(id, status)) && UserBound(s, user, event, open)
    ensures UserBound(CNext(s, Leave(id, status)), user, event, open)
  {
    var s' := CNext(s, Leave(id, status));
    assert InFlight(s', user, open) == InFlight(s, user, open);
    SubsetCardinality(ActiveHolds(s'.tiers, s'.holds, user, event), ActiveHolds(s.tiers, s.holds, user, event));
  }

  lemma WriteBackKeepsBound(s: Sys, id: TxnId, user: UserId, event: EventId, open: set<TierId>)
    requires CEnabled(s, WriteBack(id)) && UserBound(s, user, event, open)
    ensures UserBound(CNext(s, WriteBack(id)), user, event, open)
  {
    var s' := CNext(s, WriteBack(id));
    assert InFlight(s', user, open) == InFlight(s, user, open);
    assert ActiveHolds(s'.tiers, s'.holds, user, event) == ActiveHolds(s.tiers, s.holds, user, event);
    SameTiersOf(s.tiers, s'.tiers, event);
  }

  lemma StepKeepsBound(s: Sys, step: CStep, user: UserId, event: EventId, open: set<TierId>)
    requires LocksOk(s) && CEnabled(s, step) && UserBound(s, user, event, open) && StockedOpen(s, event, open)
    ensures UserBound(CNext(s, step), user, event, open)
  {
    match step
    case Begin(_, _, _, _, _, _) => FewerInFlight(s, CNext(s, step), user, event, open);
    case Lock(_) => FewerInFlight(s, CNext(s, step), user, event, open);
    case Guard(id) => GuardKeepsBound(s, id, user, event, open);
    case CheckStock(id) => CheckStockKeepsBound(s, id, user, event, open);
    case Commit(id) => CommitKeepsBound(s, id, user, event, open);
    case Read(_, _) => FewerInFlight(s, CNext(s, step), user, event, open);
    case Leave(id, status) => LeaveKeepsBound(s, id, status, user, event, open);
    case WriteBack(id) => WriteBackKeepsBound(s, id, user, event, open);
  }

  /** Every interleaving of creates with releases and sweeps keeps, for every user and event, ACTIVE
      holds plus creates past the guard within MAX - 1 plus the number of the event's tiers. */
  lemma {:induction false} BoundInEveryInterleaving(s: Sys, steps: seq<CStep>, user: UserId, event: EventId)
    requires LocksOk(s) && UserBound(s, user, event, TiersOf(s.tiers, event)) && Interleaving(s, steps)
    ensures LocksOk(CRun(s, steps)) && TiersOf(CRun(s, steps).tiers, event) == TiersOf(s.tiers, event)
    ensures UserBound(CRun(s, steps), user, event, TiersOf(s.tiers, event))
  {
    if steps != [] {
      var s1 := CRun(s, Front(steps));
      BoundInEveryInterleaving(s, Front(steps), user, event);
      StepKeepsLocks(s1, Last(steps));
      StepKeepsBound(s1, Last(steps), user, event, TiersOf(s.tiers, event));
      StepKeepsEvents(s1, Last(steps));
      SameTiersOf(s1.tiers, CNext(s1, Last(steps)).tiers, event);
    }
  }
}
