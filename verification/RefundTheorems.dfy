/** Refunds: all or nothing, at most once, and never below the paid tickets. */
module RefundTheorems {
  import opened Wrappers
  import opened Inventory
  import opened Sequences
  import opened Records
  import opened CheckoutServices
  import opened CheckoutTasks
  import opened PaymentTasks
  import opened Refunds
  import opened HoldRuns
  import opened HoldInvariants

  /** A refund changes the state exactly when it succeeds; then it changes this payment, its tickets, and
      of the tiers no more than their sold counters. */
  lemma RefundAllOrNothing(w: World, pid: PaymentId, auditPk: Option<AuditId>)
    ensures var w' := AfterRefund(w, pid, auditPk);
            && (w' == w <==> RefundFailure(w, pid, auditPk).Some?)
            && (w' != w ==>
                  && w' == w.(payments := w'.payments, tickets := w'.tickets, tiers := w'.tiers)
                  && w'.payments.Keys == w.payments.Keys && w'.tickets.Keys == w.tickets.Keys
                  && (forall p :: p in w.payments ==>
                        w'.payments[p] == if p == pid then w.payments[p].(status := Refunded) else w.payments[p])
                  && (forall id :: id in w.tickets ==>
                        w'.tickets[id] == if w.tickets[id].payment == Some(pid)
                                          then w.tickets[id].(status := Cancelled) else w.tickets[id]))
  {
    if RefundFailure(w, pid, auditPk).None? {
      assert AfterRefund(w, pid, auditPk).payments[pid].status == Refunded;
    }
  }

  /** Each tier's sold counter drops by exactly the number of the payment's tickets on it. */
  lemma RefundedTicketsLeaveSold(w: World, pid: PaymentId, auditPk: Option<AuditId>, t: TierId)
    requires t in w.tiers && RefundFailure(w, pid, auditPk).None?
    ensures var w', gone := AfterRefund(w, pid, auditPk), TicketsOnTier(w, TicketsOf(w, pid), t);
            && t in w'.tiers
            && |gone| <= w.tiers[t].sold
            && w'.tiers[t] == w.tiers[t].(sold := w.tiers[t].sold - |gone|)
  {}

  /** Which answer a refund gets: each outcome exactly on its own condition, in the order of the checks. */
  lemma RefundOutcomeExactly(w: World, pid: PaymentId, auditPk: Option<AuditId>)
    ensures var known := pid in w.payments;
            var paid := known && w.payments[pid].status == Succeeded;
            var used := set id | id in w.tickets && w.tickets[id].payment == Some(pid)
                                 && w.tickets[id].status == CheckedIn;
            var covered := forall t :: t in w.tiers ==>
                             |set id | id in w.tickets && w.tickets[id].payment == Some(pid)
                                       && w.tickets[id].tier == t| <= w.tiers[t].sold;
            var f := RefundFailure(w, pid, auditPk);
            && (f == Some(PaymentNotFound) <==> !known)
            && (forall status :: f == Some(WrongStatus(status)) <==>
                  known && w.payments[pid].status == status && status != Succeeded)
            && (forall n :: f == Some(PostCheckin(n)) <==> paid && n > 0 && n == |used|)
            && (f == Some(RefundError.ConstraintViolation) <==> paid && |used| == 0 && !covered)
            && (f == Some(AuditImmutable) <==> paid && |used| == 0 && covered && auditPk.Some?)
            && (f == None <==> paid && |used| == 0 && covered && auditPk.None?)
  {
    assert CheckedInOf(w.tickets, pid)
        == set id | id in w.tickets && w.tickets[id].payment == Some(pid) && w.tickets[id].status == CheckedIn;
    CoveredExactly(w, pid);
  }

  lemma CoveredExactly(w: World, pid: PaymentId)
    ensures SoldCovers(w, TicketsOf(w, pid)) <==>
            forall t :: t in w.tiers ==>
              |set id | id in w.tickets && w.tickets[id].payment == Some(pid) && w.tickets[id].tier == t|
              <= w.tiers[t].sold
  {
    forall t | t in w.tiers
      ensures TicketsOnTier(w, TicketsOf(w, pid), t)
           == set id | id in w.tickets && w.tickets[id].payment == Some(pid) && w.tickets[id].tier == t
    {}
  }

  /** In a reachable state the sold counters never stand in the way: a refund commits exactly when the
      payment succeeded, none of its tickets is checked in and the audit entry can be saved. */
  lemma RefundCommitsExactly(w: World, ops: seq<Op>, pid: PaymentId, auditPk: Option<AuditId>)
    requires Inv(w) && ValidRun(w, ops)
    ensures var w' := Run(w, ops);
            RefundFailure(w', pid, auditPk).None? <==>
              && pid in w'.payments && w'.payments[pid].status == Succeeded
              && (forall id :: id in w'.tickets && w'.tickets[id].payment == Some(pid) ==>
                    w'.tickets[id].status != CheckedIn)
              && auditPk.None?
  {
    RunKeepsInv(w, ops);
    var w' := Run(w, ops);
    NoneCheckedIn(w', pid);
    if pid in w'.payments && w'.payments[pid].status == Succeeded {
      RefundCovered(w', pid);
    }
  }

  lemma NoneCheckedIn(w: World, pid: PaymentId)
    ensures |CheckedInOf(w.tickets, pid)| == 0
       <==> forall id :: id in w.tickets && w.tickets[id].payment == Some(pid) ==> w.tickets[id].status != CheckedIn
  {
    if |CheckedInOf(w.tickets, pid)| == 0 {
      forall id | id in w.tickets && w.tickets[id].payment == Some(pid)
        ensures w.tickets[id].status != CheckedIn
      {
        assert id !in CheckedInOf(w.tickets, pid);
      }
    } else {
      assert CheckedInOf(w.tickets, pid) != {};
    }
  }

  /** No payment, no ticket and no sold counter differs. */
  predicate NothingRefunded(w: World, w': World)
  {
    && w'.payments == w.payments && w'.tickets == w.tickets && w'.tiers.Keys == w.tiers.Keys
    && forall t :: t in w.tiers ==> w'.tiers[t].sold == w.tiers[t].sold
  }

  lemma LeavingRefundsNothing(w: World, w': World, batch: set<Token>, touched: set<TierId>)
    requires HoldsLeft(w, w', batch, touched)
    ensures NothingRefunded(w, w')
  {}

  lemma ReleaseRefundsNothing(w: World, tok: Token)
    requires Inv(w)
    ensures NothingRefunded(w, AfterRelease(w, tok))
  {
    if IsActive(w, tok) {
      ReleaseLeaves(w, tok);
      LeavingRefundsNothing(w, AfterRelease(w, tok), {tok}, {w.holds[tok].tier});
    }
  }

  lemma TimeoutRefundsNothing(w: World, tok: Token, now: Time)
    requires Inv(w)
    ensures NothingRefunded(w, AfterTimeout(w, tok, now))
  {
    ReleaseRefundsNothing(w, tok);
  }

  lemma SweepRefundsNothing(w: World, now: Time, order: seq<Token>)
    requires Inv(w) && Lists(order, Batch(w, now))
    ensures NothingRefunded(w, AfterSweep(w, now, order))
  {
    SweepLeaves(w, now, order);
    LeavingRefundsNothing(w, AfterSweep(w, now, order), Elements(order), Touched(w.holds, order));
  }

  lemma CreateRefundsNothing(w: World, c: CreateCall)
    requires ForeignKeys(w)
    ensures NothingRefunded(w, AfterCreate(w, c))
  {}

  lemma FillRefundsNothing(w: World, t: TierId, now: Time)
    requires ForeignKeys(w)
    ensures NothingRefunded(w, AfterFill(w, t, now))
  {}

  lemma HoldStepRefundsNothing(w: World, op: Op)
    requires Inv(w) && Enabled(w, op) && !op.Refund?
    ensures NothingRefunded(w, Step(w, op))
  {
    match op
    case Create(c) => CreateRefundsNothing(w, c);
    case Release(tok) => ReleaseRefundsNothing(w, tok);
    case Sweep(now, order) => SweepRefundsNothing(w, now, order);
    case Timeout(tok, now) => TimeoutRefundsNothing(w, tok, now);
    case Fill(t, now) => FillRefundsNothing(w, t, now);
  }

  /** A payment that is not SUCCEEDED never becomes SUCCEEDED, and every other status change is from
      SUCCEEDED to REFUNDED. */
  lemma StepPayments(w: World, op: Op, pid: PaymentId)
    requires Inv(w) && Enabled(w, op) && pid in w.payments
    ensures pid in Step(w, op).payments
    ensures Step(w, op).payments[pid]
         == if op.Refund? && op.payment == pid && RefundFailure(w, pid, op.auditPk).None?
            then w.payments[pid].(status := Refunded) else w.payments[pid]
  {
    if !op.Refund? {
      HoldStepRefundsNothing(w, op);
    }
  }

  /** Once refunded, always refused: whatever runs in between, a second refund changes nothing. */
  lemma SecondRefundRefused(w: World, pid: PaymentId, auditPk: Option<AuditId>, ops: seq<Op>,
                            auditPk': Option<AuditId>)
    requires Inv(w) && RefundFailure(w, pid, auditPk).None?
    requires ForeignKeys(AfterRefund(w, pid, auditPk)) && ValidRun(AfterRefund(w, pid, auditPk), ops)
    ensures var w' := Run(AfterRefund(w, pid, auditPk), ops);
            && RefundFailure(w', pid, auditPk') == Some(WrongStatus(Refunded))
            && AfterRefund(w', pid, auditPk') == w'
  {
    RefundKeepsInv(w, pid, auditPk);
    StaysRefunded(AfterRefund(w, pid, auditPk), ops, pid);
  }

  lemma {:induction false} StaysRefunded(w: World, ops: seq<Op>, pid: PaymentId)
    requires Inv(w) && ValidRun(w, ops) && pid in w.payments && w.payments[pid].status == Refunded
    ensures pid in Run(w, ops).payments && Run(w, ops).payments[pid].status == Refunded
    decreases |ops|
  {
    if ops != [] {
      StepPayments(w, ops[0], pid);
      StepKeepsInv(w, ops[0]);
      StaysRefunded(Step(w, ops[0]), ops[1..], pid);
    }
  }

  // ----- with the audit model as it is declared -----

  /** Every refund of the run writes an audit entry whose primary key the uuid default has set. */
  ghost predicate AuditAsDeclared(ops: seq<Op>)
  {
    ops != [] ==>
      && (ops[0].Refund? ==> exists generated :: ops[0].auditPk == NewAuditEntryPk(generated))
      && AuditAsDeclared(ops[1..])
  }

  /** Saving the entry raises, so over every serial run no refund ever commits: payments, tickets and
      sold counters stay as they are. */
  lemma {:induction false} RefundsNeverCommitAsDeclared(w: World, ops: seq<Op>)
    requires Inv(w) && ValidRun(w, ops) && AuditAsDeclared(ops)
    ensures NothingRefunded(w, Run(w, ops))
    decreases |ops|
  {
    if ops != [] {
      StepKeepsInv(w, ops[0]);
      if ops[0].Refund? {
        assert Step(w, ops[0]) == w;
      } else {
        HoldStepRefundsNothing(w, ops[0]);
      }
      RefundsNeverCommitAsDeclared(Step(w, ops[0]), ops[1..]);
    }
  }

  /** What a tier counts as sold beyond the tickets a succeeded payment pays for. */
  function Unbacked(w: World, t: TierId): int
    requires t in w.tiers
  {
    w.tiers[t].sold - |Backed(w, t)|
  }

  lemma NothingRefundedSameUnbacked(w: World, w': World, t: TierId)
    requires NothingRefunded(w, w') && t in w.tiers
    ensures Unbacked(w', t) == Unbacked(w, t)
  {
    assert Backed(w', t) == Backed(w, t);
  }

  lemma RefundKeepsUnbacked(w: World, pid: PaymentId, auditPk: Option<AuditId>, t: TierId)
    requires Inv(w) && t in w.tiers
    ensures t in AfterRefund(w, pid, auditPk).tiers && Unbacked(AfterRefund(w, pid, auditPk), t) == Unbacked(w, t)
  {
    if RefundFailure(w, pid, auditPk).None? {
      RefundEffectOn(w, pid, t);
      RefundedTicketsLeaveSold(w, pid, auditPk, t);
    }
  }

  /** The sold counter and the paid tickets of a tier move together. */
  lemma StepSold(w: World, op: Op, t: TierId)
    requires Inv(w) && Enabled(w, op) && t in w.tiers
    ensures t in Step(w, op).tiers && Unbacked(Step(w, op), t) == Unbacked(w, t)
  {
    if op.Refund? {
      RefundKeepsUnbacked(w, op.payment, op.auditPk, t);
    } else {
      HoldStepRefundsNothing(w, op);
      NothingRefundedSameUnbacked(w, Step(w, op), t);
    }
  }

  /** Conservation over runs: what a tier counts as sold beyond its paid tickets never changes. */
  lemma {:induction false} SoldConservation(w: World, ops: seq<Op>, t: TierId)
    requires Inv(w) && ValidRun(w, ops) && t in w.tiers
    ensures t in Run(w, ops).tiers
    ensures Unbacked(Run(w, ops), t) == Unbacked(w, t)
    decreases |ops|
  {
    if ops != [] {
      StepSold(w, ops[0], t);
      StepKeepsInv(w, ops[0]);
      SoldConservation(Step(w, ops[0]), ops[1..], t);
    }
  }
}
