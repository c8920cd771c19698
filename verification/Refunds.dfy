/** Refunding a payment: one transaction over the payment, its tickets and their tiers. */
module Refunds {
  import opened Wrappers
  import opened Sequences
  import opened Records
  import opened HoldSums
  import opened Store

  datatype RefundError =
    | PaymentNotFound
    | WrongStatus(status: PaymentStatus)
    | PostCheckin(count: nat)
    | ConstraintViolation
    | AuditImmutable

  datatype RefundReceipt = RefundReceipt(payment: PaymentId, amount: int, currency: string)

  /** `AuditLog.save` refuses any entry whose primary key is already set. */
  predicate AuditSaveRaises(pk: Option<AuditId>)
  {
    pk.Some?
  }

  /** `AuditLog(...)` as the model declares it: the uuid default fills the primary key at once. */
  function NewAuditEntryPk(generated: AuditId): Option<AuditId>
  {
    Some(generated)
  }

  function TicketsOf(w: World, pid: PaymentId): set<TicketId>
  {
    set id | id in w.tickets && w.tickets[id].payment == Some(pid)
  }

  function CheckedInOf(tickets: map<TicketId, Ticket>, pid: PaymentId): set<TicketId>
  {
    set id | id in tickets && tickets[id].payment == Some(pid) && tickets[id].status == CheckedIn
  }

  function TicketsOnTier(w: World, ids: set<TicketId>, t: TierId): set<TicketId>
  {
    set id | id in ids && id in w.tickets && w.tickets[id].tier == t
  }

  /** No tier is asked to give back more tickets than it counts as sold. */
  predicate SoldCovers(w: World, ids: set<TicketId>)
  {
    forall t :: t in w.tiers ==> |TicketsOnTier(w, ids, t)| <= w.tiers[t].sold
  }

  function SoldAfter(w: World, ids: set<TicketId>): Tiers
  {
    map t | t in w.tiers ::
      if |TicketsOnTier(w, ids, t)| <= w.tiers[t].sold
      then w.tiers[t].(sold := w.tiers[t].sold - |TicketsOnTier(w, ids, t)|)
      else w.tiers[t]
  }

  function CancelledAfter(w: World, ids: set<TicketId>): map<TicketId, Ticket>
  {
    map id | id in w.tickets :: if id in ids then w.tickets[id].(status := Cancelled) else w.tickets[id]
  }

  /** The tickets in `ids` are CANCELLED and every tier sells fewer by the number of those it had. */
  function TicketsRestored(w: World, ids: set<TicketId>): World
  {
    w.(tickets := CancelledAfter(w, ids), tiers := SoldAfter(w, ids))
  }

  function MarkRefunded(w: World, pid: PaymentId): World
    requires pid in w.payments
  {
    w.(payments := w.payments[pid := w.payments[pid].(status := Refunded)])
  }

  /** The exception the transaction ends with, if any; the database then rolls back. */
  function RefundFailure(w: World, pid: PaymentId, auditPk: Option<AuditId>): Option<RefundError>
  {
    if pid !in w.payments then Some(PaymentNotFound)
    else if w.payments[pid].status != Succeeded then Some(WrongStatus(w.payments[pid].status))
    else if |CheckedInOf(w.tickets, pid)| > 0 then Some(PostCheckin(|CheckedInOf(w.tickets, pid)|))
    else if !SoldCovers(w, TicketsOf(w, pid)) then Some(ConstraintViolation)
    else if AuditSaveRaises(auditPk) then Some(AuditImmutable)
    else None
  }

  function AfterRefund(w: World, pid: PaymentId, auditPk: Option<AuditId>): World
  {
    if RefundFailure(w, pid, auditPk).Some? then w
    else TicketsRestored(MarkRefunded(w, pid), TicketsOf(w, pid))
  }

  lemma RestoringKeepsKeys(w: World, ids: set<TicketId>)
    requires ForeignKeys(w)
    ensures ForeignKeys(TicketsRestored(w, ids))
  {
    var w' := TicketsRestored(w, ids);
    assert w'.tiers.Keys == w.tiers.Keys && w'.tickets.Keys == w.tickets.Keys;
    forall id | id in w.tickets
      ensures w'.tickets[id].tier == w.tickets[id].tier && w'.tickets[id].payment == w.tickets[id].payment
    {}
  }

  lemma RefundKeepsKeys(w: World, pid: PaymentId, auditPk: Option<AuditId>)
    requires ForeignKeys(w)
    ensures ForeignKeys(AfterRefund(w, pid, auditPk))
  {
    if pid in w.payments {
      RestoringKeepsKeys(MarkRefunded(w, pid), TicketsOf(w, pid));
    }
  }

  /** One more ticket: its tier counts one more ticket to give back, every other tier the same. */
  lemma NextTicket(w: World, ids: set<TicketId>, id: TicketId, t: TierId)
    requires id in w.tickets && id !in ids
    ensures |TicketsOnTier(w, ids + {id}, t)|
         == |TicketsOnTier(w, ids, t)| + (if w.tickets[id].tier == t then 1 else 0)
  {
    if w.tickets[id].tier == t {
      assert TicketsOnTier(w, ids + {id}, t) == TicketsOnTier(w, ids, t) + {id};
    } else {
      assert TicketsOnTier(w, ids + {id}, t) == TicketsOnTier(w, ids, t);
    }
  }

  lemma NextTicketSold(w: World, ids: set<TicketId>, id: TicketId)
    requires id in w.tickets && w.tickets[id].tier in w.tiers && id !in ids && SoldCovers(w, ids)
    requires |TicketsOnTier(w, ids, w.tickets[id].tier)| < w.tiers[w.tickets[id].tier].sold
    ensures SoldCovers(w, ids + {id})
    ensures SoldAfter(w, ids + {id})
         == WithSold(SoldAfter(w, ids), w.tickets[id].tier, SoldAfter(w, ids)[w.tickets[id].tier].sold - 1)
  {
    forall t | t in w.tiers
      ensures |TicketsOnTier(w, ids + {id}, t)|
           == |TicketsOnTier(w, ids, t)| + (if w.tickets[id].tier == t then 1 else 0)
    {
      NextTicket(w, ids, id, t);
    }
  }

  lemma NextTicketCancelled(w: World, ids: set<TicketId>, id: TicketId)
    requires id in w.tickets && id !in ids
    ensures CancelledAfter(w, ids)[id] == w.tickets[id]
    ensures CancelledAfter(w, ids + {id}) == CancelledAfter(w, ids)[id := w.tickets[id].(status := Cancelled)]
  {}

  lemma FewerTicketsCovered(w: World, few: set<TicketId>, many: set<TicketId>)
    requires few <= many && SoldCovers(w, many)
    ensures SoldCovers(w, few)
  {
    forall t | t in w.tiers
      ensures |TicketsOnTier(w, few, t)| <= |TicketsOnTier(w, many, t)|
    {
      SubsetCardinality(TicketsOnTier(w, few, t), TicketsOnTier(w, many, t));
    }
  }

  predicate TicketRefundable(w: World, id: TicketId)
  {
    id in w.tickets && w.tickets[id].tier in w.tiers && w.tiers[w.tickets[id].tier].sold > 0
  }

  /** One ticket of the loop: its tier row, read afresh, sells one fewer; the ticket is cancelled. */
  function TicketRefunded(w: World, id: TicketId): World
    requires TicketRefundable(w, id)
  {
    w.(
      tiers := WithSold(w.tiers, w.tickets[id].tier, w.tiers[w.tickets[id].tier].sold - 1),
      tickets := w.tickets[id := w.tickets[id].(status := Cancelled)])
  }

  /** The loop over the payment's tickets; `None` when the database refuses a counter. */
  ghost function RefundLoop(w: World, order: seq<TicketId>): Option<World>
  {
    if order == [] then Some(w)
    else
      match RefundLoop(w, Front(order))
      case None => None
      case Some(w1) => if TicketRefundable(w1, Last(order)) then Some(TicketRefunded(w1, Last(order))) else None
  }

  lemma LoopStep(w: World, ids: set<TicketId>, id: TicketId)
    requires id in w.tickets && w.tickets[id].tier in w.tiers && id !in ids && SoldCovers(w, ids)
    ensures TicketRefundable(TicketsRestored(w, ids), id) <==> SoldCovers(w, ids + {id})
    ensures SoldCovers(w, ids + {id}) ==>
              TicketRefunded(TicketsRestored(w, ids), id) == TicketsRestored(w, ids + {id})
  {
    var t := w.tickets[id].tier;
    NextTicketCancelled(w, ids, id);
    if |TicketsOnTier(w, ids, t)| < w.tiers[t].sold {
      NextTicketSold(w, ids, id);
    } else {
      NextTicket(w, ids, id, t);
    }
  }

  /** The loop in closed form: whatever the order, it succeeds exactly when every tier has sold enough,
      and then cancels all the tickets and counts each of them once. */
  lemma {:induction false} RefundLoopClosedForm(w: World, order: seq<TicketId>)
    requires ForeignKeys(w) && NoRepeats(order) && Elements(order) <= w.tickets.Keys
    ensures RefundLoop(w, order)
         == if SoldCovers(w, Elements(order)) then Some(TicketsRestored(w, Elements(order))) else None
  {
    if order == [] {
      assert SoldAfter(w, {}) == w.tiers && CancelledAfter(w, {}) == w.tickets;
    } else {
      RefundLoopClosedForm(w, Front(order));
      if SoldCovers(w, Elements(Front(order))) {
        LoopStep(w, Elements(Front(order)), Last(order));
      } else if SoldCovers(w, Elements(order)) {
        FewerTicketsCovered(w, Elements(Front(order)), Elements(order));
      }
    }
  }

  method RestoreTicket(s: Store, id: TicketId) returns (refused: bool)
    requires id in s.tickets && s.tickets[id].tier in s.tiers
    modifies s`tiers, s`tickets
    ensures refused == !TicketRefundable(old(s.View()), id)
    ensures s.View() == if refused then old(s.View()) else TicketRefunded(old(s.View()), id)
  {
    var ticket := s.tickets[id];
    var sold := s.tiers[ticket.tier].sold - 1;
    if sold < 0 {
      return true;
    }
    s.tiers := WithSold(s.tiers, ticket.tier, sold);
    s.tickets := s.tickets[id := ticket.(status := Cancelled)];
    return false;
  }

  lemma LoopAt(w: World, order: seq<TicketId>, i: nat)
    requires ForeignKeys(w) && NoRepeats(order) && Elements(order) <= w.tickets.Keys
    requires i < |order| && RefundLoop(w, order[..i]).Some?
    ensures var w1 := RefundLoop(w, order[..i]).value;
            order[i] in w1.tickets && w1.tickets[order[i]].tier in w1.tiers
    ensures var w1 := RefundLoop(w, order[..i]).value;
            if TicketRefundable(w1, order[i])
            then RefundLoop(w, order[..i + 1]) == Some(TicketRefunded(w1, order[i]))
            else !SoldCovers(w, Elements(order))
  {
    PrefixStep(order, i);
    PrefixWithin(order, i + 1);
    PrefixNoRepeats(order, i + 1);
    RefundLoopClosedForm(w, order[..i]);
    RefundLoopClosedForm(w, order[..i + 1]);
    if SoldCovers(w, Elements(order)) {
      FewerTicketsCovered(w, Elements(order[..i + 1]), Elements(order));
    }
  }

  /** The loop over the payment's tickets, in whatever order they come. */
  method RestoreTickets(s: Store, order: seq<TicketId>) returns (refused: bool)
    requires ForeignKeys(s.View()) && NoRepeats(order) && Elements(order) <= s.tickets.Keys
    modifies s`tiers, s`tickets
    ensures refused == !SoldCovers(old(s.View()), Elements(order))
    ensures !refused ==> s.View() == TicketsRestored(old(s.View()), Elements(order))
  {
    ghost var w := s.View();
    var i := 0;
    while i < |order|
      invariant 0 <= i <= |order|
      invariant RefundLoop(w, order[..i]) == Some(s.View())
    {
      LoopAt(w, order, i);
      refused := RestoreTicket(s, order[i]);
      if refused {
        return true;
      }
      i := i + 1;
    }
    assert order[..i] == order;
    RefundLoopClosedForm(w, order);
    return false;
  }

  method RequestRefund(s: Store, pid: PaymentId, order: seq<TicketId>, auditPk: Option<AuditId>)
    returns (r: Result<RefundReceipt, RefundError>)
    requires ForeignKeys(s.View()) && Lists(order, TicketsOf(s.View(), pid))
    modifies s
    ensures s.View() == AfterRefund(old(s.View()), pid, auditPk)
    ensures match RefundFailure(old(s.View()), pid, auditPk)
            case Some(e) => r == Err(e)
            case None => r == Ok(RefundReceipt(pid, old(s.payments)[pid].amount, old(s.payments)[pid].currency))
  {
    ghost var w := s.View();
    if pid !in s.payments {
      return Err(PaymentNotFound);
    }
    var payment := s.payments[pid];
    if payment.status != Succeeded {
      return Err(WrongStatus(payment.status));
    }
    var checkedIn := |CheckedInOf(s.tickets, pid)|;
    if checkedIn > 0 {
      return Err(PostCheckin(checkedIn));
    }

    var savedTiers, savedPayments, savedTickets := s.tiers, s.payments, s.tickets;
    s.payments := s.payments[pid := payment.(status := Refunded)];
    var refused := RestoreTickets(s, order);
    if refused {
      s.tiers, s.payments, s.tickets := savedTiers, savedPayments, savedTickets;
      return Err(ConstraintViolation);
    }
    if AuditSaveRaises(auditPk) {
      s.tiers, s.payments, s.tickets := savedTiers, savedPayments, savedTickets;
      return Err(AuditImmutable);
    }
    return Ok(RefundReceipt(pid, payment.amount, payment.currency));
  }
}
