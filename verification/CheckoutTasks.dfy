/** The periodic sweep that expires stale holds. */
module CheckoutTasks {
  import opened Wrappers
  import opened Inventory
  import opened Sequences
  import opened Records
  import opened HoldSums
  import opened Store
  import opened CheckoutServices
  import ExpiryHeap

  /** ACTIVE holds whose token was due: the rows the sweep's single query returns. */
  function Batch(w: World, now: Time): set<Token>
  {
    set tok | tok in ExpiryHeap.Due(w.expiry, now) && IsActive(w, tok)
  }

  /** Quantity of the last hold of `order` on tier `t`, if any. */
  function LastQty(holds: Holds, order: seq<Token>, t: TierId): Option<nat>
    requires Elements(order) <= holds.Keys
  {
    if order == [] then None
    else if holds[Last(order)].tier == t then Some(holds[Last(order)].quantity)
    else LastQty(holds, Front(order), t)
  }

  /** The tiers some hold of `order` sits on. */
  function Touched(holds: Holds, order: seq<Token>): set<TierId>
    requires Elements(order) <= holds.Keys
  {
    if order == [] then {} else Touched(holds, Front(order)) + {holds[Last(order)].tier}
  }

  function StatusesAfter(holds: Holds, order: seq<Token>): Holds
  {
    map tok | tok in holds :: if tok in Elements(order) then holds[tok].(status := Expired) else holds[tok]
  }

  /** Every counter is computed from the tier snapshot that came with the query: of several rows on
      one tier the last one decides. */
  function CountersAfter(snapshot: Tiers, holds: Holds, order: seq<Token>): Tiers
    requires Elements(order) <= holds.Keys
  {
    map t | t in snapshot ::
      match LastQty(holds, order, t)
      case Some(q) => if q <= snapshot[t].held then snapshot[t].(held := snapshot[t].held - q) else snapshot[t]
      case None => snapshot[t]
  }

  /** Writing this row would make its tier's counter negative. */
  predicate Refused(snapshot: Tiers, holds: Holds, tok: Token)
  {
    tok in holds && holds[tok].tier in snapshot && snapshot[holds[tok].tier].held < holds[tok].quantity
  }

  function FirstRefused(snapshot: Tiers, holds: Holds, order: seq<Token>): (k: nat)
    ensures k <= |order|
    ensures forall j :: 0 <= j < k ==> !Refused(snapshot, holds, order[j])
    ensures k < |order| ==> Refused(snapshot, holds, order[k])
  {
    if order == [] || Refused(snapshot, holds, order[0]) then 0
    else 1 + FirstRefused(snapshot, holds, order[1..])
  }

  /** The loop writes row after row.  The task is no transaction: when a row is refused by the
      database, the rows before it stay written, and so does that row's new status. */
  function RowsExpired(w: World, order: seq<Token>): (w': World)
    requires Elements(order) <= w.holds.Keys
  {
    var k := FirstRefused(w.tiers, w.holds, order);
    var written := order[..k];
    var statused := if k < |order| then order[..k + 1] else order;
    PrefixWithin(order, k);
    w.(
      holds := StatusesAfter(w.holds, statused),
      tiers := CountersAfter(w.tiers, w.holds, written),
      registry := w.registry - Elements(written),
      availability := w.availability - Touched(w.holds, written))
  }

  lemma RowsExpiredKeepsKeys(w: World, order: seq<Token>)
    requires ForeignKeys(w) && Elements(order) <= w.holds.Keys
    ensures ForeignKeys(RowsExpired(w, order))
  {
    var w' := RowsExpired(w, order);
    assert w'.tiers.Keys == w.tiers.Keys && w'.holds.Keys == w.holds.Keys;
    forall tok | tok in w.holds
      ensures w'.holds[tok].tier == w.holds[tok].tier
    {}
  }

  predicate SweepRaises(w: World, order: seq<Token>)
  {
    FirstRefused(w.tiers, w.holds, order) < |order|
  }

  function AfterSweep(w: World, now: Time, order: seq<Token>): (w': World)
    requires ForeignKeys(w) && Lists(order, Batch(w, now))
    ensures ForeignKeys(w')
  {
    var w0 := w.(expiry := w.expiry - ExpiryHeap.Due(w.expiry, now));
    RowsExpiredKeepsKeys(w0, order);
    RowsExpired(w0, order)
  }

  /** The four structures the loop writes, as they stand after some of its rows. */
  datatype Progress = Progress(
    holds: Holds,
    tiers: Tiers,
    registry: map<Token, Cached<HoldEntry>>,
    availability: map<TierId, Cached<int>>)

  predicate RowKnown(p: Progress, snapshot: Tiers, tok: Token)
  {
    tok in p.holds && p.holds[tok].tier in snapshot
  }

  function RowWritten(p: Progress, snapshot: Tiers, tok: Token, hold: CheckoutHold): (p': Progress)
    requires tok in p.holds && hold.tier in snapshot && hold.tier in p.tiers
    requires hold.quantity <= snapshot[hold.tier].held
    ensures p'.holds.Keys == p.holds.Keys && p'.tiers.Keys == p.tiers.Keys
  {
    Progress(
      WithStatus(p.holds, tok, Expired),
      WithHeld(p.tiers, hold.tier, snapshot[hold.tier].held - hold.quantity),
      p.registry - {tok},
      p.availability - {hold.tier})
  }

  /** No row of `order` is unknown or refused. */
  ghost predicate Writable(start: Progress, order: seq<Token>)
  {
    order != [] ==>
      && RowKnown(start, start.tiers, Last(order)) && !Refused(start.tiers, start.holds, Last(order))
      && Writable(start, Front(order))
  }

  /** The loop, row by row: every row is written from the snapshot `start.tiers`. */
  ghost function RowsWritten(start: Progress, order: seq<Token>): (p: Progress)
    requires Writable(start, order)
    ensures p.holds.Keys == start.holds.Keys && p.tiers.Keys == start.tiers.Keys
  {
    if order == [] then start
    else RowWritten(RowsWritten(start, Front(order)), start.tiers, Last(order), start.holds[Last(order)])
  }

  lemma {:induction false} WritableKnown(start: Progress, order: seq<Token>)
    requires Writable(start, order)
    ensures Elements(order) <= start.holds.Keys
  {
    if order != [] {
      WritableKnown(start, Front(order));
    }
  }

  lemma StatusesNext(holds: Holds, order: seq<Token>)
    requires order != [] && Elements(order) <= holds.Keys
    ensures StatusesAfter(holds, order) == WithStatus(StatusesAfter(holds, Front(order)), Last(order), Expired)
  {}

  lemma CountersNext(snapshot: Tiers, holds: Holds, order: seq<Token>, t: TierId)
    requires order != [] && Elements(order) <= holds.Keys
    requires t in snapshot && t == holds[Last(order)].tier && !Refused(snapshot, holds, Last(order))
    ensures CountersAfter(snapshot, holds, order)
         == WithHeld(CountersAfter(snapshot, holds, Front(order)), t,
                     snapshot[t].held - holds[Last(order)].quantity)
  {}

  lemma SubtractTwice<K, V>(m: map<K, V>, a: set<K>, b: set<K>)
    ensures m - a - b == m - (a + b)
  {}

  /** Where the rows of `order` leave the four structures: of several rows on one tier, only the last
      one's quantity comes back. */
  function AllWritten(start: Progress, order: seq<Token>): Progress
    requires Elements(order) <= start.holds.Keys
  {
    Progress(
      StatusesAfter(start.holds, order),
      CountersAfter(start.tiers, start.holds, order),
      start.registry - Elements(order),
      start.availability - Touched(start.holds, order))
  }

  lemma NothingWritten(start: Progress)
    ensures AllWritten(start, []) == start
  {
    assert StatusesAfter(start.holds, []) == start.holds;
    assert CountersAfter(start.tiers, start.holds, []) == start.tiers;
    assert start.registry - {} == start.registry && start.availability - {} == start.availability;
  }

  lemma OneMoreWritten(start: Progress, order: seq<Token>)
    requires order != [] && Elements(order) <= start.holds.Keys
    requires RowKnown(start, start.tiers, Last(order)) && !Refused(start.tiers, start.holds, Last(order))
    ensures AllWritten(start, order)
         == RowWritten(AllWritten(start, Front(order)), start.tiers, Last(order), start.holds[Last(order)])
  {
    var tok := Last(order);
    StatusesNext(start.holds, order);
    CountersNext(start.tiers, start.holds, order, start.holds[tok].tier);
    SubtractTwice(start.registry, Elements(Front(order)), {tok});
    SubtractTwice(start.availability, Touched(start.holds, Front(order)), {start.holds[tok].tier});
  }

  /** The loop in closed form. */
  lemma {:induction false} RowsWrittenClosedForm(start: Progress, order: seq<Token>)
    requires Writable(start, order)
    ensures Elements(order) <= start.holds.Keys
    ensures RowsWritten(start, order) == AllWritten(start, order)
  {
    WritableKnown(start, order);
    if order == [] {
      NothingWritten(start);
    } else {
      RowsWrittenClosedForm(start, Front(order));
      OneMoreWritten(start, order);
    }
  }

  function ProgressOf(w: World): Progress
  {
    Progress(w.holds, w.tiers, w.registry, w.availability)
  }

  function WithProgress(w: World, p: Progress): World
  {
    w.(holds := p.holds, tiers := p.tiers, registry := p.registry, availability := p.availability)
  }

  lemma {:induction false} WritableNotRefused(start: Progress, order: seq<Token>, k: nat)
    requires Writable(start, order) && k < |order|
    ensures !Refused(start.tiers, start.holds, order[k])
    decreases |order|
  {
    if k < |order| - 1 {
      WritableNotRefused(start, Front(order), k);
    }
  }

  lemma FirstRefusedAt(snapshot: Tiers, holds: Holds, order: seq<Token>, i: nat)
    requires i <= |order| && forall j :: 0 <= j < i ==> !Refused(snapshot, holds, order[j])
    requires i < |order| ==> Refused(snapshot, holds, order[i])
    ensures FirstRefused(snapshot, holds, order) == i
  {}

  /** The loop runs through: `RowsExpired` is where it ends. */
  lemma LoopFinished(w: World, order: seq<Token>)
    requires Writable(ProgressOf(w), order)
    ensures Elements(order) <= w.holds.Keys && !SweepRaises(w, order)
    ensures RowsExpired(w, order) == WithProgress(w, RowsWritten(ProgressOf(w), order))
  {
    forall j | 0 <= j < |order|
      ensures !Refused(w.tiers, w.holds, order[j])
    {
      WritableNotRefused(ProgressOf(w), order, j);
    }
    FirstRefusedAt(w.tiers, w.holds, order, |order|);
    RowsWrittenClosedForm(ProgressOf(w), order);
    assert order[..|order|] == order;
  }

  /** The loop stops at row `i`, whose status is already saved. */
  lemma LoopStopped(w: World, order: seq<Token>, i: nat)
    requires i < |order| && Elements(order) <= w.holds.Keys && Refused(w.tiers, w.holds, order[i])
    requires Writable(ProgressOf(w), order[..i])
    ensures order[i] in w.holds && SweepRaises(w, order)
    ensures var p := RowsWritten(ProgressOf(w), order[..i]);
            RowsExpired(w, order) == WithProgress(w, p.(holds := WithStatus(p.holds, order[i], Expired)))
  {
    forall j | 0 <= j < i
      ensures !Refused(w.tiers, w.holds, order[j])
    {
      WritableNotRefused(ProgressOf(w), order[..i], j);
    }
    FirstRefusedAt(w.tiers, w.holds, order, i);
    RowsWrittenClosedForm(ProgressOf(w), order[..i]);
    PrefixStep(order, i);
    ItemWithin(order, i);
    PrefixWithin(order, i + 1);
    StatusesNext(w.holds, order[..i + 1]);
  }

  /** The loop goes on past row `i`. */
  lemma LoopContinues(w: World, order: seq<Token>, i: nat)
    requires ForeignKeys(w) && Elements(order) <= w.holds.Keys && i < |order|
    requires Writable(ProgressOf(w), order[..i])
    ensures order[i] in w.holds && w.holds[order[i]].tier in w.tiers
    ensures !Refused(w.tiers, w.holds, order[i]) ==>
              Writable(ProgressOf(w), order[..i + 1])
              && RowsWritten(ProgressOf(w), order[..i + 1])
                 == RowWritten(RowsWritten(ProgressOf(w), order[..i]), w.tiers, order[i], w.holds[order[i]])
  {
    PrefixStep(order, i);
    ItemWithin(order, i);
  }

  /** One row of the loop, written from the snapshot of its tier. */
  method ExpireRow(s: Store, tok: Token, hold: CheckoutHold, snapshot: Tiers) returns (refused: bool)
    requires tok in s.holds && hold.tier in s.tiers && hold.tier in snapshot
    modifies s`holds, s`tiers, s`registry, s`availability
    ensures refused == (snapshot[hold.tier].held < hold.quantity)
    ensures refused ==>
              s.View() == old(s.View()).(holds := WithStatus(old(s.holds), tok, Expired))
    ensures !refused ==>
              s.View() == WithProgress(old(s.View()), RowWritten(ProgressOf(old(s.View())), snapshot, tok, hold))
  {
    s.holds := WithStatus(s.holds, tok, Expired);
    var held := snapshot[hold.tier].held - hold.quantity;
    if held < 0 {
      return true;
    }
    RestoreInventory(s, tok, hold.tier, held);
    return false;
  }

  /** The loop of the task over the rows of its query. */
  method ExpireRows(s: Store, order: seq<Token>) returns (expired: nat, raised: bool)
    requires ForeignKeys(s.View()) && Elements(order) <= s.holds.Keys
    modifies s`holds, s`tiers, s`registry, s`availability
    ensures s.View() == RowsExpired(old(s.View()), order)
    ensures raised == SweepRaises(old(s.View()), order)
    ensures !raised ==> expired == |order|
  {
    expired, raised := 0, false;
    var snapshot, rows := s.tiers, s.holds;
    ghost var w := s.View();
    var i := 0;
    while i < |order|
      invariant 0 <= i <= |order| && expired == i
      invariant Writable(ProgressOf(w), order[..i])
      invariant s.View() == WithProgress(w, RowsWritten(ProgressOf(w), order[..i]))
    {
      LoopContinues(w, order, i);
      raised := ExpireRow(s, order[i], rows[order[i]], snapshot);
      if raised {
        LoopStopped(w, order, i);
        return;
      }
      expired := expired + 1;
      i := i + 1;
    }
    assert order[..i] == order;
    LoopFinished(w, order);
  }

  /** `order` is the order in which the database happens to return the batch. */
  method SweepExpiredHolds(s: Store, now: Time, order: seq<Token>) returns (expired: nat, raised: bool)
    requires ForeignKeys(s.View()) && Lists(order, Batch(s.View(), now))
    modifies s
    ensures s.View() == AfterSweep(old(s.View()), now, order)
    ensures raised == SweepRaises(old(s.View()), order)
    ensures !raised ==> expired == |order|
  {
    var tokens := ExpiryHeap.PopExpiredHolds(s, now);
    if tokens == {} {
      assert order == [];
      assert s.View() == AfterSweep(old(s.View()), now, order);
      return 0, false;
    }
    expired, raised := ExpireRows(s, order);
  }
}
