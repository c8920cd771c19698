/** Sums of hold quantities over sets of tokens, and the sets the rest of the model sums over. */
module HoldSums {
  import opened Inventory
  import opened Records
  import opened Sequences

  type Holds = map<Token, CheckoutHold>
  type Tiers = map<TierId, TicketTier>

  ghost function Pick(s: set<Token>): (x: Token)
    requires s != {}
    ensures x in s
  {
    var x :| x in s;
    x
  }

  ghost function SumQty(holds: Holds, s: set<Token>): nat
    requires s <= holds.Keys
  {
    if s == {} then 0 else holds[Pick(s)].quantity + SumQty(holds, s - {Pick(s)})
  }

  /** Any member may be taken out first: the sum does not depend on the picking order. */
  lemma {:induction false} SumQtyRemove(holds: Holds, s: set<Token>, x: Token)
    requires s <= holds.Keys && x in s
    ensures SumQty(holds, s) == holds[x].quantity + SumQty(holds, s - {x})
    decreases |s|
  {
    var y := Pick(s);
    if y != x {
      SumQtyRemove(holds, s - {y}, x);
      SumQtyRemove(holds, s - {x}, y);
      assert s - {y} - {x} == s - {x} - {y};
    }
  }

  lemma {:induction false} SumQtySplit(holds: Holds, s: set<Token>, part: set<Token>)
    requires part <= s <= holds.Keys
    ensures SumQty(holds, s) == SumQty(holds, part) + SumQty(holds, s - part)
    decreases |part|
  {
    if part == {} {
      assert s - part == s;
    } else {
      var x := Pick(part);
      SumQtyRemove(holds, s, x);
      SumQtySplit(holds, s - {x}, part - {x});
      assert s - {x} - (part - {x}) == s - part;
    }
  }

  /** The sum only looks at quantities, so status changes elsewhere in the table leave it alone. */
  lemma {:induction false} SumQtySame(holds: Holds, holds': Holds, s: set<Token>)
    requires s <= holds.Keys && s <= holds'.Keys
    requires forall tok :: tok in s ==> holds[tok].quantity == holds'[tok].quantity
    ensures SumQty(holds, s) == SumQty(holds', s)
    decreases |s|
  {
    if s != {} {
      SumQtySame(holds, holds', s - {Pick(s)});
    }
  }

  lemma SumQtyAtLeast(holds: Holds, s: set<Token>, x: Token)
    requires s <= holds.Keys && x in s
    ensures holds[x].quantity <= SumQty(holds, s)
  {
    SumQtyRemove(holds, s, x);
  }

  /** Tokens of the ACTIVE holds on one tier. */
  function ActiveOn(holds: Holds, t: TierId): set<Token>
  {
    set tok | tok in holds && holds[tok].status == Active && holds[tok].tier == t
  }

  /** What `quantity_held` is meant to be: the quantity of all ACTIVE holds of the tier. */
  ghost function ActiveSum(holds: Holds, t: TierId): nat
  {
    SumQty(holds, ActiveOn(holds, t))
  }

  /** `CheckoutHold.objects.filter(user, tier__event, ACTIVE)`, the rows the abuse guard counts. */
  function ActiveHolds(tiers: Tiers, holds: Holds, user: UserId, event: EventId): set<Token>
  {
    set tok | tok in holds && holds[tok].user == user && holds[tok].status == Active
              && holds[tok].tier in tiers && tiers[holds[tok].tier].event == event
  }

  /** The event of every tier is fixed: no step of the program moves a tier to another event. */
  predicate SameEvents(tiers: Tiers, tiers': Tiers)
  {
    && tiers.Keys == tiers'.Keys
    && forall t :: t in tiers ==> tiers[t].event == tiers'[t].event && tiers[t].total == tiers'[t].total
  }

  /** `holds'` is `holds` with exactly the ACTIVE holds in `batch` moved out of ACTIVE. */
  predicate LeftActive(holds: Holds, holds': Holds, batch: set<Token>)
  {
    && holds'.Keys == holds.Keys
    && batch <= holds.Keys
    && (forall tok :: tok in batch ==>
          && holds[tok].status == Active
          && holds'[tok].status != Active
          && holds'[tok] == holds[tok].(status := holds'[tok].status))
    && (forall tok :: tok in holds && tok !in batch ==> holds'[tok] == holds[tok])
  }

  function BatchOn(holds: Holds, batch: set<Token>, t: TierId): set<Token>
    requires batch <= holds.Keys
  {
    set tok | tok in batch && holds[tok].tier == t
  }

  lemma ActiveOnAfterLeaving(holds: Holds, holds': Holds, batch: set<Token>, t: TierId)
    requires LeftActive(holds, holds', batch)
    ensures BatchOn(holds, batch, t) <= ActiveOn(holds, t)
    ensures ActiveOn(holds', t) == ActiveOn(holds, t) - BatchOn(holds, batch, t)
  {}

  lemma ActiveOnAfterInsert(holds: Holds, tok: Token, h: CheckoutHold, t: TierId)
    requires tok !in holds && h.status == Active
    ensures tok !in ActiveOn(holds, t)
    ensures ActiveOn(holds[tok := h], t) == ActiveOn(holds, t) + (if h.tier == t then {tok} else {})
  {
    assert ActiveOn(holds[tok := h], t) == ActiveOn(holds, t) + (if h.tier == t then {tok} else {});
  }

  /** Holds leaving ACTIVE take exactly their own quantities out of the active sum of their tier. */
  lemma ActiveSumAfterLeaving(holds: Holds, holds': Holds, batch: set<Token>, t: TierId)
    requires LeftActive(holds, holds', batch)
    ensures ActiveSum(holds, t) == ActiveSum(holds', t) + SumQty(holds, BatchOn(holds, batch, t))
  {
    var gone := BatchOn(holds, batch, t);
    ActiveOnAfterLeaving(holds, holds', batch, t);
    SumQtySplit(holds, ActiveOn(holds, t), gone);
    SumQtySame(holds, holds', ActiveOn(holds', t));
  }

  lemma ActiveSumAfterOne(holds: Holds, holds': Holds, tok: Token, t: TierId)
    requires LeftActive(holds, holds', {tok})
    ensures ActiveSum(holds, t) - ActiveSum(holds', t) == if t == holds[tok].tier then holds[tok].quantity else 0
  {
    ActiveSumAfterLeaving(holds, holds', {tok}, t);
    if t == holds[tok].tier {
      assert BatchOn(holds, {tok}, t) == {tok};
      SumQtyRemove(holds, {tok}, tok);
      assert {tok} - {tok} == {};
    } else {
      assert BatchOn(holds, {tok}, t) == {};
    }
  }

  lemma OneLeaves(holds: Holds, tok: Token, status: HoldStatus)
    requires tok in holds && holds[tok].status == Active && status != Active
    ensures LeftActive(holds, WithStatus(holds, tok, status), {tok})
  {}

  lemma ActiveSumAfterInsert(holds: Holds, tok: Token, h: CheckoutHold, t: TierId)
    requires tok !in holds && h.status == Active
    ensures ActiveSum(holds[tok := h], t) == ActiveSum(holds, t) + (if h.tier == t then h.quantity else 0)
  {
    var holds' := holds[tok := h];
    SumQtySame(holds, holds', ActiveOn(holds, t));
    ActiveOnAfterInsert(holds, tok, h, t);
    if h.tier == t {
      SumQtyRemove(holds', ActiveOn(holds', t), tok);
      assert ActiveOn(holds', t) - {tok} == ActiveOn(holds, t);
    } else {
      assert ActiveOn(holds', t) == ActiveOn(holds, t);
    }
  }

  lemma ActiveHoldsAfterLeaving(tiers: Tiers, tiers': Tiers, holds: Holds, holds': Holds, batch: set<Token>,
                                user: UserId, event: EventId)
    requires SameEvents(tiers, tiers') && LeftActive(holds, holds', batch)
    ensures ActiveHolds(tiers', holds', user, event) == ActiveHolds(tiers, holds, user, event) - batch
    ensures |ActiveHolds(tiers', holds', user, event)| <= |ActiveHolds(tiers, holds, user, event)|
  {
    assert ActiveHolds(tiers', holds', user, event) == ActiveHolds(tiers, holds, user, event) - batch;
    SubsetCardinality(ActiveHolds(tiers', holds', user, event), ActiveHolds(tiers, holds, user, event));
  }

  lemma ActiveHoldsAfterInsert(tiers: Tiers, tiers': Tiers, holds: Holds, tok: Token, h: CheckoutHold,
                               user: UserId, event: EventId)
    requires SameEvents(tiers, tiers') && tok !in holds && h.status == Active && h.tier in tiers
    ensures |ActiveHolds(tiers', holds[tok := h], user, event)|
         == |ActiveHolds(tiers, holds, user, event)|
            + (if h.user == user && tiers[h.tier].event == event then 1 else 0)
  {
    var before := ActiveHolds(tiers, holds, user, event);
    ActiveHoldsInserted(tiers, tiers', holds, tok, h, user, event);
    assert tok !in before;
  }

  lemma ActiveHoldsInserted(tiers: Tiers, tiers': Tiers, holds: Holds, tok: Token, h: CheckoutHold,
                            user: UserId, event: EventId)
    requires SameEvents(tiers, tiers') && tok !in holds && h.status == Active && h.tier in tiers
    ensures ActiveHolds(tiers', holds[tok := h], user, event)
         == ActiveHolds(tiers, holds, user, event)
            + (if h.user == user && tiers[h.tier].event == event then {tok} else {})
  {
    forall x: Token
      ensures x in ActiveHolds(tiers', holds[tok := h], user, event) <==>
              x in ActiveHolds(tiers, holds, user, event)
              || (x == tok && h.user == user && tiers[h.tier].event == event)
    {}
  }
}
