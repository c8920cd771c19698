/** How much of an expired batch a sweep gives back. */
module SweepAccounting {
  import opened Sequences
  import opened Records
  import opened HoldSums
  import opened CheckoutTasks

  /** Quantity of all holds of `order` on tier `t`. */
  function BatchQty(holds: Holds, order: seq<Token>, t: TierId): nat
    requires Elements(order) <= holds.Keys
  {
    if order == [] then 0
    else BatchQty(holds, Front(order), t) + (if holds[Last(order)].tier == t then holds[Last(order)].quantity else 0)
  }

  function GivenBack(holds: Holds, order: seq<Token>, t: TierId): nat
    requires Elements(order) <= holds.Keys
  {
    match LastQty(holds, order, t)
    case Some(q) => q
    case None => 0
  }

  /** Quantity of all but the last hold of `order` on tier `t`. */
  function Lost(holds: Holds, order: seq<Token>, t: TierId): int
    requires Elements(order) <= holds.Keys
  {
    BatchQty(holds, order, t) - GivenBack(holds, order, t)
  }

  /** No two holds of `order` sit on the same tier. */
  predicate DistinctTiers(holds: Holds, order: seq<Token>)
    requires Elements(order) <= holds.Keys
  {
    order != [] ==> holds[Last(order)].tier !in Touched(holds, Front(order)) && DistinctTiers(holds, Front(order))
  }

  lemma {:induction false} TouchedHasLast(holds: Holds, order: seq<Token>, t: TierId)
    requires Elements(order) <= holds.Keys
    ensures t in Touched(holds, order) <==> LastQty(holds, order, t).Some?
    ensures t in Touched(holds, order) ==> exists tok :: tok in Elements(order) && holds[tok].tier == t
    ensures t !in Touched(holds, order) ==> BatchQty(holds, order, t) == 0
  {
    if order != [] {
      TouchedHasLast(holds, Front(order), t);
      assert Last(order) in Elements(order);
    }
  }

  lemma {:induction false} LostNonNegative(holds: Holds, order: seq<Token>, t: TierId)
    requires Elements(order) <= holds.Keys
    ensures Lost(holds, order, t) >= 0
  {
    if order != [] {
      LostNonNegative(holds, Front(order), t);
    }
  }

  /** A batch loses nothing on any tier if its holds sit on pairwise distinct tiers; when every hold is
      for at least one ticket, only then. */
  lemma {:induction false} LossesExactly(holds: Holds, order: seq<Token>)
    requires Elements(order) <= holds.Keys
    ensures DistinctTiers(holds, order) ==> forall t :: Lost(holds, order, t) == 0
    ensures (forall tok :: tok in Elements(order) ==> holds[tok].quantity > 0) && !DistinctTiers(holds, order) ==>
              exists t :: Lost(holds, order, t) > 0
  {
    if order != [] {
      LossesExactly(holds, Front(order));
      var u := holds[Last(order)].tier;
      forall t
        ensures Lost(holds, order, t) >= Lost(holds, Front(order), t)
        ensures t != u ==> Lost(holds, order, t) == Lost(holds, Front(order), t)
      {
        LostNonNegative(holds, Front(order), t);
      }
      TouchedHasLast(holds, Front(order), u);
      if u in Touched(holds, Front(order)) && forall tok :: tok in Elements(order) ==> holds[tok].quantity > 0 {
        LostNonNegative(holds, Front(order), u);
        LastQtyPositive(holds, Front(order), u);
        assert Lost(holds, order, u) > 0;
      }
    }
  }

  lemma {:induction false} LastQtyPositive(holds: Holds, order: seq<Token>, t: TierId)
    requires Elements(order) <= holds.Keys && LastQty(holds, order, t).Some?
    requires forall tok :: tok in Elements(order) ==> holds[tok].quantity > 0
    ensures LastQty(holds, order, t).value > 0
  {
    if holds[Last(order)].tier != t {
      LastQtyPositive(holds, Front(order), t);
    }
  }

  /** How many holds of `order` sit on `t`. */
  function CountOn(holds: Holds, order: seq<Token>, t: TierId): nat
    requires Elements(order) <= holds.Keys
  {
    if order == [] then 0 else CountOn(holds, Front(order), t) + (if holds[Last(order)].tier == t then 1 else 0)
  }

  /** With holds of at least one ticket each, a batch loses nothing on a tier exactly when it has at most
      one hold there. */
  lemma {:induction false} LostNothingExactly(holds: Holds, order: seq<Token>, t: TierId)
    requires Elements(order) <= holds.Keys && forall tok :: tok in Elements(order) ==> holds[tok].quantity > 0
    ensures Lost(holds, order, t) == 0 <==> CountOn(holds, order, t) <= 1
    ensures BatchQty(holds, order, t) == 0 <==> CountOn(holds, order, t) == 0
  {
    if order != [] {
      LostNothingExactly(holds, Front(order), t);
      LostNonNegative(holds, Front(order), t);
    }
  }

  lemma {:induction false} GivenBackBounded(holds: Holds, order: seq<Token>, t: TierId, bound: nat)
    requires Elements(order) <= holds.Keys
    requires forall tok :: tok in Elements(order) && holds[tok].tier == t ==> holds[tok].quantity <= bound
    ensures GivenBack(holds, order, t) <= bound
  {
    if order != [] && holds[Last(order)].tier != t {
      GivenBackBounded(holds, Front(order), t, bound);
    }
  }

  /** The listing adds up to the set it lists. */
  lemma {:induction false} BatchQtyIsSum(holds: Holds, order: seq<Token>, t: TierId)
    requires Elements(order) <= holds.Keys && NoRepeats(order)
    ensures SumQty(holds, BatchOn(holds, Elements(order), t)) == BatchQty(holds, order, t)
  {
    if order == [] {
      assert BatchOn(holds, Elements(order), t) == {};
    } else {
      var before := BatchOn(holds, Elements(Front(order)), t);
      BatchQtyIsSum(holds, Front(order), t);
      if holds[Last(order)].tier == t {
        assert BatchOn(holds, Elements(order), t) == before + {Last(order)};
        SumQtyRemove(holds, before + {Last(order)}, Last(order));
        assert before + {Last(order)} - {Last(order)} == before;
      } else {
        assert BatchOn(holds, Elements(order), t) == before;
      }
    }
  }

  lemma {:induction false} NothingRefused(snapshot: Tiers, holds: Holds, order: seq<Token>)
    requires forall i :: 0 <= i < |order| ==> !Refused(snapshot, holds, order[i])
    ensures FirstRefused(snapshot, holds, order) == |order|
  {
    if order != [] {
      NothingRefused(snapshot, holds, order[1..]);
    }
  }
}
