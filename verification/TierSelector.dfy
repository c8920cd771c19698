/** Choosing a tier by price: binary search and a walk to the left, against a full scan. */
module TierSelector {
  import opened Wrappers
  import opened Sequences
  import opened Inventory

  predicate Sorted(prices: seq<int>)
  {
    forall i, j :: 0 <= i < j < |prices| ==> prices[i] <= prices[j]
  }

  function PricesOf(tiers: seq<TicketTier>): (prices: seq<int>)
    ensures |prices| == |tiers| && forall i :: 0 <= i < |tiers| ==> prices[i] == tiers[i].terms.price
  {
    seq(|tiers|, i requires 0 <= i < |tiers| => tiers[i].terms.price)
  }

  /** The end of the bisection of prices[lo..hi] that goes right on prices up to `x`. */
  function After(prices: seq<int>, x: int, lo: nat, hi: nat): (end: nat)
    requires lo <= hi <= |prices|
    ensures lo <= end <= hi
    decreases hi - lo
  {
    var mid := (lo + hi) / 2;
    if lo == hi then lo
    else if x < prices[mid] then After(prices, x, lo, mid)
    else After(prices, x, mid + 1, hi)
  }

  /** Bisecting to the left of `x` is bisecting to the right of the next smaller price. */
  function Before(prices: seq<int>, x: int): nat
  {
    After(prices, x - 1, 0, |prices|)
  }

  method BisectRight(prices: seq<int>, x: int) returns (end: nat)
    ensures end == After(prices, x, 0, |prices|)
    ensures Sorted(prices) ==> forall i :: 0 <= i < |prices| ==> (prices[i] <= x <==> i < end)
  {
    var lo: nat, hi: nat := 0, |prices|;
    while lo < hi
      invariant lo <= hi <= |prices|
      invariant After(prices, x, lo, hi) == After(prices, x, 0, |prices|)
    {
      var mid := (lo + hi) / 2;
      if x < prices[mid] {
        hi := mid;
      } else {
        lo := mid + 1;
      }
    }
    end := lo;
    AfterSplits(prices, x, 0, |prices|);
  }

  method BisectLeft(prices: seq<int>, x: int) returns (end: nat)
    ensures end == Before(prices, x)
    ensures Sorted(prices) ==> forall i :: 0 <= i < |prices| ==> (prices[i] < x <==> i < end)
  {
    var lo: nat, hi: nat := 0, |prices|;
    while lo < hi
      invariant lo <= hi <= |prices|
      invariant After(prices, x - 1, lo, hi) == Before(prices, x)
    {
      var mid := (lo + hi) / 2;
      if prices[mid] < x {
        lo := mid + 1;
      } else {
        hi := mid;
      }
    }
    end := lo;
    AfterSplits(prices, x - 1, 0, |prices|);
  }

  predicate Selectable(t: TicketTier, now: Time)
  {
    t.QuantityAvailable() > 0 && t.IsOnSale(now)
  }

  /** A tier is on sale exactly when it is active, has tickets left and its sale period has begun and not
      ended; the search's first test adds nothing to that. */
  lemma SelectableExactly(t: TicketTier, now: Time)
    ensures Selectable(t, now) <==> t.IsOnSale(now)
    ensures t.IsOnSale(now) <==>
              && t.terms.active && t.held + t.sold < t.total
              && (t.terms.startsAt.Some? ==> t.terms.startsAt.value <= now)
              && (t.terms.endsAt.Some? ==> now <= t.terms.endsAt.value)
  {}

  /** The rightmost selectable tier among the first `n`. */
  function WalkLeft(tiers: seq<TicketTier>, n: nat, now: Time): (r: Option<nat>)
    requires n <= |tiers|
    ensures r.Some? ==> r.value < n && Selectable(tiers[r.value], now)
    ensures forall i :: (if r.Some? then r.value + 1 else 0) <= i < n ==> !Selectable(tiers[i], now)
  {
    if n == 0 then None
    else if Selectable(tiers[n - 1], now) then Some(n - 1)
    else WalkLeft(tiers, n - 1, now)
  }

  /** The tier the search picks, as a function of the list. */
  function Search(tiers: seq<TicketTier>, budget: int, now: Time): Option<nat>
  {
    WalkLeft(tiers, After(PricesOf(tiers), budget, 0, |tiers|), now)
  }

  class TierSelector {
    const tiers: seq<TicketTier>
    const prices: seq<int>

    constructor (tiers: seq<TicketTier>)
      ensures this.tiers == tiers && prices == PricesOf(tiers)
    {
      this.tiers := tiers;
      this.prices := PricesOf(tiers);
    }

    /** On a price-sorted list the answer is the one a full scan gives. */
    method SelectForBudget(budget: int, now: Time) returns (r: Option<nat>)
      requires prices == PricesOf(tiers)
      ensures r == Search(tiers, budget, now)
      ensures Sorted(prices) ==> r == Scan(tiers, budget, now)
    {
      SearchIsScan(tiers, budget, now);
      var end := BisectRight(prices, budget);
      var idx: int := end;
      idx := idx - 1;
      while idx >= 0
        invariant -1 <= idx < |tiers|
        invariant WalkLeft(tiers, idx + 1, now) == Search(tiers, budget, now)
      {
        if Selectable(tiers[idx], now) {
          return Some(idx);
        }
        idx := idx - 1;
      }
      return None;
    }

    /** On a price-sorted list: the leftmost tier at the price, or nothing exactly when there is none. */
    method SelectExact(price: int) returns (r: Option<nat>)
      requires prices == PricesOf(tiers)
      ensures r.Some? ==> r.value < |tiers| && tiers[r.value].terms.price == price
      ensures r == if Before(prices, price) < |tiers| && tiers[Before(prices, price)].terms.price == price
                   then Some(Before(prices, price)) else None
      ensures Sorted(prices) ==>
                forall i :: 0 <= i < |tiers| && tiers[i].terms.price == price ==> r.Some? && r.value <= i
    {
      var idx := BisectLeft(prices, price);
      if idx < |prices| && prices[idx] == price {
        return Some(idx);
      }
      return None;
    }
  }

  // ----- the full scan -----

  predicate Fits(t: TicketTier, budget: int, now: Time)
  {
    Selectable(t, now) && t.terms.price <= budget
  }

  /** Reads every tier and keeps the dearest that fits, the later one at equal prices. */
  function Scan(tiers: seq<TicketTier>, budget: int, now: Time): (r: Option<nat>)
    ensures r.Some? ==> r.value < |tiers|
  {
    if tiers == [] then None
    else
      var best := Scan(Front(tiers), budget, now);
      if Fits(Last(tiers), budget, now)
         && (best.None? || tiers[best.value].terms.price <= Last(tiers).terms.price)
      then Some(|tiers| - 1)
      else best
  }

  /** The rightmost tier of maximal price that fits. */
  ghost predicate IsBest(tiers: seq<TicketTier>, budget: int, now: Time, r: nat)
  {
    && r < |tiers| && Fits(tiers[r], budget, now)
    && forall i :: 0 <= i < |tiers| && Fits(tiers[i], budget, now) ==>
         tiers[i].terms.price < tiers[r].terms.price
         || (tiers[i].terms.price == tiers[r].terms.price && i <= r)
  }

  /** The scan finds the best tier of any list, and nothing exactly when nothing fits. */
  lemma {:induction false} ScanFindsBest(tiers: seq<TicketTier>, budget: int, now: Time)
    ensures var r := Scan(tiers, budget, now);
            && (r.Some? ==> IsBest(tiers, budget, now, r.value))
            && (r.None? <==> forall i :: 0 <= i < |tiers| ==> !Fits(tiers[i], budget, now))
  {
    if tiers != [] {
      var front := Front(tiers);
      ScanFindsBest(front, budget, now);
      assert forall i :: 0 <= i < |front| ==> front[i] == tiers[i];
      assert Last(tiers) == tiers[|front|];
      if Scan(front, budget, now).None? {
        assert forall i :: 0 <= i < |front| ==> !Fits(front[i], budget, now);
      }
    }
  }

  lemma BestIsUnique(tiers: seq<TicketTier>, budget: int, now: Time, r: nat, r': nat)
    requires IsBest(tiers, budget, now, r) && IsBest(tiers, budget, now, r')
    ensures r == r'
  {}

  lemma {:induction false} AfterSplits(prices: seq<int>, x: int, lo: nat, hi: nat)
    requires lo <= hi <= |prices|
    requires forall i :: 0 <= i < lo ==> prices[i] <= x
    requires forall i :: hi <= i < |prices| ==> prices[i] > x
    ensures Sorted(prices) ==> forall i :: 0 <= i < |prices| ==> (prices[i] <= x <==> i < After(prices, x, lo, hi))
    decreases hi - lo
  {
    var mid := (lo + hi) / 2;
    if lo < hi && Sorted(prices) {
      if x < prices[mid] {
        AfterSplits(prices, x, lo, mid);
      } else {
        AfterSplits(prices, x, mid + 1, hi);
      }
    }
  }

  /** On a price-sorted list the search is the scan, for every budget and clock. */
  lemma SearchIsScan(tiers: seq<TicketTier>, budget: int, now: Time)
    ensures Sorted(PricesOf(tiers)) ==> Search(tiers, budget, now) == Scan(tiers, budget, now)
  {
    var prices := PricesOf(tiers);
    if Sorted(prices) {
      AfterSplits(prices, budget, 0, |prices|);
      ScanFindsBest(tiers, budget, now);
      var r := Search(tiers, budget, now);
      if r.Some? {
        assert Fits(tiers[r.value], budget, now);
        assert IsBest(tiers, budget, now, r.value);
        BestIsUnique(tiers, budget, now, r.value, Scan(tiers, budget, now).value);
      }
    }
  }

  // ----- lists that are not sorted by price -----

  /** A larger budget never ends further left, on any list. */
  lemma {:induction false} AfterMonotone(prices: seq<int>, x: int, y: int, lo: nat, hi: nat)
    requires lo <= hi <= |prices| && x <= y
    ensures After(prices, x, lo, hi) <= After(prices, y, lo, hi)
    decreases hi - lo
  {
    var mid := (lo + hi) / 2;
    if lo < hi {
      if y < prices[mid] {
        AfterMonotone(prices, x, y, lo, mid);
      } else if prices[mid] <= x {
        AfterMonotone(prices, x, y, mid + 1, hi);
      }
    }
  }

  ghost predicate AgreesForEveryBudget(tiers: seq<TicketTier>, now: Time)
  {
    forall budget :: Search(tiers, budget, now) == Scan(tiers, budget, now)
  }

  /** If the search is right for every budget, each tier that some budget should pick is cheaper than
      every such tier to its right. */
  lemma AgreementNeedsOrder(tiers: seq<TicketTier>, now: Time, i: nat, j: nat)
    requires AgreesForEveryBudget(tiers, now) && i < |tiers| && j < |tiers|
    requires IsBest(tiers, tiers[i].terms.price, now, i) && IsBest(tiers, tiers[j].terms.price, now, j)
    requires tiers[i].terms.price <= tiers[j].terms.price
    ensures i <= j
  {
    var p, q := tiers[i].terms.price, tiers[j].terms.price;
    ScanFindsBest(tiers, p, now);
    ScanFindsBest(tiers, q, now);
    BestIsUnique(tiers, p, now, i, Scan(tiers, p, now).value);
    BestIsUnique(tiers, q, now, j, Scan(tiers, q, now).value);
    assert Search(tiers, p, now) == Some(i) && Search(tiers, q, now) == Some(j);
    AfterMonotone(PricesOf(tiers), p, q, 0, |tiers|);
  }

  /** Among tiers that are all selectable and differently priced, being sorted is not only enough. */
  lemma AgreesExactlyIfSorted(tiers: seq<TicketTier>, now: Time)
    requires forall i :: 0 <= i < |tiers| ==> Selectable(tiers[i], now)
    requires forall i, j :: 0 <= i < j < |tiers| ==> tiers[i].terms.price != tiers[j].terms.price
    ensures AgreesForEveryBudget(tiers, now) <==> Sorted(PricesOf(tiers))
  {
    if Sorted(PricesOf(tiers)) {
      forall budget
        ensures Search(tiers, budget, now) == Scan(tiers, budget, now)
      {
        SearchIsScan(tiers, budget, now);
      }
    }
    if AgreesForEveryBudget(tiers, now) {
      forall i, j | 0 <= i < j < |tiers|
        ensures PricesOf(tiers)[i] <= PricesOf(tiers)[j]
      {
        if tiers[i].terms.price > tiers[j].terms.price {
          AgreementNeedsOrder(tiers, now, j, i);
        }
      }
    }
  }

  /** The order in which the tier table is read: by sort order, then by price. */
  predicate InTableOrder(tiers: seq<TicketTier>)
  {
    forall i, j :: 0 <= i < j < |tiers| ==>
      tiers[i].terms.sortOrder < tiers[j].terms.sortOrder
      || (tiers[i].terms.sortOrder == tiers[j].terms.sortOrder && tiers[i].terms.price <= tiers[j].terms.price)
  }

  /** Reading the table in its own order gives a price-sorted list exactly when no tier with a lower
      sort order is dearer. */
  lemma TableOrderIsPriceOrderExactly(tiers: seq<TicketTier>)
    requires InTableOrder(tiers)
    ensures Sorted(PricesOf(tiers)) <==>
            forall i, j :: 0 <= i < |tiers| && 0 <= j < |tiers|
                           && tiers[i].terms.sortOrder < tiers[j].terms.sortOrder ==>
              tiers[i].terms.price <= tiers[j].terms.price
  {
    var prices := PricesOf(tiers);
    forall i, j | Sorted(prices) && 0 <= i < |tiers| && 0 <= j < |tiers|
                  && tiers[i].terms.sortOrder < tiers[j].terms.sortOrder
      ensures tiers[i].terms.price <= tiers[j].terms.price
    {
      assert i < j;
      assert prices[i] <= prices[j];
    }
  }

  function DearFirst(): seq<TicketTier>
  {
    [TicketTier(0, 10, 0, 0, SaleTerms(500, None, None, true, 0)),
     TicketTier(0, 10, 0, 0, SaleTerms(600, None, None, true, 0)),
     TicketTier(0, 10, 0, 0, SaleTerms(300, None, None, true, 1))]
  }

  /** Two dear tiers sorted first hide a cheap one that is on sale: the search finds nothing to buy. */
  lemma TableOrderCanHideATier()
    ensures InTableOrder(DearFirst())
    ensures Scan(DearFirst(), 300, 0) == Some(2) && Search(DearFirst(), 300, 0) == None
  {
    var prices := PricesOf(DearFirst());
    assert prices[0] == 500 && prices[1] == 600;
    assert After(prices, 300, 0, 1) == 0;
    assert Fits(DearFirst()[2], 300, 0);
    ScanFindsBest(DearFirst(), 300, 0);
    assert IsBest(DearFirst(), 300, 0, 2);
    BestIsUnique(DearFirst(), 300, 0, Scan(DearFirst(), 300, 0).value, 2);
  }
}
