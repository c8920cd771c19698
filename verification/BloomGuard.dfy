/** The Bloom filter in front of the scan registry: what it remembers of the items added to it. */
module BloomGuard {
  import opened Wrappers
  import opened Sequences

  newtype Position = i: int | 0 <= i

  /** The i-th hash of an item before it is reduced to a position. */
  type Digest = (nat, string) -> nat

  /** Taking a hash modulo a size of zero raises; without hashes it never comes to that. */
  predicate Usable(size: nat, n: nat)
  {
    size > 0 || n == 0
  }

  function PositionAt(digest: Digest, size: nat, item: string, i: nat): Position
    requires size > 0
  {
    (digest(i, item) % size) as Position
  }

  /** The positions of the first `n` hashes of an item. */
  function Positions(digest: Digest, size: nat, n: nat, item: string): (r: set<Position>)
    requires Usable(size, n)
    ensures forall pos :: pos in r ==> pos as int < size
    ensures forall i: nat :: i < n ==> PositionAt(digest, size, item, i) in r
    ensures |r| <= n
  {
    if n == 0 then {} else Positions(digest, size, n - 1, item) + {PositionAt(digest, size, item, n - 1)}
  }

  lemma {:induction false} PositionsExactly(digest: Digest, size: nat, n: nat, item: string, pos: Position)
    requires Usable(size, n)
    ensures pos in Positions(digest, size, n, item) <==>
            exists i: nat :: i < n && digest(i, item) % size == pos as int
  {
    if n > 0 {
      PositionsExactly(digest, size, n - 1, item, pos);
      if digest(n - 1, item) % size == pos as int {
        assert pos == PositionAt(digest, size, item, n - 1);
      }
    }
  }

  /** Some hash of the item, modulo the size, is this position. */
  predicate HashedTo(digest: Digest, size: nat, n: nat, item: string, pos: Position)
    requires Usable(size, n)
  {
    exists i: nat :: i < n && digest(i, item) % size == pos as int
  }

  lemma AllPositions(digest: Digest, size: nat, n: nat, item: string)
    requires Usable(size, n)
    ensures forall pos :: pos in Positions(digest, size, n, item) <==> HashedTo(digest, size, n, item, pos)
  {
    forall pos
      ensures pos in Positions(digest, size, n, item) <==> HashedTo(digest, size, n, item, pos)
    {
      PositionsExactly(digest, size, n, item, pos);
    }
  }

  lemma {:induction false} PositionsWithin(digest: Digest, size: nat, n: nat, item: string, marked: set<Position>)
    requires Usable(size, n)
    ensures Positions(digest, size, n, item) <= marked <==>
            forall i: nat :: i < n ==> PositionAt(digest, size, item, i) in marked
  {
    if n > 0 {
      PositionsWithin(digest, size, n - 1, item, marked);
    }
  }

  lemma OneMorePosition(digest: Digest, size: nat, n: nat, item: string, before: set<Position>)
    requires size > 0
    ensures before + Positions(digest, size, n + 1, item)
         == before + Positions(digest, size, n, item) + {PositionAt(digest, size, item, n)}
  {}

  class BloomFilter {
    const digest: Digest
    const size: nat
    const hashCount: nat
    const bits: array<int>

    ghost predicate Valid()
    {
      bits.Length == size
    }

    /** The positions whose bit is set. */
    ghost function Marked(): (r: set<Position>)
      reads bits
      ensures forall pos :: pos in r <==> pos as int < bits.Length && bits[pos] != 0
    {
      set i | 0 <= i < bits.Length && bits[i] != 0 :: i as Position
    }

    constructor (digest: Digest, size: nat, hashCount: nat)
      ensures Valid() && fresh(bits) && Marked() == {}
      ensures this.digest == digest && this.size == size && this.hashCount == hashCount
    {
      this.digest, this.size, this.hashCount := digest, size, hashCount;
      bits := new int[size](_ => 0);
    }

    method Mark(pos: Position)
      requires pos as int < bits.Length
      modifies bits
      ensures Marked() == old(Marked()) + {pos}
    {
      bits[pos] := 1;
    }

    /** With a size of zero and at least one hash the call raises and changes nothing.  Otherwise exactly the
        bits at the item's hashes, modulo the size, are set in addition. */
    method Add(item: string) returns (raised: bool)
      requires Valid()
      modifies bits
      ensures raised == !Usable(size, hashCount)
      ensures raised ==> Marked() == old(Marked())
      ensures !raised ==> Marked() == old(Marked()) + Positions(digest, size, hashCount, item)
      ensures !raised ==>
                forall pos :: pos in Marked() <==>
                  pos in old(Marked()) || HashedTo(digest, size, hashCount, item, pos)
    {
      if size == 0 && hashCount > 0 {
        return true;
      }
      MarkHashes(item);
      AllPositions(digest, size, hashCount, item);
      return false;
    }

    method MarkHashes(item: string)
      requires Valid() && Usable(size, hashCount)
      modifies bits
      ensures Marked() == old(Marked()) + Positions(digest, size, hashCount, item)
    {
      ghost var before := Marked();
      for i := 0 to hashCount
        invariant Marked() == before + Positions(digest, size, i, item)
      {
        Mark(PositionAt(digest, size, item, i));
        OneMorePosition(digest, size, i, item, before);
      }
    }

    method Contains(item: string) returns (r: Option<bool>)
      requires Valid()
      ensures r.None? <==> !Usable(size, hashCount)
      ensures r.Some? ==> (r.value <==> Positions(digest, size, hashCount, item) <= Marked())
      ensures r.Some? ==> (r.value <==> forall i: nat :: i < hashCount ==> bits[digest(i, item) % size] != 0)
    {
      if size == 0 && hashCount > 0 {
        return None;
      }
      PositionsWithin(digest, size, hashCount, item, Marked());
      for i := 0 to hashCount
        invariant forall j: nat :: j < i ==> bits[digest(j, item) % size] != 0
      {
        if bits[PositionAt(digest, size, item, i)] == 0 {
          assert PositionAt(digest, size, item, i) !in Marked();
          return Some(false);
        }
      }
      return Some(true);
    }
  }

  // ----- any sequence of adds -----

  /** The bits set after adding the items, one after the other, to an empty filter. */
  function MarkedAfter(digest: Digest, size: nat, hashCount: nat, items: seq<string>): set<Position>
    requires Usable(size, hashCount)
  {
    if items == [] then {}
    else MarkedAfter(digest, size, hashCount, Front(items)) + Positions(digest, size, hashCount, Last(items))
  }

  predicate Reported(digest: Digest, size: nat, hashCount: nat, items: seq<string>, item: string)
    requires Usable(size, hashCount)
  {
    Positions(digest, size, hashCount, item) <= MarkedAfter(digest, size, hashCount, items)
  }

  /** A bit is set exactly when some added item hashes to it. */
  lemma {:induction false} MarkedExactly(digest: Digest, size: nat, hashCount: nat, items: seq<string>, pos: Position)
    requires Usable(size, hashCount)
    ensures pos in MarkedAfter(digest, size, hashCount, items) <==>
            exists item :: item in Elements(items) && pos in Positions(digest, size, hashCount, item)
  {
    if items != [] {
      MarkedExactly(digest, size, hashCount, Front(items), pos);
      assert Last(items) in Elements(items);
    }
  }

  /** A bit is set exactly when some hash of some added item, taken modulo the size, is its position. */
  lemma BitsExactly(digest: Digest, size: nat, hashCount: nat, items: seq<string>, pos: Position)
    requires Usable(size, hashCount)
    ensures pos in MarkedAfter(digest, size, hashCount, items) <==>
            exists added, j: nat :: added in Elements(items) && j < hashCount && digest(j, added) % size == pos as int
  {
    MarkedExactly(digest, size, hashCount, items, pos);
    forall added | added in Elements(items)
      ensures pos in Positions(digest, size, hashCount, added) <==>
              exists j: nat :: j < hashCount && digest(j, added) % size == pos as int
    {
      PositionsExactly(digest, size, hashCount, added, pos);
    }
  }

  /** An item is reported exactly when each of its hashes meets, modulo the size, a hash of some added item. */
  lemma ReportedExactly(digest: Digest, size: nat, hashCount: nat, items: seq<string>, item: string)
    requires Usable(size, hashCount)
    ensures Reported(digest, size, hashCount, items, item) <==>
            forall i: nat :: i < hashCount ==>
              exists added, j: nat :: added in Elements(items) && j < hashCount
                && digest(i, item) % size == digest(j, added) % size
  {
    var mine := Positions(digest, size, hashCount, item);
    var marked := MarkedAfter(digest, size, hashCount, items);
    forall i: nat | i < hashCount
      ensures PositionAt(digest, size, item, i) in mine
      ensures PositionAt(digest, size, item, i) in marked <==>
              exists added, j: nat :: added in Elements(items) && j < hashCount
                && digest(i, item) % size == digest(j, added) % size
    {
      BitsExactly(digest, size, hashCount, items, PositionAt(digest, size, item, i));
    }
    forall pos | pos in mine
      ensures exists i: nat :: i < hashCount && pos == PositionAt(digest, size, item, i)
    {
      PositionsExactly(digest, size, hashCount, item, pos);
      var i: nat :| i < hashCount && digest(i, item) % size == pos as int;
      assert pos == PositionAt(digest, size, item, i);
    }
  }

  /** No false negative: an added item is reported, whatever was added before or after it. */
  lemma {:induction false} NeverForgets(digest: Digest, size: nat, hashCount: nat, items: seq<string>, item: string)
    requires Usable(size, hashCount) && item in Elements(items)
    ensures Reported(digest, size, hashCount, items, item)
  {
    forall pos | pos in Positions(digest, size, hashCount, item)
      ensures pos in MarkedAfter(digest, size, hashCount, items)
    {
      MarkedExactly(digest, size, hashCount, items, pos);
    }
  }

  /** Order and repetition of the adds do not matter. */
  lemma OnlyTheItemsMatter(digest: Digest, size: nat, hashCount: nat, items: seq<string>, items': seq<string>)
    requires Usable(size, hashCount) && Elements(items) == Elements(items')
    ensures MarkedAfter(digest, size, hashCount, items) == MarkedAfter(digest, size, hashCount, items')
  {
    forall pos: Position
      ensures pos in MarkedAfter(digest, size, hashCount, items)
         <==> pos in MarkedAfter(digest, size, hashCount, items')
    {
      MarkedExactly(digest, size, hashCount, items, pos);
      MarkedExactly(digest, size, hashCount, items', pos);
    }
  }

  /** An item added before sets no new bit, any other at most hashCount. */
  lemma {:induction false} BitsGrow(digest: Digest, size: nat, hashCount: nat, items: seq<string>)
    requires Usable(size, hashCount) && items != []
    ensures |MarkedAfter(digest, size, hashCount, items)|
         <= |MarkedAfter(digest, size, hashCount, Front(items))|
            + (if Last(items) in Elements(Front(items)) then 0 else hashCount)
  {
    var before := MarkedAfter(digest, size, hashCount, Front(items));
    if Last(items) in Elements(Front(items)) {
      NeverForgets(digest, size, hashCount, Front(items), Last(items));
      assert MarkedAfter(digest, size, hashCount, items) == before;
    } else {
      UnionCardinality(before, Positions(digest, size, hashCount, Last(items)));
    }
  }

  /** At most hashCount bits for each distinct item. */
  lemma {:induction false} BitsPerItem(digest: Digest, size: nat, hashCount: nat, items: seq<string>)
    requires Usable(size, hashCount)
    ensures |MarkedAfter(digest, size, hashCount, items)| <= hashCount * |Elements(items)|
  {
    if items != [] {
      BitsPerItem(digest, size, hashCount, Front(items));
      BitsGrow(digest, size, hashCount, items);
      if Last(items) in Elements(Front(items)) {
        assert Elements(items) == Elements(Front(items));
      } else {
        assert |Elements(items)| == |Elements(Front(items))| + 1;
        Distribute(hashCount, |Elements(Front(items))|);
      }
    }
  }

  lemma Distribute(a: nat, b: nat)
    ensures a * (b + 1) == a * b + a
  {}

  lemma UnionCardinality<T>(a: set<T>, b: set<T>)
    ensures |a + b| <= |a| + |b|
  {
    SubsetCardinality(b - a, b);
    assert a + b == a + (b - a);
  }

  /** Never more bits set than there are, and never more than hashCount for each distinct item. */
  lemma BitsBounded(digest: Digest, size: nat, hashCount: nat, items: seq<string>)
    requires Usable(size, hashCount)
    ensures |MarkedAfter(digest, size, hashCount, items)| <= size
    ensures |MarkedAfter(digest, size, hashCount, items)| <= hashCount * |Elements(items)|
  {
    BitsPerItem(digest, size, hashCount, items);
    MarkedFit(digest, size, hashCount, items);
    FewPositions(MarkedAfter(digest, size, hashCount, items), size);
  }

  lemma {:induction false} MarkedFit(digest: Digest, size: nat, hashCount: nat, items: seq<string>)
    requires Usable(size, hashCount)
    ensures forall pos :: pos in MarkedAfter(digest, size, hashCount, items) ==> pos as int < size
  {
    if items != [] {
      MarkedFit(digest, size, hashCount, Front(items));
    }
  }

  lemma {:induction false} FewPositions(marked: set<Position>, size: nat)
    requires forall pos :: pos in marked ==> pos as int < size
    ensures |marked| <= size
  {
    if size == 0 {
      assert marked == {} by {
        assert forall pos: Position :: pos !in marked;
      }
    } else {
      var last := (size - 1) as Position;
      FewPositions(marked - {last}, size - 1);
      assert marked <= (marked - {last}) + {last};
      SubsetCardinality(marked, (marked - {last}) + {last});
    }
  }
}
