/** Listings: sequences read from the back, and the sets they list. */
module Sequences {

  function Front<T>(order: seq<T>): seq<T>
    requires order != []
  {
    order[..|order| - 1]
  }

  function Last<T>(order: seq<T>): T
    requires order != []
  {
    order[|order| - 1]
  }

  function Elements<T>(order: seq<T>): set<T>
  {
    if order == [] then {} else Elements(Front(order)) + {Last(order)}
  }

  predicate NoRepeats<T(==)>(order: seq<T>)
  {
    order != [] ==> Last(order) !in Elements(Front(order)) && NoRepeats(Front(order))
  }

  /** The rows of a query result, each once, in whatever order the database returned them. */
  predicate Lists<T(==)>(order: seq<T>, rows: set<T>)
  {
    NoRepeats(order) && Elements(order) == rows
  }

  lemma SubsetCardinality<T>(a: set<T>, b: set<T>)
    requires a <= b
    ensures |a| <= |b|
  {
    assert b == a + (b - a);
  }

  lemma PrefixStep<T>(order: seq<T>, i: nat)
    requires i < |order|
    ensures Front(order[..i + 1]) == order[..i] && Last(order[..i + 1]) == order[i]
  {
    assert order[..i + 1][..i] == order[..i];
  }

  lemma {:induction false} PrefixWithin<T>(order: seq<T>, i: nat)
    requires i <= |order|
    ensures Elements(order[..i]) <= Elements(order)
    decreases |order|
  {
    if i == |order| {
      assert order[..i] == order;
    } else {
      PrefixWithin(Front(order), i);
      assert Front(order)[..i] == order[..i];
    }
  }

  lemma ItemWithin<T>(order: seq<T>, i: nat)
    requires i < |order|
    ensures order[i] in Elements(order)
  {
    PrefixStep(order, i);
    PrefixWithin(order, i + 1);
  }

  lemma {:induction false} ElementAt<T>(order: seq<T>, x: T) returns (i: nat)
    requires x in Elements(order)
    ensures i < |order| && order[i] == x
  {
    if Last(order) == x {
      i := |order| - 1;
    } else {
      i := ElementAt(Front(order), x);
    }
  }

  lemma {:induction false} PrefixNoRepeats<T>(order: seq<T>, i: nat)
    requires i <= |order| && NoRepeats(order)
    ensures NoRepeats(order[..i])
    decreases |order|
  {
    if i == |order| {
      assert order[..i] == order;
    } else {
      PrefixNoRepeats(Front(order), i);
      assert Front(order)[..i] == order[..i];
    }
  }

  /** The items of `order` that are in `wanted`, in the same order. */
  function Keep<T(==)>(order: seq<T>, wanted: set<T>): seq<T>
  {
    if order == [] then []
    else Keep(Front(order), wanted) + (if Last(order) in wanted then [Last(order)] else [])
  }

  lemma KeepLast<T>(order: seq<T>, x: T, wanted: set<T>)
    ensures Elements(order + [x]) == Elements(order) + {x}
    ensures Keep(order + [x], wanted) == Keep(order, wanted) + (if x in wanted then [x] else [])
    ensures NoRepeats(order + [x]) <==> NoRepeats(order) && x !in Elements(order)
    ensures Front(order + [x]) == order && Last(order + [x]) == x
  {
    assert Front(order + [x]) == order;
  }

  lemma {:induction false} KeepElements<T>(order: seq<T>, wanted: set<T>)
    ensures Elements(Keep(order, wanted)) == Elements(order) * wanted
    ensures NoRepeats(order) ==> NoRepeats(Keep(order, wanted))
  {
    if order != [] {
      KeepElements(Front(order), wanted);
      if Last(order) in wanted {
        KeepLast(Keep(Front(order), wanted), Last(order), wanted);
      } else {
        assert Keep(order, wanted) == Keep(Front(order), wanted);
      }
    }
  }

  lemma {:induction false} KeepTwice<T>(order: seq<T>, a: set<T>, b: set<T>)
    ensures Keep(Keep(order, a), b) == Keep(order, a * b)
  {
    if order != [] {
      KeepTwice(Front(order), a, b);
      if Last(order) in a {
        KeepLast(Keep(Front(order), a), Last(order), b);
      } else {
        assert Keep(order, a) == Keep(Front(order), a);
      }
    }
  }

  /** Only the wanted items that occur matter. */
  lemma {:induction false} KeepSame<T>(order: seq<T>, a: set<T>, b: set<T>)
    requires Elements(order) * a == Elements(order) * b
    ensures Keep(order, a) == Keep(order, b)
  {
    if order != [] {
      assert Last(order) in a <==> Last(order) in b by {
        assert Last(order) in Elements(order) * a <==> Last(order) in Elements(order) * b;
      }
      assert Elements(Front(order)) * a == Elements(Front(order)) * b by {
        forall x | x in Elements(Front(order))
          ensures x in a <==> x in b
        {
          assert x in Elements(order) * a <==> x in Elements(order) * b;
        }
      }
      KeepSame(Front(order), a, b);
    }
  }

  lemma {:induction false} KeepAll<T>(order: seq<T>, wanted: set<T>)
    requires Elements(order) <= wanted
    ensures Keep(order, wanted) == order
  {
    if order != [] {
      KeepAll(Front(order), wanted);
      assert order == Front(order) + [Last(order)];
    }
  }

  lemma {:induction false} DistinctLength<T>(order: seq<T>)
    requires NoRepeats(order)
    ensures |order| == |Elements(order)|
  {
    if order != [] {
      DistinctLength(Front(order));
    }
  }

  /** Dropping the first of distinct items keeps all the others. */
  lemma {:induction false} DropFirst<T>(order: seq<T>)
    requires NoRepeats(order) && order != []
    ensures order[0] in Elements(order)
    ensures order[1..] == Keep(order, Elements(order) - {order[0]})
    ensures Elements(order[1..]) == Elements(order) - {order[0]}
  {
    var wanted := Elements(order) - {order[0]};
    if |order| == 1 {
      assert Front(order) == [] && order[1..] == [];
    } else {
      var front, x := Front(order), Last(order);
      DropFirst(front);
      assert order[1..] == front[1..] + [x];
      assert Elements(front) * wanted == Elements(front) * (Elements(front) - {order[0]});
      KeepSame(front, wanted, Elements(front) - {order[0]});
      assert Keep(order, wanted) == Keep(front, wanted) + [x];
      KeepLast(front[1..], x, {});
    }
  }

  lemma {:induction false} KeepHead<T>(order: seq<T>, wanted: set<T>)
    requires order != [] && order[0] in wanted
    ensures Keep(order, wanted) != [] && Keep(order, wanted)[0] == order[0]
  {
    if |order| > 1 {
      KeepHead(Front(order), wanted);
    } else {
      assert Front(order) == [];
    }
  }
}
