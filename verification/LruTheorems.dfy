/** What the cache guarantees over whole traces of operations. */
module LruTheorems {
  import opened Sequences
  import opened LruCache

  datatype Op<K, V> = Get(key: K) | Set(key: K, value: V) | Invalidate(key: K)

  function Step<K(==), V>(c: Lru<K, V>, capacity: int, op: Op<K, V>): Lru<K, V>
  {
    match op
    case Get(k) => AfterGet(c, k)
    case Set(k, v) => AfterSet(c, capacity, k, v)
    case Invalidate(k) => AfterInvalidate(c, k)
  }

  function Run<K(==), V>(c: Lru<K, V>, capacity: int, ops: seq<Op<K, V>>): Lru<K, V>
  {
    if ops == [] then c else Step(Run(c, capacity, Front(ops)), capacity, Last(ops))
  }

  lemma StepKeepsValid<K, V>(c: Lru<K, V>, capacity: int, op: Op<K, V>)
    requires Valid(c)
    ensures Valid(Step(c, capacity, op))
  {
    match op
    case Get(k) => GetKeepsValid(c, k);
    case Set(k, v) => SetKeepsValid(c, capacity, k, v);
    case Invalidate(k) => InvalidateKeepsValid(c, k);
  }

  lemma {:induction false} RunKeepsValid<K, V>(c: Lru<K, V>, capacity: int, ops: seq<Op<K, V>>)
    requires Valid(c)
    ensures Valid(Run(c, capacity, ops))
  {
    if ops != [] {
      RunKeepsValid(c, capacity, Front(ops));
      StepKeepsValid(Run(c, capacity, Front(ops)), capacity, Last(ops));
    }
  }

  // ----- size -----

  /** The size the capacity allows; a capacity below zero allows none. */
  function Allowed(capacity: int): nat
  {
    if capacity < 0 then 0 else capacity
  }

  lemma StepKeepsSize<K, V>(c: Lru<K, V>, capacity: int, op: Op<K, V>)
    requires Valid(c) && |c.table| <= Allowed(capacity)
    ensures |Step(c, capacity, op).table| <= Allowed(capacity)
  {
    match op
    case Get(k) =>
    case Set(k, v) =>
      var full := Inserted(c, k, v);
      InsertedValid(c, k, v);
      assert full.table.Keys == c.table.Keys + {k};
      if |full.table| > capacity {
        EvictedValid(full);
      }
    case Invalidate(k) =>
      assert AfterInvalidate(c, k).table.Keys == c.table.Keys - {k};
  }

  /** The cache never holds more entries than its capacity, whatever the trace. */
  lemma {:induction false} SizeBounded<K, V>(capacity: int, ops: seq<Op<K, V>>)
    ensures |Run(Empty<K, V>(), capacity, ops).table| <= Allowed(capacity)
    ensures |Run(Empty<K, V>(), capacity, ops).order| == |Run(Empty<K, V>(), capacity, ops).table|
  {
    RunKeepsValid(Empty<K, V>(), capacity, ops);
    DistinctLength(Run(Empty<K, V>(), capacity, ops).order);
    if ops != [] {
      SizeBounded(capacity, Front(ops));
      RunKeepsValid(Empty<K, V>(), capacity, Front(ops));
      StepKeepsSize(Run(Empty<K, V>(), capacity, Front(ops)), capacity, Last(ops));
    }
  }

  // ----- inclusion between capacities -----

  /** The smaller cache is the larger one restricted to its own keys, in the same recency order and with
      the same values, and it never has more free slots. */
  ghost predicate Included<K, V>(small: Lru<K, V>, big: Lru<K, V>, c: int, d: int)
  {
    && Valid(small) && Valid(big)
    && small.table.Keys <= big.table.Keys
    && (forall k :: k in small.table ==> small.table[k] == big.table[k])
    && small.order == Keep(big.order, small.table.Keys)
    && c - |small.table| <= d - |big.table|
  }

  lemma MovedToEndIncluded<K, V>(small: Lru<K, V>, big: Lru<K, V>, key: K, c: int, d: int)
    requires Included(small, big, c, d)
    ensures Keep(Without(big.order, key) + [key], small.table.Keys + {key}) == Without(small.order, key) + [key]
    ensures key !in small.table ==> Keep(Without(big.order, key) + [key], small.table.Keys) == small.order
  {
    var ks, kb := small.table.Keys, big.table.Keys;
    KeepLast(Without(big.order, key), key, ks + {key});
    KeepLast(Without(big.order, key), key, ks);
    KeepTwice(big.order, kb - {key}, ks + {key});
    KeepTwice(big.order, kb - {key}, ks);
    KeepTwice(big.order, ks, ks - {key});
    assert (kb - {key}) * (ks + {key}) == ks - {key} == ks * (ks - {key});
    assert key !in ks ==> (kb - {key}) * ks == ks;
  }

  lemma InsertCount<K, V>(m: map<K, V>, key: K, value: V)
    ensures m[key := value].Keys == m.Keys + {key}
    ensures |m[key := value]| == |m| + (if key in m then 0 else 1)
  {
    assert m[key := value].Keys == m.Keys + {key};
    if key in m {
      assert m.Keys + {key} == m.Keys;
    }
  }

  lemma RemoveCount<K, V>(m: map<K, V>, key: K)
    ensures (m - {key}).Keys == m.Keys - {key}
    ensures |m - {key}| == |m| - (if key in m then 1 else 0)
  {
    assert (m - {key}).Keys == m.Keys - {key};
    if key !in m {
      assert m.Keys - {key} == m.Keys;
    }
  }

  lemma InsertedIncluded<K, V>(small: Lru<K, V>, big: Lru<K, V>, key: K, value: V, c: int, d: int)
    requires Included(small, big, c, d)
    ensures Included(Inserted(small, key, value), Inserted(big, key, value), c, d)
  {
    MovedToEndIncluded(small, big, key, c, d);
    InsertedValid(small, key, value);
    InsertedValid(big, key, value);
    InsertCount(small.table, key, value);
    InsertCount(big.table, key, value);
  }

  lemma BothEvictIncluded<K, V>(small: Lru<K, V>, big: Lru<K, V>, c: int, d: int)
    requires Included(small, big, c, d) && small.order != [] && big.order != []
    ensures Included(Evicted(small), Evicted(big), c, d)
  {
    var ks, kb, x, y := small.table.Keys, big.table.Keys, big.order[0], small.order[0];
    EvictedValid(small);
    EvictedValid(big);
    if x in ks {
      KeepHead(big.order, ks);
    }
    DropFirst(small.order);
    DropFirst(big.order);
    KeepTwice(big.order, ks, ks - {y});
    KeepTwice(big.order, kb - {x}, ks - {y});
    assert ks * (ks - {y}) == ks - {y};
    assert (kb - {x}) * (ks - {y}) == ks - {y};
    assert Evicted(small).table.Keys == ks - {y};
  }

  lemma SmallEvictsIncluded<K, V>(small: Lru<K, V>, big: Lru<K, V>, c: int, d: int)
    requires Included(small, big, c, d) && small.order != []
    requires |small.table| > c && |big.table| <= d
    ensures Included(Evicted(small), big, c, d)
  {
    var ks, y := small.table.Keys, small.order[0];
    EvictedValid(small);
    DropFirst(small.order);
    KeepTwice(big.order, ks, ks - {y});
    assert ks * (ks - {y}) == ks - {y};
    assert Evicted(small).table.Keys == ks - {y};
  }

  lemma SetIncluded<K, V>(small: Lru<K, V>, big: Lru<K, V>, key: K, value: V, c: int, d: int)
    requires Included(small, big, c, d)
    ensures Included(AfterSet(small, c, key, value), AfterSet(big, d, key, value), c, d)
  {
    var fs, fb := Inserted(small, key, value), Inserted(big, key, value);
    InsertedIncluded(small, big, key, value, c, d);
    if |fb.table| > d {
      BothEvictIncluded(fs, fb, c, d);
    } else if |fs.table| > c {
      SmallEvictsIncluded(fs, fb, c, d);
    }
  }

  lemma GetIncluded<K, V>(small: Lru<K, V>, big: Lru<K, V>, key: K, c: int, d: int)
    requires Included(small, big, c, d)
    ensures Included(AfterGet(small, key), AfterGet(big, key), c, d)
  {
    MovedToEndIncluded(small, big, key, c, d);
    GetKeepsValid(small, key);
    GetKeepsValid(big, key);
    if key in small.table {
      assert small.table.Keys + {key} == small.table.Keys;
    }
  }

  lemma RemovedIncluded<K>(order: seq<K>, kb: set<K>, ks: set<K>, key: K)
    requires Elements(order) == kb && ks <= kb
    ensures Keep(Without(order, key), ks - {key}) == Keep(Keep(order, ks), ks - {key})
  {
    KeepTwice(order, kb - {key}, ks - {key});
    KeepTwice(order, ks, ks - {key});
    assert (kb - {key}) * (ks - {key}) == ks - {key} == ks * (ks - {key});
  }

  lemma InvalidateIncluded<K, V>(small: Lru<K, V>, big: Lru<K, V>, key: K, c: int, d: int)
    requires Included(small, big, c, d)
    ensures Included(AfterInvalidate(small, key), AfterInvalidate(big, key), c, d)
  {
    InvalidateKeepsValid(small, key);
    InvalidateKeepsValid(big, key);
    RemoveCount(small.table, key);
    RemoveCount(big.table, key);
    RemovedIncluded(big.order, big.table.Keys, small.table.Keys, key);
  }

  /** Two caches with capacities c <= d, fed the same trace: at every point the smaller one is the larger
      one restricted to fewer keys, in the same order, with the same values. */
  lemma {:induction false} Inclusion<K, V>(c: int, d: int, ops: seq<Op<K, V>>)
    requires c <= d
    ensures Included(Run(Empty<K, V>(), c, ops), Run(Empty<K, V>(), d, ops), c, d)
  {
    if ops != [] {
      Inclusion(c, d, Front(ops));
      var small, big := Run(Empty<K, V>(), c, Front(ops)), Run(Empty<K, V>(), d, Front(ops));
      match Last(ops)
      case Get(k) => GetIncluded(small, big, k, c, d);
      case Set(k, v) => SetIncluded(small, big, k, v, c, d);
      case Invalidate(k) => InvalidateIncluded(small, big, k, c, d);
    }
  }

  /** How many reads of the trace find their key. */
  function Hits<K(==), V>(capacity: int, ops: seq<Op<K, V>>): nat
  {
    if ops == [] then 0
    else Hits(capacity, Front(ops))
         + (if Last(ops).Get? && Last(ops).key in Run(Empty<K, V>(), capacity, Front(ops)).table then 1 else 0)
  }

  /** A larger capacity never costs a hit. */
  lemma {:induction false} MoreCapacityMoreHits<K, V>(c: int, d: int, ops: seq<Op<K, V>>)
    requires c <= d
    ensures Hits(c, ops) <= Hits(d, ops)
  {
    if ops != [] {
      MoreCapacityMoreHits(c, d, Front(ops));
      Inclusion<K, V>(c, d, Front(ops));
    }
  }

  // ----- against a map that forgets nothing -----

  /** The value each key was last set to, unless it was invalidated since. */
  function Remembered<K(==), V>(ops: seq<Op<K, V>>): map<K, V>
  {
    if ops == [] then map[]
    else
      match Last(ops)
      case Get(_) => Remembered(Front(ops))
      case Set(k, v) => Remembered(Front(ops))[k := v]
      case Invalidate(k) => Remembered(Front(ops)) - {k}
  }

  /** At no point of the trace does the map hold more than the cache may. */
  predicate NeverOver<K(==), V>(capacity: int, ops: seq<Op<K, V>>)
  {
    |Remembered(ops)| <= Allowed(capacity) && (ops != [] ==> NeverOver(capacity, Front(ops)))
  }

  /** At every point of the trace cache and map hold the same. */
  ghost predicate AgreesThroughout<K, V>(capacity: int, ops: seq<Op<K, V>>)
  {
    Run(Empty<K, V>(), capacity, ops).table == Remembered(ops) && (ops != [] ==> AgreesThroughout(capacity, Front(ops)))
  }

  lemma StepRemembers<K, V>(c: Lru<K, V>, capacity: int, ops: seq<Op<K, V>>)
    requires ops != [] && c.table == Remembered(Front(ops)) && |Remembered(ops)| <= Allowed(capacity)
    ensures Step(c, capacity, Last(ops)).table == Remembered(ops)
  {
    match Last(ops)
    case Get(_) =>
    case Set(k, v) => InsertCount(c.table, k, v);
    case Invalidate(_) =>
  }

  /** The cache is that map throughout a trace exactly when the trace never fills it beyond its capacity. */
  lemma {:induction false} ForgetsNothingExactly<K, V>(capacity: int, ops: seq<Op<K, V>>)
    ensures AgreesThroughout(capacity, ops) <==> NeverOver(capacity, ops)
  {
    if ops != [] {
      ForgetsNothingExactly(capacity, Front(ops));
      if NeverOver(capacity, ops) {
        StepRemembers(Run(Empty<K, V>(), capacity, Front(ops)), capacity, ops);
      }
    }
    SizeBounded(capacity, ops);
  }

  lemma {:induction false} RememberedSize<K, V>(ops: seq<Op<K, V>>)
    ensures |Remembered(ops)| <= |ops|
  {
    if ops != [] {
      RememberedSize(Front(ops));
      match Last(ops)
      case Get(_) =>
      case Set(k, v) => InsertCount(Remembered(Front(ops)), k, v);
      case Invalidate(k) => RemoveCount(Remembered(Front(ops)), k);
    }
  }

  lemma {:induction false} ShortNeverOver<K, V>(capacity: int, ops: seq<Op<K, V>>)
    requires |ops| <= capacity
    ensures NeverOver(capacity, ops)
  {
    RememberedSize(ops);
    if ops != [] {
      ShortNeverOver(capacity, Front(ops));
    }
  }

  /** Whatever the capacity, a cached value is the one last set and not since invalidated: the cache may
      forget, it never serves anything stale. */
  lemma {:induction false} NeverStale<K, V>(capacity: int, ops: seq<Op<K, V>>)
    ensures var c := Run(Empty<K, V>(), capacity, ops);
            forall k :: k in c.table ==> k in Remembered(ops) && c.table[k] == Remembered(ops)[k]
  {
    var roomy := if capacity < |ops| then |ops| else capacity;
    Inclusion<K, V>(capacity, roomy, ops);
    ShortNeverOver(roomy, ops);
    ForgetsNothingExactly(roomy, ops);
  }

  // ----- the victim is the least recently used key -----

  predicate Mentions<K(==), V>(op: Op<K, V>, key: K)
  {
    !op.Invalidate? && op.key == key
  }

  /** When `key` was last read or set: one plus the index of the operation, or zero. */
  function LastUse<K(==), V>(ops: seq<Op<K, V>>, key: K): nat
  {
    if ops == [] then 0
    else if Mentions(Last(ops), key) then |ops|
    else LastUse(Front(ops), key)
  }

  ghost predicate ByLastUse<K(!new), V>(order: seq<K>, ops: seq<Op<K, V>>)
  {
    order != [] ==>
      && (forall k :: k in Elements(Front(order)) ==> LastUse(ops, k) < LastUse(ops, Last(order)))
      && ByLastUse(Front(order), ops)
  }

  lemma {:induction false} LastUseBounded<K, V>(ops: seq<Op<K, V>>, key: K)
    ensures LastUse(ops, key) <= |ops|
  {
    if ops != [] {
      LastUseBounded(Front(ops), key);
    }
  }

  lemma {:induction false} KeepByLastUse<K(!new), V>(order: seq<K>, wanted: set<K>, ops: seq<Op<K, V>>)
    requires ByLastUse(order, ops)
    ensures ByLastUse(Keep(order, wanted), ops)
  {
    if order != [] {
      KeepByLastUse(Front(order), wanted, ops);
      if Last(order) in wanted {
        KeepElements(Front(order), wanted);
        KeepLast(Keep(Front(order), wanted), Last(order), wanted);
      } else {
        assert Keep(order, wanted) == Keep(Front(order), wanted);
      }
    }
  }

  /** An operation that does not use these keys leaves their order by last use alone. */
  lemma {:induction false} UnusedByLastUse<K(!new), V>(order: seq<K>, ops: seq<Op<K, V>>)
    requires ops != [] && ByLastUse(order, Front(ops))
    requires forall k :: k in Elements(order) ==> !Mentions(Last(ops), k)
    ensures ByLastUse(order, ops)
  {
    if order != [] {
      UnusedByLastUse(Front(order), ops);
    }
  }

  lemma UsedByLastUse<K(!new), V>(order: seq<K>, key: K, ops: seq<Op<K, V>>)
    requires ops != [] && NoRepeats(order) && ByLastUse(order, Front(ops)) && Mentions(Last(ops), key)
    ensures ByLastUse(Without(order, key) + [key], ops)
  {
    var rest := Without(order, key);
    KeepElements(order, Elements(order) - {key});
    KeepByLastUse(order, Elements(order) - {key}, Front(ops));
    UnusedByLastUse(rest, ops);
    KeepLast(rest, key, {});
    forall k | k in Elements(rest)
      ensures LastUse(ops, k) < LastUse(ops, key)
    {
      LastUseBounded(Front(ops), k);
    }
  }

  lemma DroppedByLastUse<K(!new), V>(order: seq<K>, ops: seq<Op<K, V>>)
    requires order != [] && NoRepeats(order) && ByLastUse(order, ops)
    ensures ByLastUse(order[1..], ops)
  {
    DropFirst(order);
    KeepByLastUse(order, Elements(order) - {order[0]}, ops);
  }

  /** The keys are always ordered by their last use. */
  lemma {:induction false} OrderedByLastUse<K(!new), V>(capacity: int, ops: seq<Op<K, V>>)
    ensures ByLastUse(Run(Empty<K, V>(), capacity, ops).order, ops)
  {
    if ops != [] {
      var c := Run(Empty<K, V>(), capacity, Front(ops));
      OrderedByLastUse(capacity, Front(ops));
      RunKeepsValid(Empty<K, V>(), capacity, Front(ops));
      match Last(ops)
      case Get(k) =>
        if k in c.table {
          UsedByLastUse(c.order, k, ops);
        } else {
          UnusedByLastUse(c.order, ops);
        }
      case Set(k, v) =>
        UsedByLastUse(c.order, k, ops);
        InsertedValid(c, k, v);
        if |Inserted(c, k, v).table| > capacity {
          DroppedByLastUse(Inserted(c, k, v).order, ops);
        }
      case Invalidate(k) =>
        KeepByLastUse(c.order, Elements(c.order) - {k}, Front(ops));
        UnusedByLastUse(Without(c.order, k), ops);
    }
  }

  lemma {:induction false} FirstIsOldest<K(!new), V>(order: seq<K>, ops: seq<Op<K, V>>, key: K)
    requires NoRepeats(order) && ByLastUse(order, ops) && key in Elements(order)
    ensures key == order[0] || LastUse(ops, order[0]) < LastUse(ops, key)
  {
    if |order| > 1 {
      if key != Last(order) {
        FirstIsOldest(Front(order), ops, key);
      } else {
        DropFirst(Front(order));
      }
    } else {
      assert Front(order) == [];
    }
  }

  /** A key that a set pushes out was used longer ago than every key that stays. */
  lemma VictimIsLeastRecentlyUsed<K(!new), V>(capacity: int, ops: seq<Op<K, V>>, key: K, value: V, victim: K, other: K)
    requires var c, c' := Run(Empty<K, V>(), capacity, ops), Run(Empty<K, V>(), capacity, ops + [Set(key, value)]);
             && (victim in c.table || victim == key) && victim !in c'.table
             && other in c'.table
    ensures LastUse(ops + [Set(key, value)], victim) < LastUse(ops + [Set(key, value)], other)
  {
    var more := ops + [Op<K, V>.Set(key, value)];
    assert Front(more) == ops;
    var c := Run(Empty<K, V>(), capacity, ops);
    var full := Inserted(c, key, value);
    RunKeepsValid(Empty<K, V>(), capacity, ops);
    OrderedByLastUse(capacity, ops);
    InsertedValid(c, key, value);
    UsedByLastUse(c.order, key, more);
    FirstIsOldest(full.order, more, other);
  }

  // ----- retention -----

  /** The keys used more recently than `key`. */
  function Newer<K(==)>(order: seq<K>, key: K): set<K>
  {
    if order == [] || Last(order) == key then {} else Newer(Front(order), key) + {Last(order)}
  }

  lemma {:induction false} NewerKeep<K>(order: seq<K>, wanted: set<K>, key: K)
    requires NoRepeats(order) && key in wanted && key in Elements(order)
    ensures Newer(Keep(order, wanted), key) == Newer(order, key) * wanted
  {
    if Last(order) != key {
      NewerKeep(Front(order), wanted, key);
      KeepLast(Keep(Front(order), wanted), Last(order), wanted);
      if Last(order) !in wanted {
        assert Keep(order, wanted) == Keep(Front(order), wanted);
      }
    } else {
      KeepLast(Keep(Front(order), wanted), key, wanted);
    }
  }

  lemma {:induction false} NewerWithin<K>(order: seq<K>, key: K)
    requires NoRepeats(order) && key in Elements(order)
    ensures Newer(order, key) <= Elements(order) - {key}
    ensures key == order[0] ==> Newer(order, key) == Elements(order) - {key}
    ensures key != order[0] ==> order[0] !in Newer(order, key)
  {
    if |order| == 1 {
      assert Front(order) == [];
    } else if Last(order) != key {
      NewerWithin(Front(order), key);
      DropFirst(Front(order));
    } else {
      DropFirst(Front(order));
    }
  }

  /** The other keys a trace touches in any way. */
  function Others<K(==), V>(ops: seq<Op<K, V>>, key: K): set<K>
  {
    if ops == [] then {} else Others(Front(ops), key) + ({Last(ops).key} - {key})
  }

  /** The value of `key` after the trace, if it was `value` before and is never invalidated. */
  function LastSet<K(==), V>(ops: seq<Op<K, V>>, key: K, value: V): V
  {
    if ops == [] then value
    else if Last(ops).Set? && Last(ops).key == key then Last(ops).value
    else LastSet(Front(ops), key, value)
  }

  predicate NeverInvalidates<K(==), V>(ops: seq<Op<K, V>>, key: K)
  {
    ops != [] ==> !(Last(ops).Invalidate? && Last(ops).key == key) && NeverInvalidates(Front(ops), key)
  }

  lemma MovedNewer<K>(order: seq<K>, key: K, used: K)
    requires NoRepeats(order) && key in Elements(order)
    ensures Newer(Without(order, used) + [used], key)
         == if used == key then {} else Newer(order, key) + {used}
  {
    KeepLast(Without(order, used), used, {});
    if used != key {
      NewerKeep(order, Elements(order) - {used}, key);
      NewerWithin(order, key);
    }
  }

  lemma OldestHasAllNewer<K, V>(c: Lru<K, V>, key: K)
    requires Valid(c) && key in c.table
    ensures c.order != [] && (c.order[0] == key ==> |Newer(c.order, key)| + 1 == |c.table|)
  {
    NewerWithin(c.order, key);
    if c.order[0] == key {
      assert c.table.Keys == Newer(c.order, key) + {key};
      assert |c.table.Keys| == |Newer(c.order, key)| + 1;
    }
  }

  /** A key with fewer than `capacity` newer ones is not the oldest of a cache that runs over. */
  lemma EvictionSpares<K, V>(full: Lru<K, V>, capacity: int, key: K, newer: set<K>)
    requires Valid(full) && |full.table| > capacity && key in full.table
    requires Newer(full.order, key) <= newer && |newer| < capacity
    ensures full.order != []
    ensures key in Evicted(full).table && Evicted(full).table[key] == full.table[key]
    ensures Newer(Evicted(full).order, key) <= newer
  {
    NewerWithin(full.order, key);
    DropFirst(full.order);
    SubsetCardinality(Newer(full.order, key), newer);
    OldestHasAllNewer(full, key);
    if full.order[0] != key {
      NewerKeep(full.order, Elements(full.order) - {full.order[0]}, key);
    }
  }

  /** A new key, or `key` itself, is put at the end. */
  lemma InsertRetains<K, V>(c: Lru<K, V>, capacity: int, key: K, used: K, value: V, newer: set<K>)
    requires Valid(c) && key in c.table && Newer(c.order, key) <= newer && |newer + ({used} - {key})| < capacity
    ensures var c' := AfterSet(c, capacity, used, value);
            && key in c'.table
            && c'.table[key] == (if used == key then value else c.table[key])
            && Newer(c'.order, key) <= newer + ({used} - {key})
  {
    var full := Inserted(c, used, value);
    InsertedValid(c, used, value);
    MovedNewer(c.order, key, used);
    if |full.table| > capacity {
      EvictionSpares(full, capacity, key, newer + ({used} - {key}));
    }
  }

  lemma StepRetains<K, V>(c: Lru<K, V>, capacity: int, key: K, op: Op<K, V>, newer: set<K>)
    requires Valid(c) && key in c.table && Newer(c.order, key) <= newer
    requires |newer + ({op.key} - {key})| < capacity && !(op.Invalidate? && op.key == key)
    ensures var c' := Step(c, capacity, op);
            && key in c'.table
            && c'.table[key] == (if op.Set? && op.key == key then op.value else c.table[key])
            && Newer(c'.order, key) <= newer + ({op.key} - {key})
  {
    match op
    case Get(k) => if k in c.table { MovedNewer(c.order, key, k); }
    case Set(k, v) => InsertRetains(c, capacity, key, k, v, newer);
    case Invalidate(k) => NewerKeep(c.order, Elements(c.order) - {k}, key);
  }

  /** Right after a set or a hit on `key`, any trace that does not invalidate it and touches fewer than
      `capacity` other keys leaves it in the cache, with the value last set. */
  lemma {:induction false} Retention<K, V>(c: Lru<K, V>, capacity: int, ops: seq<Op<K, V>>, key: K)
    requires Valid(c) && key in c.table && Newer(c.order, key) == {}
    requires NeverInvalidates(ops, key) && |Others(ops, key)| < capacity
    ensures Valid(Run(c, capacity, ops))
    ensures key in Run(c, capacity, ops).table
    ensures Run(c, capacity, ops).table[key] == LastSet(ops, key, c.table[key])
    ensures Newer(Run(c, capacity, ops).order, key) <= Others(ops, key)
  {
    if ops != [] {
      SubsetCardinality(Others(Front(ops), key), Others(ops, key));
      Retention(c, capacity, Front(ops), key);
      StepRetains(Run(c, capacity, Front(ops)), capacity, key, Last(ops), Others(Front(ops), key));
      StepKeepsValid(Run(c, capacity, Front(ops)), capacity, Last(ops));
    }
  }

  /** A set with a positive capacity, and a hit, make their key the newest one. */
  lemma UsedIsNewest<K, V>(c: Lru<K, V>, capacity: int, op: Op<K, V>)
    requires Valid(c) && capacity >= 1 && !op.Invalidate? && (op.Get? ==> op.key in c.table)
    ensures var c' := Step(c, capacity, op);
            && Valid(c') && op.key in c'.table && Newer(c'.order, op.key) == {}
            && c'.table[op.key] == if op.Set? then op.value else c.table[op.key]
  {
    StepKeepsValid(c, capacity, op);
    KeepLast(Without(c.order, op.key), op.key, {});
    if op.Set? {
      var full := Inserted(c, op.key, op.value);
      InsertedValid(c, op.key, op.value);
      if |full.table| > capacity {
        DropFirst(full.order);
        DistinctLength(full.order);
        assert full.order[1..] != [] && Last(full.order[1..]) == op.key;
        NewestStays(full.order);
      }
    }
  }

  lemma NewestStays<K>(order: seq<K>)
    requires NoRepeats(order) && |order| >= 2
    ensures Last(order) != order[0]
  {
    DropFirst(Front(order));
  }

  predicate SetsOfOthers<K(==), V>(ops: seq<Op<K, V>>, key: K)
  {
    ops != [] ==> Last(ops).Set? && Last(ops).key != key && SetsOfOthers(Front(ops), key)
  }

  lemma {:induction false} SetsOfOthersNeverInvalidate<K, V>(ops: seq<Op<K, V>>, key: K)
    requires SetsOfOthers(ops, key)
    ensures NeverInvalidates(ops, key)
  {
    if ops != [] {
      SetsOfOthersNeverInvalidate(Front(ops), key);
    }
  }

  /** While `key` stays, every other key set since is newer than it. */
  lemma {:induction false} OthersAreNewer<K, V>(c: Lru<K, V>, capacity: int, ops: seq<Op<K, V>>, key: K)
    requires Valid(c) && key in c.table && Newer(c.order, key) == {} && SetsOfOthers(ops, key)
    ensures Valid(Run(c, capacity, ops))
    ensures key in Run(c, capacity, ops).table ==> Newer(Run(c, capacity, ops).order, key) == Others(ops, key)
  {
    if ops != [] {
      OthersAreNewer(c, capacity, Front(ops), key);
      var c1 := Run(c, capacity, Front(ops));
      StepKeepsValid(c1, capacity, Last(ops));
      if key in Run(c, capacity, ops).table {
        OneMoreNewer(c1, capacity, key, Last(ops).key, Last(ops).value);
      }
    }
  }

  lemma OneMoreNewer<K, V>(c: Lru<K, V>, capacity: int, key: K, used: K, value: V)
    requires Valid(c) && used != key && key in AfterSet(c, capacity, used, value).table
    ensures key in c.table
    ensures Newer(AfterSet(c, capacity, used, value).order, key) == Newer(c.order, key) + {used}
  {
    var full := Inserted(c, used, value);
    InsertedValid(c, used, value);
    MovedNewer(c.order, key, used);
    if |full.table| > capacity {
      NewerWithin(full.order, key);
      DropFirst(full.order);
      NewerKeep(full.order, Elements(full.order) - {full.order[0]}, key);
    }
  }

  /** The retention bound is exact: after sets of other keys only, the key is still there exactly when
      fewer than `capacity` distinct ones were set. */
  lemma RetentionExactly<K, V>(c: Lru<K, V>, capacity: int, ops: seq<Op<K, V>>, key: K)
    requires Valid(c) && key in c.table && Newer(c.order, key) == {} && SetsOfOthers(ops, key)
    requires |c.table| <= Allowed(capacity)
    ensures key in Run(c, capacity, ops).table <==> |Others(ops, key)| < capacity
  {
    if |Others(ops, key)| < capacity {
      SetsOfOthersNeverInvalidate(ops, key);
      Retention(c, capacity, ops, key);
    } else if key in Run(c, capacity, ops).table {
      OthersAreNewer(c, capacity, ops, key);
      RunKeepsSize(c, capacity, ops);
      TooManyNewer(Run(c, capacity, ops), key);
    }
  }

  lemma TooManyNewer<K, V>(c: Lru<K, V>, key: K)
    requires Valid(c) && key in c.table
    ensures |Newer(c.order, key)| < |c.table|
  {
    NewerWithin(c.order, key);
    SubsetCardinality(Newer(c.order, key), c.table.Keys - {key});
  }

  lemma {:induction false} RunKeepsSize<K, V>(c: Lru<K, V>, capacity: int, ops: seq<Op<K, V>>)
    requires Valid(c) && |c.table| <= Allowed(capacity)
    ensures Valid(Run(c, capacity, ops)) && |Run(c, capacity, ops).table| <= Allowed(capacity)
  {
    if ops != [] {
      RunKeepsSize(c, capacity, Front(ops));
      StepKeepsValid(Run(c, capacity, Front(ops)), capacity, Last(ops));
      StepKeepsSize(Run(c, capacity, Front(ops)), capacity, Last(ops));
    }
  }
}
