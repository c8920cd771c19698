/** The in-process cache of hot events: an ordered dictionary, oldest use first. */
module LruCache {
  import opened Wrappers
  import opened Sequences

  /** The ordered dictionary: keys in recency order, and their values. */
  datatype Lru<K, V> = Lru(order: seq<K>, table: map<K, V>)

  ghost predicate Valid<K, V>(c: Lru<K, V>)
  {
    NoRepeats(c.order) && Elements(c.order) == c.table.Keys
  }

  function Empty<K, V>(): Lru<K, V>
  {
    Lru([], map[])
  }

  function Without<K(==)>(order: seq<K>, key: K): seq<K>
  {
    Keep(order, Elements(order) - {key})
  }

  function AfterGet<K(==), V>(c: Lru<K, V>, key: K): Lru<K, V>
  {
    if key in c.table then Lru(Without(c.order, key) + [key], c.table) else c
  }

  /** Before any eviction. */
  function Inserted<K(==), V>(c: Lru<K, V>, key: K, value: V): Lru<K, V>
  {
    Lru(Without(c.order, key) + [key], c.table[key := value])
  }

  function Evicted<K(==), V>(c: Lru<K, V>): Lru<K, V>
    requires c.order != []
  {
    Lru(c.order[1..], c.table - {c.order[0]})
  }

  function AfterSet<K(==), V>(c: Lru<K, V>, capacity: int, key: K, value: V): Lru<K, V>
  {
    var full := Inserted(c, key, value);
    if |full.table| > capacity then Evicted(full) else full
  }

  function AfterInvalidate<K(==), V>(c: Lru<K, V>, key: K): Lru<K, V>
  {
    Lru(Without(c.order, key), c.table - {key})
  }

  lemma WithoutEffect<K>(order: seq<K>, key: K)
    requires NoRepeats(order)
    ensures Elements(Without(order, key)) == Elements(order) - {key}
    ensures NoRepeats(Without(order, key)) && NoRepeats(Without(order, key) + [key])
    ensures Elements(Without(order, key) + [key]) == Elements(order) + {key}
    ensures key !in Elements(order) ==> Without(order, key) == order
  {
    KeepElements(order, Elements(order) - {key});
    KeepLast(Without(order, key), key, {});
    if key !in Elements(order) {
      KeepAll(order, Elements(order) - {key});
    }
  }

  lemma GetKeepsValid<K, V>(c: Lru<K, V>, key: K)
    requires Valid(c)
    ensures Valid(AfterGet(c, key))
  {
    WithoutEffect(c.order, key);
  }

  lemma InsertedValid<K, V>(c: Lru<K, V>, key: K, value: V)
    requires Valid(c)
    ensures Valid(Inserted(c, key, value))
  {
    WithoutEffect(c.order, key);
  }

  lemma EvictedValid<K, V>(c: Lru<K, V>)
    requires Valid(c) && c.order != []
    ensures Valid(Evicted(c)) && |Evicted(c).table| == |c.table| - 1
  {
    DropFirst(c.order);
    KeepElements(c.order, Elements(c.order) - {c.order[0]});
    assert Evicted(c).table.Keys == c.table.Keys - {c.order[0]};
  }

  lemma SetKeepsValid<K, V>(c: Lru<K, V>, capacity: int, key: K, value: V)
    requires Valid(c)
    ensures Valid(AfterSet(c, capacity, key, value))
  {
    InsertedValid(c, key, value);
    if |Inserted(c, key, value).table| > capacity {
      EvictedValid(Inserted(c, key, value));
    }
  }

  lemma InvalidateKeepsValid<K, V>(c: Lru<K, V>, key: K)
    requires Valid(c)
    ensures Valid(AfterInvalidate(c, key))
  {
    WithoutEffect(c.order, key);
  }

  class LRUCache<K(==), V> {
    const capacity: int
    var order: seq<K>
    var table: map<K, V>

    constructor (capacity: int)
      ensures this.capacity == capacity && View() == Empty()
    {
      this.capacity := capacity;
      order, table := [], map[];
    }

    ghost function View(): Lru<K, V>
      reads this
    {
      Lru(order, table)
    }

    method MoveToEnd(key: K)
      requires key in table
      modifies `order
      ensures order == Without(old(order), key) + [key]
    {
      order := Without(order, key) + [key];
    }

    method PopFirst()
      requires order != []
      modifies this
      ensures View() == Evicted(old(View()))
    {
      table := table - {order[0]};
      order := order[1..];
    }

    method Get(key: K) returns (value: Option<V>)
      requires Valid(View())
      modifies this
      ensures Valid(View()) && View() == AfterGet(old(View()), key)
      ensures value == if key in old(table) then Some(old(table)[key]) else None
    {
      GetKeepsValid(View(), key);
      if key !in table {
        return None;
      }
      MoveToEnd(key);
      return Some(table[key]);
    }

    method Set(key: K, value: V)
      requires Valid(View())
      modifies this
      ensures Valid(View()) && View() == AfterSet(old(View()), capacity, key, value)
    {
      SetKeepsValid(View(), capacity, key, value);
      WithoutEffect(order, key);
      if key in table {
        MoveToEnd(key);
      } else {
        order := order + [key];
      }
      table := table[key := value];
      if |table| > capacity {
        PopFirst();
      }
    }

    method Invalidate(key: K)
      requires Valid(View())
      modifies this
      ensures Valid(View()) && View() == AfterInvalidate(old(View()), key)
    {
      InvalidateKeepsValid(View(), key);
      WithoutEffect(order, key);
      if key in table {
        order := Without(order, key);
        table := table - {key};
      } else {
        assert table - {key} == table;
      }
    }

    method Len() returns (n: nat)
      requires Valid(View())
      ensures n == |order|
    {
      DistinctLength(order);
      n := |table|;
    }
  }
}
