/** The request limiter: a counter per key in the shared cache, opened by the first admitted request. */
module RateLimiter {

  /** A stored count and the instant it expires. */
  datatype Counter = Counter(count: int, deadline: int)

  type Counters = map<string, Counter>

  function Key(scope: string, identifier: string): string
  {
    "rate:" + scope + ":" + identifier
  }

  /** `cache.get(key, 0)`: an expired counter reads as absent. */
  function CountAt(counters: Counters, key: string, now: int): int
  {
    if key in counters && now < counters[key].deadline then counters[key].count else 0
  }

  predicate Admits(counters: Counters, key: string, limit: int, now: int)
  {
    CountAt(counters, key, now) < limit
  }

  /** The first admitted request sets the counter with a fresh deadline; further ones keep the deadline;
      a refused request changes nothing. */
  function AfterRequest(counters: Counters, key: string, limit: int, window: int, now: int): Counters
  {
    var count := CountAt(counters, key, now);
    if count >= limit then counters
    else if count == 0 then counters[key := Counter(1, now + window)]
    else counters[key := counters[key].(count := count + 1)]
  }

  class SharedCache {
    var counters: Counters

    constructor ()
      ensures counters == map[]
    {
      counters := map[];
    }
  }

  class RateLimiter {
    const cache: SharedCache
    const scope: string
    const limit: int
    const window: int

    constructor (cache: SharedCache, scope: string, limit: int, window: int)
      ensures this.cache == cache && this.scope == scope && this.limit == limit && this.window == window
    {
      this.cache, this.scope, this.limit, this.window := cache, scope, limit, window;
    }

    method IsAllowed(identifier: string, now: int) returns (allowed: bool, count: int)
      modifies cache
      ensures allowed == Admits(old(cache.counters), Key(scope, identifier), limit, now)
      ensures cache.counters == AfterRequest(old(cache.counters), Key(scope, identifier), limit, window, now)
      ensures count == CountAt(old(cache.counters), Key(scope, identifier), now) + (if allowed then 1 else 0)
    {
      var key := Key(scope, identifier);
      count := CountAt(cache.counters, key, now);
      if count >= limit {
        return false, count;
      }
      if count == 0 {
        cache.counters := cache.counters[key := Counter(1, now + window)];
        return true, 1;
      }
      count := cache.counters[key].count + 1;
      cache.counters := cache.counters[key := cache.counters[key].(count := count)];
      return true, count;
    }

    method Remaining(identifier: string, now: int) returns (n: nat)
      ensures n == Left(cache.counters, Key(scope, identifier), limit, now)
    {
      var count := CountAt(cache.counters, Key(scope, identifier), now);
      n := if limit - count > 0 then limit - count else 0;
    }
  }

  function Left(counters: Counters, key: string, limit: int, now: int): nat
  {
    if Admits(counters, key, limit, now) then limit - CountAt(counters, key, now) else 0
  }

  // ----- keys of different limiters -----

  function BeforeColon(key: string): string
  {
    if key == [] || key[0] == ':' then [] else [key[0]] + BeforeColon(key[1..])
  }

  lemma {:induction false} ScopeReadBack(scope: string, identifier: string)
    requires ':' !in scope
    ensures BeforeColon(scope + ":" + identifier) == scope
    ensures (scope + ":" + identifier)[|scope| + 1..] == identifier
  {
    if scope != [] {
      ScopeReadBack(scope[1..], identifier);
      assert (scope + ":" + identifier)[1..] == scope[1..] + ":" + identifier;
    }
  }

  lemma DocumentedKey()
    ensures Key("checkout", "ip:1.2.3.4") == "rate:checkout:ip:1.2.3.4"
  {}

  /** Limiters whose scopes contain no colon never share a counter, whatever the identifiers. */
  lemma KeysApart(scope: string, scope': string, identifier: string, identifier': string)
    requires ':' !in scope && ':' !in scope'
    ensures Key(scope, identifier) == Key(scope', identifier') <==> scope == scope' && identifier == identifier'
  {
    if Key(scope, identifier) == Key(scope', identifier') {
      assert Key(scope, identifier)[5..] == scope + ":" + identifier;
      assert Key(scope', identifier')[5..] == scope' + ":" + identifier';
      ScopeReadBack(scope, identifier);
      ScopeReadBack(scope', identifier');
    }
  }
}
