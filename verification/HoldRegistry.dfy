/** The token-to-metadata read cache with a time-to-live. */
module HoldRegistry {
  import opened Wrappers
  import opened Inventory
  import opened Records
  import opened Store

  const HOLD_TTL_BUFFER := 60

  /** `int(delta.total_seconds())`: truncation towards zero, unlike Dafny's division. */
  function WholeSeconds(delta: int): int
  {
    if delta >= 0 then delta / SECOND else -((-delta) / SECOND)
  }

  function Ttl(expiresAt: Time, now: Time): nat
  {
    var seconds := WholeSeconds(expiresAt - now) + HOLD_TTL_BUFFER;
    if seconds < 1 then 1 else seconds
  }

  /** What Redis keeps: the entry and the instant its time-to-live, counted from `storedAt`, runs out. */
  function Registered(entry: HoldEntry, now: Time, storedAt: Time): Cached<HoldEntry>
  {
    Cached(entry, storedAt + Ttl(entry.expiresAt, now) * SECOND)
  }

  /** The entry outlives the hold by more than 59 seconds however late it is written, and by at most
      60 seconds when it is written without delay before the hold expires. */
  lemma EntryOutlivesHold(entry: HoldEntry, now: Time, storedAt: Time)
    requires now <= storedAt
    ensures Registered(entry, now, storedAt).deadline > entry.expiresAt + 59 * SECOND
    ensures now == storedAt <= entry.expiresAt ==>
              Registered(entry, now, storedAt).deadline <= entry.expiresAt + 60 * SECOND
  {
    var delta := entry.expiresAt - now;
    var whole := WholeSeconds(delta);
    assert whole * SECOND > delta - SECOND;
    assert delta >= 0 ==> whole * SECOND <= delta;
  }

  /** The time-to-live in whole seconds: sixty more than the seconds left, truncated towards zero, and
      never less than one. */
  lemma TimeToLiveExactly(expiresAt: Time, now: Time)
    ensures var left, n := expiresAt - now, Ttl(expiresAt, now);
            && (left >= 0 ==> (n - 60) * SECOND <= left < (n - 59) * SECOND)
            && (-59 * SECOND < left < 0 ==> (n - 61) * SECOND < left <= (n - 60) * SECOND)
            && (left <= -59 * SECOND ==> n == 1)
  {}

  method RegisterHold(s: Store, tok: Token, entry: HoldEntry, now: Time, storedAt: Time)
    modifies s`registry
    ensures s.registry == old(s.registry)[tok := Registered(entry, now, storedAt)]
  {
    var seconds := WholeSeconds(entry.expiresAt - now) + HOLD_TTL_BUFFER;
    var ttl := if seconds < 1 then 1 else seconds;
    s.registry := s.registry[tok := Cached(entry, storedAt + ttl * SECOND)];
  }

  method GetHold(s: Store, tok: Token, now: Time) returns (entry: Option<HoldEntry>)
    ensures entry == Lookup(s.registry, tok, now)
  {
    if tok in s.registry && s.registry[tok].Live(now) {
      entry := Some(s.registry[tok].value);
    } else {
      entry := None;
    }
  }

  function Lookup(registry: map<Token, Cached<HoldEntry>>, tok: Token, now: Time): Option<HoldEntry>
  {
    if tok in registry && registry[tok].Live(now) then Some(registry[tok].value) else None
  }

  method ReleaseHold(s: Store, tok: Token)
    modifies s`registry
    ensures s.registry == old(s.registry) - {tok}
  {
    s.registry := s.registry - {tok};
  }
}
