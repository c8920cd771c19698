/** Cached `QuantityAvailable` values, kept at most 30 seconds. */
module AvailabilityCache {
  import opened Wrappers
  import opened Inventory
  import opened Records
  import opened Store

  const AVAILABILITY_TTL := 30

  function Lookup(cache: map<TierId, Cached<int>>, t: TierId, now: Time): Option<int>
  {
    if t in cache && cache[t].Live(now) then Some(cache[t].value) else None
  }

  method GetCachedAvailability(s: Store, t: TierId, now: Time) returns (quantity: Option<int>)
    ensures quantity == Lookup(s.availability, t, now)
  {
    if t in s.availability && s.availability[t].Live(now) {
      quantity := Some(s.availability[t].value);
    } else {
      quantity := None;
    }
  }

  method SetCachedAvailability(s: Store, t: TierId, quantity: nat, now: Time)
    modifies s`availability
    ensures s.availability == old(s.availability)[t := Cached(quantity, now + AVAILABILITY_TTL * SECOND)]
  {
    s.availability := s.availability[t := Cached(quantity, now + AVAILABILITY_TTL * SECOND)];
  }

  method InvalidateAvailability(s: Store, t: TierId)
    modifies s`availability
    ensures s.availability == old(s.availability) - {t}
  {
    s.availability := s.availability - {t};
  }
}
