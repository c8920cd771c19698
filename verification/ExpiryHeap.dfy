/** The sorted set of hold tokens scored by expiry time. */
module ExpiryHeap {
  import opened Inventory
  import opened Records
  import opened Store

  /** Members scored between 0 and `now`, both inclusive. */
  function Due(expiry: map<Token, Time>, now: Time): set<Token>
  {
    set tok | tok in expiry && 0 <= expiry[tok] <= now
  }

  method PushHoldExpiry(s: Store, tok: Token, score: Time)
    modifies s`expiry
    ensures s.expiry == old(s.expiry)[tok := score]
  {
    s.expiry := s.expiry[tok := score];
  }

  /** Range query and range removal in one pipeline. */
  method PopExpiredHolds(s: Store, now: Time) returns (due: set<Token>)
    modifies s`expiry
    ensures due == Due(old(s.expiry), now)
    ensures s.expiry == old(s.expiry) - due
  {
    due := Due(s.expiry, now);
    s.expiry := s.expiry - due;
  }

  method RemoveFromExpirySet(s: Store, tok: Token)
    modifies s`expiry
    ensures s.expiry == old(s.expiry) - {tok}
  {
    s.expiry := s.expiry - {tok};
  }
}
