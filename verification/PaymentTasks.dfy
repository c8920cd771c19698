/** The payment-timeout task. */
module PaymentTasks {
  import opened Wrappers
  import opened Inventory
  import opened Records
  import opened Store
  import opened CheckoutServices

  function AfterTimeout(w: World, tok: Token, now: Time): (w': World)
    requires ForeignKeys(w)
    ensures ForeignKeys(w')
  {
    if IsActive(w, tok) && w.holds[tok].IsExpired(now) then AfterRelease(w, tok) else w
  }

  method ReleaseHoldOnPaymentTimeout(s: Store, tok: Token, now: Time) returns (r: Result<Token, HoldError>)
    requires ForeignKeys(s.View())
    modifies s
    ensures s.View() == AfterTimeout(old(s.View()), tok, now)
    ensures r == if ReleaseRaises(old(s.View()), tok) && old(s.holds)[tok].IsExpired(now)
                 then Err(ConstraintViolation) else Ok(tok)
  {
    if tok in s.holds {
      var hold := s.holds[tok];
      if hold.status == Active && hold.IsExpired(now) {
        var released := ReleaseHoldByToken(s, tok);
        if released.Err? {
          return Err(released.error);
        }
      }
    }
    return Ok(tok);
  }
}
