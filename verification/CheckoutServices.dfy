/** Creating and releasing checkout holds. */
module CheckoutServices {
  import opened Wrappers
  import opened Inventory
  import opened Records
  import opened HoldSums
  import opened Store
  import ExpiryHeap
  import HoldRegistry
  import AvailabilityCache

  const MAX_HOLDS_PER_USER_PER_EVENT := 2
  const HOLD_DURATION: nat := 15 * 60 * SECOND

  datatype HoldError =
    | TierNotFound
    | HoldAbuse
    | InsufficientInventory
    | ConstraintViolation // a database check or unique constraint refused a row

  /** One call of `create_hold`: its arguments, the generated token, and the instants it reads the
      clock (for the expiry, for the registry's time-to-live) and reaches the cache server. */
  datatype CreateCall = CreateCall(
    user: UserId,
    tier: TierId,
    quantity: int,
    token: Token,
    now: Time,
    ttlNow: Time,
    storedAt: Time)

  function CreateRefusal(w: World, c: CreateCall): Option<HoldError>
  {
    if c.tier !in w.tiers then
      Some(TierNotFound)
    else if |ActiveHolds(w.tiers, w.holds, c.user, w.tiers[c.tier].event)| >= MAX_HOLDS_PER_USER_PER_EVENT then
      Some(HoldAbuse)
    else if w.tiers[c.tier].QuantityAvailable() < c.quantity then
      Some(InsufficientInventory)
    else if c.quantity < 0 || c.token in w.holds then
      Some(ConstraintViolation)
    else
      None
  }

  function NewHold(c: CreateCall): CheckoutHold
    requires 0 <= c.quantity
  {
    CheckoutHold(c.user, c.tier, c.quantity, Active, c.now + HOLD_DURATION)
  }

  function NewEntry(c: CreateCall): HoldEntry
    requires 0 <= c.quantity
  {
    HoldEntry(c.tier, c.quantity, c.now + HOLD_DURATION, c.user)
  }

  function AfterCreate(w: World, c: CreateCall): (w': World)
    requires ForeignKeys(w)
    ensures ForeignKeys(w')
  {
    if CreateRefusal(w, c).Some? then w else
    w.(
      holds := w.holds[c.token := NewHold(c)],
      tiers := WithHeld(w.tiers, c.tier, w.tiers[c.tier].held + c.quantity),
      registry := w.registry[c.token := HoldRegistry.Registered(NewEntry(c), c.ttlNow, c.storedAt)],
      expiry := w.expiry[c.token := c.now + HOLD_DURATION],
      availability := w.availability - {c.tier})
  }

  method CreateHold(s: Store, c: CreateCall) returns (r: Result<Token, HoldError>)
    requires ForeignKeys(s.View())
    modifies s
    ensures s.View() == AfterCreate(old(s.View()), c)
    ensures r == match CreateRefusal(old(s.View()), c) case Some(e) => Err(e) case None => Ok(c.token)
  {
    if c.tier !in s.tiers {
      return Err(TierNotFound);
    }
    var tier := s.tiers[c.tier];
    var activeHolds := |ActiveHolds(s.tiers, s.holds, c.user, tier.event)|;
    if activeHolds >= MAX_HOLDS_PER_USER_PER_EVENT {
      return Err(HoldAbuse);
    }
    if tier.QuantityAvailable() < c.quantity {
      return Err(InsufficientInventory);
    }
    if c.quantity < 0 || c.token in s.holds {
      return Err(ConstraintViolation);
    }
    WriteHold(s, c);
    return Ok(c.token);
  }

  /** All checks are passed: the row, the counter, and what follows them. */
  method WriteHold(s: Store, c: CreateCall)
    requires ForeignKeys(s.View()) && CreateRefusal(s.View(), c).None?
    modifies s
    ensures s.View() == AfterCreate(old(s.View()), c)
  {
    var tier := s.tiers[c.tier];
    var expiresAt := c.now + HOLD_DURATION;
    s.holds := s.holds[c.token := CheckoutHold(c.user, c.tier, c.quantity, Active, expiresAt)];
    s.tiers := WithHeld(s.tiers, c.tier, tier.held + c.quantity);
    PublishHold(s, c, expiresAt);
  }

  /** The registry, the expiry set and the cached availability follow the new row. */
  method PublishHold(s: Store, c: CreateCall, expiresAt: Time)
    requires 0 <= c.quantity
    modifies s`registry, s`expiry, s`availability
    ensures var entry := HoldEntry(c.tier, c.quantity, expiresAt, c.user);
            s.registry == old(s.registry)[c.token := HoldRegistry.Registered(entry, c.ttlNow, c.storedAt)]
    ensures s.expiry == old(s.expiry)[c.token := expiresAt]
    ensures s.availability == old(s.availability) - {c.tier}
  {
    var entry := HoldEntry(c.tier, c.quantity, expiresAt, c.user);
    HoldRegistry.RegisterHold(s, c.token, entry, c.ttlNow, c.storedAt);
    ExpiryHeap.PushHoldExpiry(s, c.token, expiresAt);
    AvailabilityCache.InvalidateAvailability(s, c.tier);
  }

  /** A hold leaves ACTIVE: its status, its tier's counter, its registry entry and the cached
      availability of its tier change together.  `held` is the counter value the caller computed. */
  function Restored(w: World, tok: Token, status: HoldStatus, held: nat): (w': World)
    requires ForeignKeys(w) && tok in w.holds
    ensures ForeignKeys(w')
  {
    var t := w.holds[tok].tier;
    w.(
      holds := WithStatus(w.holds, tok, status),
      tiers := WithHeld(w.tiers, t, held),
      registry := w.registry - {tok},
      availability := w.availability - {t})
  }

  predicate IsActive(w: World, tok: Token)
  {
    tok in w.holds && w.holds[tok].status == Active
  }

  /** The counter a release writes, from the tier row it has just read. */
  function HeldAfterRelease(w: World, tok: Token): int
    requires ForeignKeys(w) && tok in w.holds
  {
    w.tiers[w.holds[tok].tier].held - w.holds[tok].quantity
  }

  predicate ReleaseRaises(w: World, tok: Token)
    requires ForeignKeys(w)
  {
    IsActive(w, tok) && HeldAfterRelease(w, tok) < 0
  }

  function AfterRelease(w: World, tok: Token): (w': World)
    requires ForeignKeys(w)
    ensures ForeignKeys(w')
  {
    if IsActive(w, tok) && !ReleaseRaises(w, tok)
    then Restored(w, tok, Released, HeldAfterRelease(w, tok))
    else w
  }

  /** The three writes that follow a status change, in the release and in the sweep alike. */
  method RestoreInventory(s: Store, tok: Token, t: TierId, held: nat)
    requires t in s.tiers
    modifies s`tiers, s`registry, s`availability
    ensures s.tiers == WithHeld(old(s.tiers), t, held)
    ensures s.registry == old(s.registry) - {tok}
    ensures s.availability == old(s.availability) - {t}
  {
    s.tiers := WithHeld(s.tiers, t, held);
    HoldRegistry.ReleaseHold(s, tok);
    AvailabilityCache.InvalidateAvailability(s, t);
  }

  method ReleaseHoldByToken(s: Store, tok: Token) returns (r: Result<(), HoldError>)
    requires ForeignKeys(s.View())
    modifies s
    ensures s.View() == AfterRelease(old(s.View()), tok)
    ensures r == if ReleaseRaises(old(s.View()), tok) then Err(ConstraintViolation) else Ok(())
  {
    if tok !in s.holds || s.holds[tok].status != Active {
      return Ok(());
    }
    var savedHolds := s.holds;
    var hold := s.holds[tok];
    s.holds := WithStatus(s.holds, tok, Released);
    var held := s.tiers[hold.tier].held - hold.quantity;
    if held < 0 {
      s.holds := savedHolds; // the transaction rolls back
      return Err(ConstraintViolation);
    }
    RestoreInventory(s, tok, hold.tier, held);
    return Ok(());
  }
}
