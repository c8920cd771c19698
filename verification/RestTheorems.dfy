/** Serial runs come to rest in states from which the concurrent results apply. */
module RestTheorems {
  import opened Inventory
  import opened Records
  import opened HoldSums
  import opened CheckoutServices
  import opened HoldRuns
  import opened HoldInvariants
  import opened AccountingTheorems
  import opened ConcurrentHolds
  import opened ConcurrentTheorems
  import opened OversellTheorems
  import Schedules
  import GuardTheorems

  /** The database with nothing in flight. */
  function AtRest(w: World): Sys
  {
    Sys(w.tiers, w.holds, map[], map[], map[])
  }

  /** After every serial run the counters cover the holds and fit, and every user is within the limit. */
  lemma RunsComeToRest(w: World, ops: seq<Op>, least: int, user: UserId, event: EventId)
    requires Inv(w) && ValidRun(w, ops)
    ensures var s := AtRest(Run(w, ops));
            && GuardTheorems.Ready(s, least) && Schedules.Covered(s) && Fits(s)
            && |ActiveHolds(s.tiers, s.holds, user, event)| <= MAX_HOLDS_PER_USER_PER_EVENT
  {
    RunKeepsInv(w, ops);
    var s := AtRest(Run(w, ops));
    forall t | t in s.tiers
      ensures CLeak(s, t) >= 0 && s.tiers[t].held + s.tiers[t].sold <= s.tiers[t].total
    {
      assert CounterOk(Run(w, ops), t);
    }
  }

  /** After any serial run, releases and sweeps that overlap creates can oversell a tier exactly when it
      has a ticket that is neither sold nor lost to a sweep. */
  lemma OversellAfterRuns(w: World, ops: seq<Op>, t: TierId, least: int)
    requires Inv(w) && ValidRun(w, ops) && t in w.tiers && least <= 1
    ensures t in Run(w, ops).tiers
    ensures (exists s' :: Schedules.Reaches(AtRest(Run(w, ops)), s', least) && Oversold(s', t))
       <==> Run(w, ops).tiers[t].sold + Leak(w, t) + TotalLoss(w, ops, t) < w.tiers[t].total
  {
    AccountingLaw(w, ops, t);
    NoOversell(w, ops, t);
    RunsComeToRest(w, ops, least, 0, 0);
    OversellExactly(AtRest(Run(w, ops)), t, least);
  }

  /** And the documented limit survives exactly when at most one tier of the event can ever hold `least`
      tickets more. */
  lemma LimitAfterRuns(w: World, ops: seq<Op>, user: UserId, event: EventId, least: int)
    requires Inv(w) && ValidRun(w, ops)
    ensures var s := AtRest(Run(w, ops));
            GuardTheorems.LimitHolds(s, user, event, least) <==> |GuardTheorems.OpenTiers(s, event, least)| <= 1
  {
    RunsComeToRest(w, ops, least, user, event);
    GuardTheorems.LimitHoldsExactly(AtRest(Run(w, ops)), user, event, least);
  }
}
