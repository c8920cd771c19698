/** Building interleavings: which states can be reached when every create asks for at least so many tickets. */
module Schedules {
  import opened Sequences
  import opened Records
  import opened HoldSums
  import opened CheckoutServices
  import opened ConcurrentHolds
  import opened ConcurrentTheorems

  ghost predicate Reaches(s: Sys, s': Sys, least: int)
  {
    exists steps :: Interleaving(s, steps) && BeginsAtLeast(steps, least) && CRun(s, steps) == s'
  }

  lemma ReachesSelf(s: Sys, least: int)
    ensures Reaches(s, s, least)
  {
    assert Interleaving(s, []) && BeginsAtLeast([], least) && CRun(s, []) == s;
  }

  lemma ReachesStep(s: Sys, s1: Sys, step: CStep, least: int)
    requires Reaches(s, s1, least) && CEnabled(s1, step) && (step.Begin? ==> step.quantity >= least)
    ensures Reaches(s, CNext(s1, step), least)
  {
    var steps :| Interleaving(s, steps) && BeginsAtLeast(steps, least) && CRun(s, steps) == s1;
    var more := steps + [step];
    assert Front(more) == steps && Last(more) == step;
    assert Interleaving(s, more) && BeginsAtLeast(more, least) && CRun(s, more) == CNext(s1, step);
  }

  /** No create in flight. */
  predicate Quiet(s: Sys)
  {
    s.txns == map[] && s.locks == map[]
  }

  /** Every counter covers the committed ACTIVE holds, as it does after every serial run. */
  ghost predicate Covered(s: Sys)
  {
    forall t :: t in s.tiers ==> CLeak(s, t) >= 0
  }

  /** No counter is closer to the ACTIVE holds than it was, or further from them. */
  ghost predicate SameLeaks(s: Sys, s': Sys)
  {
    s'.tiers.Keys == s.tiers.Keys && forall t :: t in s.tiers ==> CLeak(s', t) == CLeak(s, t)
  }

  lemma SameLeaksTwice(a: Sys, b: Sys, c: Sys)
    requires SameLeaks(a, b) && SameLeaks(b, c)
    ensures SameLeaks(a, c)
  {
    forall t | t in a.tiers
      ensures CLeak(c, t) == CLeak(a, t)
    {
      assert CLeak(b, t) == CLeak(a, t);
    }
  }

  predicate TiersKnown(s: Sys)
  {
    forall tok :: tok in s.holds ==> s.holds[tok].tier in s.tiers
  }

  // ----- fresh identifiers -----

  lemma {:induction false} FreshToken(used: set<Token>) returns (tok: Token)
    ensures tok !in used
    ensures forall x :: x in used ==> x < tok
    decreases |used|
  {
    if used == {} {
      tok := 0;
    } else {
      var x :| x in used;
      var bound := FreshToken(used - {x});
      assert forall y :: y in used ==> y == x || y in used - {x};
      tok := if bound <= x then x + 1 else bound;
    }
  }

  lemma {:induction false} FreshTxnId(used: set<TxnId>) returns (id: TxnId)
    ensures id !in used
    ensures forall x :: x in used ==> x < id
    decreases |used|
  {
    if used == {} {
      id := 0;
    } else {
      var x :| x in used;
      var bound := FreshTxnId(used - {x});
      assert forall y :: y in used ==> y == x || y in used - {x};
      id := if bound <= x then x + 1 else bound;
    }
  }

  lemma {:induction false} FreshUserId(used: set<UserId>) returns (user: UserId)
    ensures user !in used
    ensures forall x :: x in used ==> x < user
    decreases |used|
  {
    if used == {} {
      user := 0;
    } else {
      var x :| x in used;
      var bound := FreshUserId(used - {x});
      assert forall y :: y in used ==> y == x || y in used - {x};
      user := if bound <= x then x + 1 else bound;
    }
  }

  /** A user without any hold passes every abuse guard. */
  lemma FreshUser(tiers: Tiers, holds: Holds) returns (user: UserId)
    ensures forall event :: ActiveHolds(tiers, holds, user, event) == {}
  {
    var users := set tok | tok in holds :: holds[tok].user;
    user := FreshUserId(users);
    assert forall tok :: tok in holds ==> holds[tok].user in users;
    assert forall tok :: tok in holds ==> holds[tok].user != user;
  }

  // ----- one create -----

  /** `s` with one more create in flight, holding its tier's lock and the row it locked. */
  function With(s: Sys, id: TxnId, x: Txn): Sys
  {
    s.(locks := s.locks[x.tier := id], txns := s.txns[id := x])
  }

  function Request(s: Sys, user: UserId, t: TierId, quantity: int, tok: Token, phase: Phase): Txn
    requires t in s.tiers
  {
    Txn(user, t, quantity, tok, 0, phase, s.tiers[t])
  }

  lemma Begins(s0: Sys, s: Sys, id: TxnId, x: Txn, least: int)
    requires Reaches(s0, s, least) && id !in s.txns && x.tier in s.tiers && x.quantity >= least
    requires x.phase == Waiting && x.row == s.tiers[x.tier]
    ensures Reaches(s0, s.(txns := s.txns[id := x]), least)
  {
    ReachesStep(s0, s, Begin(id, x.user, x.tier, x.quantity, x.token, x.expiresAt), least);
  }

  lemma LockedNext(s: Sys, id: TxnId, x: Txn)
    requires x.phase == Waiting && x.tier in s.tiers && x.tier !in s.locks && x.row == s.tiers[x.tier]
    ensures CEnabled(s.(txns := s.txns[id := x]), Lock(id))
    ensures CNext(s.(txns := s.txns[id := x]), Lock(id)) == With(s, id, x.(phase := Locked))
  {
    assert s.txns[id := x][id := x.(phase := Locked)] == s.txns[id := x.(phase := Locked)];
  }

  lemma NextPhase(s: Sys, id: TxnId, x: Txn, phase: Phase)
    ensures AtPhase(With(s, id, x), id, phase) == With(s, id, x.(phase := phase))
  {
    assert s.txns[id := x][id := x.(phase := phase)] == s.txns[id := x.(phase := phase)];
  }

  lemma PassesGuard(s0: Sys, s: Sys, id: TxnId, x: Txn, least: int)
    requires Reaches(s0, With(s, id, x), least) && x.phase == Locked
    requires |ActiveHolds(s.tiers, s.holds, x.user, x.row.event)| < MAX_HOLDS_PER_USER_PER_EVENT
    ensures Reaches(s0, With(s, id, x.(phase := Guarded)), least)
  {
    ReachesStep(s0, With(s, id, x), Guard(id), least);
    NextPhase(s, id, x, Guarded);
  }

  lemma PassesStock(s0: Sys, s: Sys, id: TxnId, x: Txn, least: int)
    requires Reaches(s0, With(s, id, x), least) && x.phase == Guarded && x.quantity <= x.row.QuantityAvailable()
    ensures Reaches(s0, With(s, id, x.(phase := Stocked)), least)
  {
    ReachesStep(s0, With(s, id, x), CheckStock(id), least);
    NextPhase(s, id, x, Stocked);
  }

  /** A create that meets the guard's and the stock check's conditions passes both. */
  lemma PassesBothChecks(s0: Sys, s: Sys, id: TxnId, user: UserId, t: TierId, quantity: int, tok: Token, least: int)
    requires Reaches(s0, s, least) && id !in s.txns && t in s.tiers && t !in s.locks
    requires least <= quantity <= s.tiers[t].QuantityAvailable()
    requires |ActiveHolds(s.tiers, s.holds, user, s.tiers[t].event)| < MAX_HOLDS_PER_USER_PER_EVENT
    ensures Reaches(s0, With(s, id, Request(s, user, t, quantity, tok, Stocked)), least)
  {
    var x := Request(s, user, t, quantity, tok, Waiting);
    Begins(s0, s, id, x, least);
    LockedNext(s, id, x);
    ReachesStep(s0, s.(txns := s.txns[id := x]), Lock(id), least);
    PassesGuard(s0, s, id, x.(phase := Locked), least);
    PassesStock(s0, s, id, x.(phase := Guarded), least);
  }

  /** `s` with one more committed hold. */
  function Created(s: Sys, user: UserId, t: TierId, quantity: nat, tok: Token): Sys
    requires t in s.tiers
  {
    s.(
      holds := s.holds[tok := CheckoutHold(user, t, quantity, Active, 0)],
      tiers := WithHeld(s.tiers, t, s.tiers[t].held + quantity))
  }

  lemma CommitCloses(s: Sys, id: TxnId, user: UserId, t: TierId, quantity: nat, tok: Token)
    requires id !in s.txns && t in s.tiers && t !in s.locks
    ensures Committed(With(s, id, Request(s, user, t, quantity, tok, Stocked)), id)
         == Created(s, user, t, quantity, tok)
  {
    assert s.locks[t := id] - {t} == s.locks;
    assert s.txns[id := Request(s, user, t, quantity, tok, Stocked)] - {id} == s.txns;
  }

  /** A create that runs through, from a state where no other create is in flight. */
  lemma CreateRuns(s0: Sys, s: Sys, user: UserId, t: TierId, quantity: nat, least: int) returns (tok: Token)
    requires Reaches(s0, s, least) && Quiet(s) && t in s.tiers
    requires least <= quantity <= s.tiers[t].QuantityAvailable()
    requires |ActiveHolds(s.tiers, s.holds, user, s.tiers[t].event)| < MAX_HOLDS_PER_USER_PER_EVENT
    ensures tok !in s.holds && Reaches(s0, Created(s, user, t, quantity, tok), least)
  {
    tok := FreshToken(s.holds.Keys);
    PassesBothChecks(s0, s, 0, user, t, quantity, tok, least);
    ReachesStep(s0, With(s, 0, Request(s, user, t, quantity, tok, Stocked)), Commit(0), least);
    CommitCloses(s, 0, user, t, quantity, tok);
  }

  // ----- one release -----

  function AfterRead(s: Sys, id: TxnId, tok: Token): Sys
    requires tok in s.holds && s.holds[tok].tier in s.tiers
  {
    s.(restorers := s.restorers[id := Restorer(tok, s.tiers[s.holds[tok].tier].held, false)])
  }

  lemma Reads(s0: Sys, s: Sys, id: TxnId, tok: Token, least: int)
    requires Reaches(s0, s, least) && id !in s.restorers && tok in s.holds
    requires s.holds[tok].status == Active && s.holds[tok].tier in s.tiers
    ensures Reaches(s0, AfterRead(s, id, tok), least)
  {
    ReachesStep(s0, s, Read(id, tok), least);
  }

  /** The counter a restorer leaves behind: what it has seen less the hold's quantity, unless refused. */
  function WrittenBack(tiers: Tiers, h: CheckoutHold, seen: int): Tiers
    requires h.tier in tiers
  {
    if seen - h.quantity < 0 then tiers else WithHeld(tiers, h.tier, seen - h.quantity)
  }

  /** The restorer has saved the status and written the counter. */
  function Ended(s: Sys, id: TxnId, status: HoldStatus): Sys
    requires id in s.restorers && s.restorers[id].token in s.holds && s.holds[s.restorers[id].token].tier in s.tiers
  {
    var r := s.restorers[id];
    s.(
      holds := WithStatus(s.holds, r.token, status),
      tiers := WrittenBack(s.tiers, s.holds[r.token], r.seen),
      restorers := s.restorers - {id})
  }

  lemma LeaveThenWrite(s: Sys, id: TxnId, status: HoldStatus)
    requires status == Released || status == Expired
    requires id in s.restorers && !s.restorers[id].left && s.restorers[id].token in s.holds
    requires s.holds[s.restorers[id].token].tier in s.tiers && s.holds[s.restorers[id].token].tier !in s.locks
    ensures CEnabled(s, Leave(id, status)) && CEnabled(CNext(s, Leave(id, status)), WriteBack(id))
    ensures CNext(CNext(s, Leave(id, status)), WriteBack(id)) == Ended(s, id, status)
  {
    var r := s.restorers[id];
    assert s.restorers[id := r.(left := true)] - {id} == s.restorers - {id};
  }

  lemma Ends(s0: Sys, s: Sys, id: TxnId, status: HoldStatus, least: int)
    requires status == Released || status == Expired
    requires Reaches(s0, s, least) && id in s.restorers && !s.restorers[id].left && s.restorers[id].token in s.holds
    requires s.holds[s.restorers[id].token].tier in s.tiers && s.holds[s.restorers[id].token].tier !in s.locks
    ensures Reaches(s0, Ended(s, id, status), least)
  {
    LeaveThenWrite(s, id, status);
    ReachesStep(s0, s, Leave(id, status), least);
    ReachesStep(s0, CNext(s, Leave(id, status)), WriteBack(id), least);
  }

  /** `s` after a release of `tok` that nothing overlaps. */
  function Given(s: Sys, tok: Token): Sys
    requires tok in s.holds && s.holds[tok].tier in s.tiers
  {
    s.(
      holds := WithStatus(s.holds, tok, Released),
      tiers := WrittenBack(s.tiers, s.holds[tok], s.tiers[s.holds[tok].tier].held))
  }

  lemma ReleaseRuns(s0: Sys, s: Sys, tok: Token, least: int)
    requires Reaches(s0, s, least) && Quiet(s) && tok in s.holds && s.holds[tok].status == Active
    requires s.holds[tok].tier in s.tiers
    ensures Reaches(s0, Given(s, tok), least)
  {
    var id := FreshTxnId(s.restorers.Keys);
    Reads(s0, s, id, tok, least);
    Ends(s0, AfterRead(s, id, tok), id, Released, least);
    assert AfterRead(s, id, tok).restorers - {id} == s.restorers;
  }

  lemma GivenKeepsLeaks(s: Sys, tok: Token)
    requires tok in s.holds && s.holds[tok].status == Active && s.holds[tok].tier in s.tiers && Covered(s)
    ensures SameLeaks(s, Given(s, tok))
  {
    SumQtyAtLeast(s.holds, ActiveOn(s.holds, s.holds[tok].tier), tok);
    OneLeaves(s.holds, tok, Released);
    forall t | t in s.tiers
      ensures CLeak(Given(s, tok), t) == CLeak(s, t)
    {
      ActiveSumAfterOne(s.holds, Given(s, tok).holds, tok, t);
      assert CLeak(s, t) >= 0;
    }
  }

  // ----- releasing everything -----

  function Actives(holds: Holds): set<Token>
  {
    set tok | tok in holds && holds[tok].status == Active
  }

  lemma OneFewerActive(s: Sys, tok: Token)
    requires Quiet(s) && TiersKnown(s) && tok in s.holds && s.holds[tok].status == Active
    ensures Quiet(Given(s, tok)) && TiersKnown(Given(s, tok)) && SameSupply(s.tiers, Given(s, tok).tiers)
    ensures Actives(Given(s, tok).holds) == Actives(s.holds) - {tok}
    ensures |Actives(Given(s, tok).holds)| < |Actives(s.holds)|
  {
    assert Actives(Given(s, tok).holds) == Actives(s.holds) - {tok};
    assert tok in Actives(s.holds);
  }

  lemma SameLeaksCovered(s: Sys, s': Sys)
    requires SameLeaks(s, s') && Covered(s)
    ensures Covered(s')
  {
    forall t | t in s'.tiers
      ensures CLeak(s', t) >= 0
    {
      assert CLeak(s', t) == CLeak(s, t) >= 0;
    }
  }

  /** All ACTIVE holds can be released one after the other; counters that cover them
      keep what they hold beyond them. */
  lemma {:induction false} ReleasesAll(s0: Sys, s: Sys, least: int) returns (s': Sys)
    requires Reaches(s0, s, least) && Quiet(s) && TiersKnown(s)
    ensures Reaches(s0, s', least) && Quiet(s') && TiersKnown(s') && Actives(s'.holds) == {}
    ensures SameSupply(s.tiers, s'.tiers) && (Covered(s) ==> SameLeaks(s, s'))
    decreases |Actives(s.holds)|
  {
    if Actives(s.holds) == {} {
      s' := s;
    } else {
      var tok :| tok in Actives(s.holds);
      ReleaseRuns(s0, s, tok, least);
      OneFewerActive(s, tok);
      s' := ReleasesAll(s0, Given(s, tok), least);
      SameSupplyTwice(s.tiers, Given(s, tok).tiers, s'.tiers);
      if Covered(s) {
        GivenKeepsLeaks(s, tok);
        SameLeaksCovered(s, Given(s, tok));
        SameLeaksTwice(s, Given(s, tok), s');
      }
    }
  }

  /** With no ACTIVE hold left, a counter shows its leak alone and nobody holds anything. */
  lemma NothingActive(s: Sys)
    requires Actives(s.holds) == {}
    ensures forall t :: t in s.tiers ==> ActiveSum(s.holds, t) == 0 && CLeak(s, t) == s.tiers[t].held
    ensures forall user, event :: ActiveHolds(s.tiers, s.holds, user, event) == {}
  {
    forall t | t in s.tiers
      ensures ActiveSum(s.holds, t) == 0
    {
      assert ActiveOn(s.holds, t) <= Actives(s.holds);
    }
    forall user, event
      ensures ActiveHolds(s.tiers, s.holds, user, event) == {}
    {
      assert ActiveHolds(s.tiers, s.holds, user, event) <= Actives(s.holds);
    }
  }

  // ----- a stale writer -----

  /** The restorer `id` waits with a stale counter value, ready to write `held` to tier `t`; the hold it
      read is no longer ACTIVE. */
  predicate Stale(s: Sys, id: TxnId, t: TierId, held: nat)
  {
    && id in s.restorers && !s.restorers[id].left && s.restorers[id].token in s.holds
    && var h := s.holds[s.restorers[id].token];
    && h.tier == t && h.status != Active && s.restorers[id].seen - h.quantity == held
  }

  /** A release and a sweep have both read the same hold. */
  function ReadTwice(s: Sys, release: TxnId, sweep: TxnId, tok: Token): Sys
    requires tok in s.holds && s.holds[tok].tier in s.tiers
  {
    AfterRead(AfterRead(s, release, tok), sweep, tok)
  }

  /** Once the release is through, the sweep is stale. */
  lemma SweepIsStale(s: Sys, user: UserId, t: TierId, quantity: nat, tok: Token, release: TxnId, sweep: TxnId)
    requires t in s.tiers && tok !in s.holds && release !in s.restorers && sweep !in s.restorers && release != sweep
    ensures var s' := Ended(ReadTwice(Created(s, user, t, quantity, tok), release, sweep, tok), release, Released);
            && s'.tiers == s.tiers && s'.txns == s.txns && s'.locks == s.locks
            && Stale(s', sweep, t, s.tiers[t].held)
            && s'.holds == s.holds[tok := CheckoutHold(user, t, quantity, Released, 0)]
  {
    assert WithHeld(WithHeld(s.tiers, t, s.tiers[t].held + quantity), t, s.tiers[t].held) == s.tiers;
  }

  lemma ReleasedIsNotActive(holds: Holds, tok: Token, h: CheckoutHold)
    requires tok !in holds && h.status != Active
    ensures Actives(holds[tok := h]) == Actives(holds)
    ensures forall t :: ActiveSum(holds[tok := h], t) == ActiveSum(holds, t)
  {
    forall t
      ensures ActiveSum(holds[tok := h], t) == ActiveSum(holds, t)
    {
      assert ActiveOn(holds[tok := h], t) == ActiveOn(holds, t);
      SumQtySame(holds, holds[tok := h], ActiveOn(holds, t));
    }
  }

  /** Creating a hold that a release and a sweep both read leaves the sweep stale and nothing else. */
  lemma MakesStale(s0: Sys, s: Sys, t: TierId, quantity: nat, least: int) returns (s': Sys, id: TxnId)
    requires Reaches(s0, s, least) && Quiet(s) && t in s.tiers
    requires least <= quantity <= s.tiers[t].QuantityAvailable()
    ensures Reaches(s0, s', least) && Quiet(s') && s'.tiers == s.tiers && Stale(s', id, t, s.tiers[t].held)
    ensures Actives(s'.holds) == Actives(s.holds)
    ensures forall u :: ActiveSum(s'.holds, u) == ActiveSum(s.holds, u)
  {
    var user := FreshUser(s.tiers, s.holds);
    var tok := CreateRuns(s0, s, user, t, quantity, least);
    var s1 := Created(s, user, t, quantity, tok);
    var release := FreshTxnId(s.restorers.Keys);
    id := FreshTxnId(s.restorers.Keys + {release});
    Reads(s0, s1, release, tok, least);
    Reads(s0, AfterRead(s1, release, tok), id, tok, least);
    SweepIsStale(s, user, t, quantity, tok, release, id);
    ReadTwiceEnds(s0, s1, release, id, tok, least);
    s' := Ended(ReadTwice(s1, release, id, tok), release, Released);
    ReleasedIsNotActive(s.holds, tok, CheckoutHold(user, t, quantity, Released, 0));
  }

  lemma ReadTwiceEnds(s0: Sys, s: Sys, release: TxnId, sweep: TxnId, tok: Token, least: int)
    requires tok in s.holds && s.holds[tok].tier in s.tiers && s.holds[tok].tier !in s.locks && release != sweep
    requires Reaches(s0, ReadTwice(s, release, sweep, tok), least)
    ensures Reaches(s0, Ended(ReadTwice(s, release, sweep, tok), release, Released), least)
  {
    Ends(s0, ReadTwice(s, release, sweep, tok), release, Released, least);
  }

  /** The stale sweep marks its hold EXPIRED and sets the counter to its old value, whatever was committed
      since; no ACTIVE hold is touched. */
  lemma StaleEnds(s: Sys, id: TxnId, t: TierId, held: nat)
    requires Stale(s, id, t, held) && t in s.tiers
    ensures var s' := Ended(s, id, Expired);
            && s'.tiers == WithHeld(s.tiers, t, held) && s'.txns == s.txns && s'.locks == s.locks
            && s'.holds.Keys == s.holds.Keys && Actives(s'.holds) == Actives(s.holds)
            && forall tok :: tok in Actives(s.holds) ==> s'.holds[tok] == s.holds[tok]
  {}

  lemma SameActives(holds: Holds, holds': Holds, tiers: Tiers, tiers': Tiers)
    requires Actives(holds') == Actives(holds) && forall tok :: tok in Actives(holds) ==> holds'[tok] == holds[tok]
    requires SameEvents(tiers, tiers')
    ensures forall user, event :: ActiveHolds(tiers', holds', user, event) == ActiveHolds(tiers, holds, user, event)
    ensures forall t :: ActiveSum(holds', t) == ActiveSum(holds, t)
  {
    assert forall tok :: tok in holds' && holds'[tok].status == Active <==> tok in Actives(holds);
    forall t
      ensures ActiveSum(holds', t) == ActiveSum(holds, t)
    {
      assert ActiveOn(holds', t) == ActiveOn(holds, t);
      SumQtySame(holds, holds', ActiveOn(holds, t));
    }
    forall user, event
      ensures ActiveHolds(tiers', holds', user, event) == ActiveHolds(tiers, holds, user, event)
    {}
  }

  lemma Overwrites(s0: Sys, s: Sys, id: TxnId, t: TierId, held: nat, least: int) returns (s': Sys)
    requires Reaches(s0, s, least) && Stale(s, id, t, held) && t in s.tiers && t !in s.locks
    ensures Reaches(s0, s', least) && s'.tiers == WithHeld(s.tiers, t, held)
    ensures s'.txns == s.txns && s'.locks == s.locks
    ensures forall user, event ::
              ActiveHolds(s'.tiers, s'.holds, user, event) == ActiveHolds(s.tiers, s.holds, user, event)
    ensures forall u :: ActiveSum(s'.holds, u) == ActiveSum(s.holds, u)
  {
    Ends(s0, s, id, Expired, least);
    s' := Ended(s, id, Expired);
    StaleEnds(s, id, t, held);
    SameActives(s.holds, s'.holds, s.tiers, s'.tiers);
  }
}
