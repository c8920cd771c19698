/** How many requests the limiter admits over whole traces. */
module RateTheorems {
  import opened Sequences
  import opened RateLimiter

  datatype Request = Request(key: string, now: int)

  function EndTime(start: int, reqs: seq<Request>): int
  {
    if reqs == [] then start else Last(reqs).now
  }

  /** Requests come one after the other: times never decrease. */
  predicate InOrder(start: int, reqs: seq<Request>)
  {
    reqs != [] ==> InOrder(start, Front(reqs)) && EndTime(start, Front(reqs)) <= Last(reqs).now
  }

  function Run(counters: Counters, limit: int, window: int, reqs: seq<Request>): Counters
  {
    if reqs == [] then counters
    else AfterRequest(Run(counters, limit, window, Front(reqs)), Last(reqs).key, limit, window, Last(reqs).now)
  }

  predicate LastAdmitted(counters: Counters, limit: int, window: int, reqs: seq<Request>)
    requires reqs != []
  {
    Admits(Run(counters, limit, window, Front(reqs)), Last(reqs).key, limit, Last(reqs).now)
  }

  /** Admitted requests of `key` with a time in the half-open interval [from, to). */
  function Admitted(counters: Counters, limit: int, window: int, reqs: seq<Request>, key: string,
                    from: int, to: int): nat
  {
    if reqs == [] then 0
    else Admitted(counters, limit, window, Front(reqs), key, from, to)
         + (if Last(reqs).key == key && from <= Last(reqs).now < to && LastAdmitted(counters, limit, window, reqs)
            then 1 else 0)
  }

  /** Counters as the limiter leaves them: between one and `limit`, opened no later than `now`. */
  ghost predicate Stored(counters: Counters, limit: int, window: int, now: int)
  {
    forall key :: key in counters ==>
      1 <= counters[key].count <= limit && counters[key].deadline - window <= now
  }

  lemma {:induction false} RunStored(counters: Counters, limit: int, window: int, start: int, reqs: seq<Request>)
    requires Stored(counters, limit, window, start) && InOrder(start, reqs)
    ensures Stored(Run(counters, limit, window, reqs), limit, window, EndTime(start, reqs))
  {
    if reqs != [] {
      RunStored(counters, limit, window, start, Front(reqs));
    }
  }

  // ----- the largest number admitted in one window's length -----

  /** The most requests of one key that the limiter admits in a half-open interval as long as its window. */
  function MostInWindow(limit: int, window: int): int
  {
    if limit <= 0 || window <= 0 then 0
    else if window == 1 then limit
    else 2 * limit - 1
  }

  /** What is known about the admissions counted so far, from where the key's current window opened. */
  ghost predicate CountedSoFar(c: Counters, limit: int, window: int, key: string, from: int, now: int, n: nat)
  {
    var carried := if window >= 2 then limit - 1 else 0;
    if key !in c then n == 0
    else if c[key].deadline - window >= from + window then n <= carried + limit
    else if c[key].deadline - window >= from then n <= carried + c[key].count
    else n <= c[key].count - 1 && (now < from || window <= 1 ==> n == 0)
  }

  lemma CountingStep(c: Counters, limit: int, window: int, key: string, from: int, now: int, n: nat, r: Request)
    requires limit >= 1 && window >= 1 && Stored(c, limit, window, now) && now <= r.now
    requires CountedSoFar(c, limit, window, key, from, now, n)
    ensures CountedSoFar(AfterRequest(c, r.key, limit, window, r.now), limit, window, key, from, r.now,
              n + (if r.key == key && from <= r.now < from + window && Admits(c, r.key, limit, r.now) then 1 else 0))
  {}

  lemma {:induction false} Counting(counters: Counters, limit: int, window: int, start: int, reqs: seq<Request>,
                                    key: string, from: int)
    requires limit >= 1 && window >= 1 && Stored(counters, limit, window, start) && InOrder(start, reqs)
    requires CountedSoFar(counters, limit, window, key, from, start, 0)
    ensures CountedSoFar(Run(counters, limit, window, reqs), limit, window, key, from, EndTime(start, reqs),
              Admitted(counters, limit, window, reqs, key, from, from + window))
  {
    if reqs != [] {
      Counting(counters, limit, window, start, Front(reqs), key, from);
      RunStored(counters, limit, window, start, Front(reqs));
      CountingStep(Run(counters, limit, window, Front(reqs)), limit, window, key, from,
                   EndTime(start, Front(reqs)),
                   Admitted(counters, limit, window, Front(reqs), key, from, from + window), Last(reqs));
    }
  }

  lemma {:induction false} NothingAdmitted(counters: Counters, limit: int, window: int, reqs: seq<Request>, key: string,
                                           from: int, to: int)
    requires to <= from || limit <= 0
    requires forall k :: k in counters ==> counters[k].count >= 0
    ensures Admitted(counters, limit, window, reqs, key, from, to) == 0
    ensures forall k :: k in Run(counters, limit, window, reqs) ==> Run(counters, limit, window, reqs)[k].count >= 0
  {
    if reqs != [] {
      NothingAdmitted(counters, limit, window, Front(reqs), key, from, to);
    }
  }

  /** Requests of `key` admitted in the interval [from, from + window) of a trace from an empty cache. */
  function AdmittedInWindow(limit: int, window: int, reqs: seq<Request>, key: string, from: int): nat
  {
    Admitted(map[], limit, window, reqs, key, from, from + window)
  }

  /** From an empty cache, no trace gets more than MostInWindow requests of one key admitted in one
      window's length, wherever that interval starts. */
  lemma WindowBound(limit: int, window: int, start: int, reqs: seq<Request>, key: string, from: int)
    requires InOrder(start, reqs)
    ensures AdmittedInWindow(limit, window, reqs, key, from) <= MostInWindow(limit, window)
  {
    if limit <= 0 || window <= 0 {
      NothingAdmitted(map[], limit, window, reqs, key, from, from + window);
    } else {
      Counting(map[], limit, window, start, reqs, key, from);
      RunStored(map[], limit, window, start, reqs);
    }
  }

  /** `n` more requests of `key`, all at `now`. */
  function Then(reqs: seq<Request>, key: string, now: int, n: nat): seq<Request>
  {
    if n == 0 then reqs else Then(reqs, key, now, n - 1) + [Request(key, now)]
  }

  lemma AppendOne(reqs: seq<Request>, r: Request)
    ensures reqs + [r] != [] && Front(reqs + [r]) == reqs && Last(reqs + [r]) == r
  {}

  lemma {:induction false} BurstInOrder(start: int, reqs: seq<Request>, key: string, now: int, n: nat)
    requires InOrder(start, reqs) && EndTime(start, reqs) <= now
    ensures InOrder(start, Then(reqs, key, now, n)) && EndTime(start, Then(reqs, key, now, n)) <= now
    ensures n >= 1 ==> EndTime(start, Then(reqs, key, now, n)) == now
  {
    if n >= 1 {
      BurstInOrder(start, reqs, key, now, n - 1);
      AppendOne(Then(reqs, key, now, n - 1), Request(key, now));
    }
  }

  /** The window a request at `now` belongs to, if it is admitted after `reqs`. */
  function WindowEnd(limit: int, window: int, reqs: seq<Request>, key: string, now: int): int
  {
    var c := Run(map[], limit, window, reqs);
    if CountAt(c, key, now) != 0 && key in c then c[key].deadline else now + window
  }

  /** Below the limit, one more request is admitted and counted. */
  lemma OneMoreAdmitted(limit: int, window: int, reqs: seq<Request>, key: string, now: int, from: int, to: int)
    requires window >= 1 && 0 <= CountAt(Run(map[], limit, window, reqs), key, now) < limit
    ensures var more := reqs + [Request(key, now)];
            && Admitted(map[], limit, window, more, key, from, to)
               == Admitted(map[], limit, window, reqs, key, from, to) + (if from <= now < to then 1 else 0)
            && key in Run(map[], limit, window, more)
            && Run(map[], limit, window, more)[key]
               == Counter(CountAt(Run(map[], limit, window, reqs), key, now) + 1,
                          WindowEnd(limit, window, reqs, key, now))
            && now < WindowEnd(limit, window, reqs, key, now)
  {
    AppendOne(reqs, Request(key, now));
  }

  /** `more` is `reqs` with `n` more requests of `key` at `now`, all admitted into one window. */
  ghost predicate Absorbed(limit: int, window: int, reqs: seq<Request>, more: seq<Request>, key: string, now: int,
                           n: nat, from: int, to: int)
  {
    var c := Run(map[], limit, window, more);
    && Admitted(map[], limit, window, more, key, from, to)
       == Admitted(map[], limit, window, reqs, key, from, to) + (if from <= now < to then n else 0)
    && CountAt(c, key, now) == CountAt(Run(map[], limit, window, reqs), key, now) + n
    && WindowEnd(limit, window, more, key, now) == WindowEnd(limit, window, reqs, key, now) > now
    && (n >= 1 ==> key in c && c[key] == Counter(CountAt(c, key, now), WindowEnd(limit, window, reqs, key, now)))
  }

  lemma OneMoreAbsorbed(limit: int, window: int, reqs: seq<Request>, more: seq<Request>, key: string, now: int, n: nat,
                        from: int, to: int)
    requires window >= 1 && 0 <= CountAt(Run(map[], limit, window, reqs), key, now) < limit - n
    requires Absorbed(limit, window, reqs, more, key, now, n, from, to)
    ensures Absorbed(limit, window, reqs, more + [Request(key, now)], key, now, n + 1, from, to)
  {
    OneMoreAdmitted(limit, window, more, key, now, from, to);
  }

  /** A burst that fits under the limit is admitted whole. */
  lemma {:induction false} BurstAdmitted(limit: int, window: int, reqs: seq<Request>, key: string, now: int,
                                         n: nat, from: int, to: int)
    requires window >= 1 && 0 <= CountAt(Run(map[], limit, window, reqs), key, now) <= limit - n
    ensures Absorbed(limit, window, reqs, Then(reqs, key, now, n), key, now, n, from, to)
  {
    if n >= 1 {
      BurstAdmitted(limit, window, reqs, key, now, n - 1, from, to);
      OneMoreAbsorbed(limit, window, reqs, Then(reqs, key, now, n - 1), key, now, n - 1, from, to);
    }
  }

  /** One early request, and the rest of that window's quota at its last instant. */
  function FirstWindow(limit: int, window: int, key: string): seq<Request>
    requires limit >= 1
  {
    Then(Then([], key, 0, 1), key, window - 1, limit - 1)
  }

  /** A full quota follows at the next instant. */
  function WorstTrace(limit: int, window: int, key: string): seq<Request>
    requires limit >= 1
  {
    Then(FirstWindow(limit, window, key), key, window, limit)
  }

  lemma FirstWindowInOrder(limit: int, window: int, key: string)
    requires limit >= 1 && window >= 1
    ensures InOrder(0, FirstWindow(limit, window, key)) && EndTime(0, FirstWindow(limit, window, key)) <= window - 1
  {
    BurstInOrder(0, [], key, 0, 1);
    BurstInOrder(0, Then([], key, 0, 1), key, window - 1, limit - 1);
  }

  lemma FirstWindowFilled(limit: int, window: int, key: string)
    requires limit >= 1 && window >= 1
    ensures AdmittedInWindow(limit, window, FirstWindow(limit, window, key), key, 1)
         == (if window >= 2 then limit - 1 else 0)
    ensures CountAt(Run(map[], limit, window, FirstWindow(limit, window, key)), key, window) == 0
  {
    var first := Then([], key, 0, 1);
    BurstAdmitted(limit, window, [], key, 0, 1, 1, 1 + window);
    BurstAdmitted(limit, window, first, key, window - 1, limit - 1, 1, 1 + window);
  }

  /** Once the counter has expired, a burst of `limit` at `window` is admitted whole. */
  lemma FullQuota(limit: int, window: int, reqs: seq<Request>, key: string)
    requires limit >= 1 && window >= 1 && CountAt(Run(map[], limit, window, reqs), key, window) == 0
    ensures AdmittedInWindow(limit, window, Then(reqs, key, window, limit), key, 1)
         == AdmittedInWindow(limit, window, reqs, key, 1) + limit
  {
    BurstAdmitted(limit, window, reqs, key, window, limit, 1, 1 + window);
  }

  /** The bound is attained, so it is the exact maximum. */
  lemma WorstTraceAdmitted(limit: int, window: int, key: string)
    requires limit >= 1 && window >= 1
    ensures InOrder(0, WorstTrace(limit, window, key))
    ensures AdmittedInWindow(limit, window, WorstTrace(limit, window, key), key, 1) == MostInWindow(limit, window)
  {
    FirstWindowInOrder(limit, window, key);
    BurstInOrder(0, FirstWindow(limit, window, key), key, window, limit);
    FirstWindowFilled(limit, window, key);
    FullQuota(limit, window, FirstWindow(limit, window, key), key);
  }

  /** The limiter as its documentation describes it: never more than `limit` in any window's length. */
  ghost predicate LimitsEveryWindow(limit: int, window: int, key: string)
  {
    forall start, reqs, from ::
      InOrder(start, reqs) ==> AdmittedInWindow(limit, window, reqs, key, from) <= Max(limit, 0)
  }

  function Max(a: int, b: int): int
  {
    if a >= b then a else b
  }

  /** The fixed window meets the sliding-window promise exactly when the limit or the window is trivial. */
  lemma SlidingPromiseExactly(limit: int, window: int, key: string)
    ensures LimitsEveryWindow(limit, window, key) <==> limit <= 1 || window <= 1
  {
    if limit <= 1 || window <= 1 {
      forall start, reqs, from | InOrder(start, reqs)
        ensures AdmittedInWindow(limit, window, reqs, key, from) <= Max(limit, 0)
      {
        WindowBound(limit, window, start, reqs, key, from);
      }
    } else {
      WorstTraceAdmitted(limit, window, key);
      assert InOrder(0, WorstTrace(limit, window, key));
      assert AdmittedInWindow(limit, window, WorstTrace(limit, window, key), key, 1) > Max(limit, 0);
    }
  }

  // ----- what the stored counter means -----

  /** The stored count is the number of requests admitted since the key's window opened; none has been
      admitted from its deadline on, and a key without a counter has never been admitted. */
  lemma {:induction false} CountIsAdmittedSinceOpening(limit: int, window: int, start: int, reqs: seq<Request>,
                                                       key: string, from: int, to: int)
    requires window >= 1 && InOrder(start, reqs) && EndTime(start, reqs) < to
    ensures key !in Run(map[], limit, window, reqs) ==> Admitted(map[], limit, window, reqs, key, from, to) == 0
    ensures key in Run(map[], limit, window, reqs) ==>
              var c := Run(map[], limit, window, reqs)[key];
              && (from == c.deadline - window ==> Admitted(map[], limit, window, reqs, key, from, to) == c.count)
              && (from >= c.deadline ==> Admitted(map[], limit, window, reqs, key, from, to) == 0)
  {
    if reqs != [] {
      CountIsAdmittedSinceOpening(limit, window, start, Front(reqs), key, from, to);
      RunStored(map[], limit, window, start, Front(reqs));
    }
  }

  function RequestsOf(reqs: seq<Request>, key: string): nat
  {
    if reqs == [] then 0
    else RequestsOf(Front(reqs), key) + (if Last(reqs).key == key then 1 else 0)
  }

  function Min(a: int, b: int): int
  {
    if a <= b then a else b
  }

  /** While a window is live it admits exactly the first Left requests of its key, whatever other keys ask. */
  lemma {:induction false} LiveWindowAdmitsExactlyLeft(counters: Counters, limit: int, window: int, start: int,
                                                       reqs: seq<Request>, key: string)
    requires key in counters && 1 <= counters[key].count <= limit
    requires InOrder(start, reqs) && EndTime(start, reqs) < counters[key].deadline && start < counters[key].deadline
    ensures Admitted(counters, limit, window, reqs, key, start, counters[key].deadline)
         == Min(RequestsOf(reqs, key), Left(counters, key, limit, start))
    ensures key in Run(counters, limit, window, reqs)
    ensures Run(counters, limit, window, reqs)[key].deadline == counters[key].deadline
    ensures Run(counters, limit, window, reqs)[key].count
         == counters[key].count + Min(RequestsOf(reqs, key), Left(counters, key, limit, start))
  {
    if reqs != [] {
      TimesGrow(start, Front(reqs));
      LiveWindowAdmitsExactlyLeft(counters, limit, window, start, Front(reqs), key);
    }
  }

  lemma {:induction false} TimesGrow(start: int, reqs: seq<Request>)
    requires InOrder(start, reqs)
    ensures start <= EndTime(start, reqs)
  {
    if reqs != [] {
      TimesGrow(start, Front(reqs));
    }
  }

  /** After `more`, which are `n` requests of `key` at `now`, the quota has shrunk by those it covered. */
  ghost predicate QuotaUsed(counters: Counters, limit: int, window: int, more: seq<Request>, key: string, now: int,
                            n: nat)
  {
    var used := Min(n, Left(counters, key, limit, now));
    && Admitted(counters, limit, window, more, key, now, now + 1) == used
    && CountAt(Run(counters, limit, window, more), key, now) == CountAt(counters, key, now) + used
  }

  lemma OneMoreOfQuota(counters: Counters, limit: int, window: int, more: seq<Request>, key: string, now: int, n: nat)
    requires window >= 1 && QuotaUsed(counters, limit, window, more, key, now, n)
    ensures QuotaUsed(counters, limit, window, more + [Request(key, now)], key, now, n + 1)
  {
    AppendOne(more, Request(key, now));
  }

  lemma {:induction false} BurstUsesQuota(counters: Counters, limit: int, window: int, key: string, now: int, n: nat)
    requires window >= 1
    ensures QuotaUsed(counters, limit, window, Then([], key, now, n), key, now, n)
  {
    if n >= 1 {
      BurstUsesQuota(counters, limit, window, key, now, n - 1);
      OneMoreOfQuota(counters, limit, window, Then([], key, now, n - 1), key, now, n - 1);
    }
  }

  /** Whatever the cache holds, of `n` requests of a key at one instant exactly the first Left are admitted,
      whether a window is live, has expired, or was never opened. */
  lemma BurstAdmitsExactlyLeft(counters: Counters, limit: int, window: int, key: string, now: int, n: nat)
    requires window >= 1
    ensures Admitted(counters, limit, window, Then([], key, now, n), key, now, now + 1)
         == Min(n, Left(counters, key, limit, now))
  {
    BurstUsesQuota(counters, limit, window, key, now, n);
  }

  /** The quota left is the limit less the live count, and the whole limit when no window is live. */
  lemma LeftExactly(counters: Counters, key: string, limit: int, now: int)
    ensures key !in counters || counters[key].deadline <= now ==> Left(counters, key, limit, now) == Max(limit, 0)
    ensures key in counters && now < counters[key].deadline ==>
              Left(counters, key, limit, now) == Max(limit - counters[key].count, 0)
  {}

  /** A window that is over as soon as it opens limits nothing. */
  lemma {:induction false} EmptyWindowAdmitsAll(limit: int, window: int, start: int, reqs: seq<Request>)
    requires limit >= 1 && window <= 0 && InOrder(start, reqs) && reqs != []
    ensures LastAdmitted(map[], limit, window, reqs)
  {
    ExpiredAtOnce(limit, window, start, Front(reqs));
  }

  lemma {:induction false} ExpiredAtOnce(limit: int, window: int, start: int, reqs: seq<Request>)
    requires window <= 0 && InOrder(start, reqs)
    ensures forall key :: key in Run(map[], limit, window, reqs) ==>
              Run(map[], limit, window, reqs)[key].deadline <= EndTime(start, reqs)
  {
    if reqs != [] {
      ExpiredAtOnce(limit, window, start, Front(reqs));
    }
  }

  // ----- other keys -----

  function Only(reqs: seq<Request>, key: string): seq<Request>
  {
    if reqs == [] then []
    else Only(Front(reqs), key) + (if Last(reqs).key == key then [Last(reqs)] else [])
  }

  /** A key's counter and its admissions are those of its own requests alone. */
  lemma {:induction false} OtherKeysDoNotMatter(counters: Counters, limit: int, window: int, reqs: seq<Request>,
                                                key: string, from: int, to: int)
    ensures key in Run(counters, limit, window, reqs) <==> key in Run(counters, limit, window, Only(reqs, key))
    ensures key in Run(counters, limit, window, reqs) ==>
              Run(counters, limit, window, reqs)[key] == Run(counters, limit, window, Only(reqs, key))[key]
    ensures Admitted(counters, limit, window, reqs, key, from, to)
         == Admitted(counters, limit, window, Only(reqs, key), key, from, to)
  {
    if reqs != [] {
      OtherKeysDoNotMatter(counters, limit, window, Front(reqs), key, from, to);
      if Last(reqs).key == key {
        AppendOne(Only(Front(reqs), key), Last(reqs));
      } else {
        assert Only(reqs, key) == Only(Front(reqs), key);
      }
    }
  }
}
