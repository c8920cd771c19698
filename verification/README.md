# Ticketing engine: a model and its proofs

The project models the part of the ticketing platform that decides who gets a ticket: the hold and
inventory engine, and four small data structures beside it (the in-process LRU cache of hot events, the
request limiter, the tier selector and the Bloom filter of the check-in desk). `dafny verify dfyconfig.toml`
checks everything.

**State.** `Records.World` holds the rows and keys that the hold engine shares: tiers with their `held` and
`sold` counters, checkout holds, payments, tickets, the sorted set of expiries, the hold registry and the
cached availabilities, the last two with the instant each entry's time-to-live ends. `Store.Store` is the same
state as one mutable object; the services work on it in place, field by field and in the order of the program.

**Two layers.** Each service is a method over the store (`CreateHold`, `ReleaseHoldByToken`,
`SweepExpiredHolds`, `ReleaseHoldOnPaymentTimeout`, `RequestRefund`, and the calls on the three derived
structures) whose contract gives the whole new state as a function of the old one. The functions are then
composed into serial runs (`HoldRuns`), and what the program promises is proved about every run from any state
that meets the invariant `HoldInvariants.Inv`. The loops over query results are proved against a fold over the
rows, and the fold against a closed form.

**Concurrency.** `ConcurrentHolds` splits `create_hold` into the steps at which other transactions can
intervene under READ COMMITTED with an exclusive row lock (lock, count, stock check, commit or abort), and lets
the unlocked read-then-write of releases and sweeps run in between.

**Time and inputs.** Instants are integer microseconds; a cache entry is live strictly before its deadline.
Clock readings, generated tokens, the primary key of the audit entry and the order in which the database
returns rows are parameters, so every theorem is about all of them. Prices are integer cents. The non-negative
columns and the unique token are database constraints, modelled as errors that roll the transaction back, or,
in the sweep, which is no transaction, stop the loop where it stands.

## What the proofs show

- Over every serial run, `held` equals the quantity of the ACTIVE holds plus a leak, and the leak grows by
  exactly the quantities of all but the last hold of a tier in each swept batch. So the counter is exact if and
  only if no sweep lost anything, it never falls below the ACTIVE holds, nothing is oversold, and every lost
  ticket is one fewer that can be held.
  With holds of at least one ticket that is so if and only if no batch contained two holds of the tier.
- Every answer of a create and of a refund has its exact condition, in every reachable state.
- The documented limit of two ACTIVE holds per user and event is exact in serial runs. Under concurrency, with
  requests of at least n tickets, the exact maximum is one plus the number of the event's tiers that have n
  tickets neither sold nor leaked: it bounds every interleaving and some interleaving reaches it. The limit
  therefore survives if and only if there is at most one such tier.
- Over every interleaving of creates, releases and sweeps, held minus the ACTIVE quantity changes by exactly the
  drift of its steps. Creates alone never drift and never oversell. A release or sweep that creates overlap
  erases every ticket they commit on its tier between its read of the counter and its write, so the counter
  stays exact if and only if nothing is committed in between.
- After any serial run, some interleaving oversells a tier if and only if the tier has a ticket that is neither
  sold nor leaked; and then by as many tickets as one likes.
- A hold leaves ACTIVE at most once and never returns, and is ACTIVE exactly as long as nothing that ends it
  has run. Sweeps are complete, and the registry agrees with the table.
- A cached availability is below the real one by exactly the tickets refunded since it was stored; from an empty
  cache a read returns a value if and only if a fill less than thirty seconds ago found it and no hold of the
  tier has become or ceased to be ACTIVE since.
- Refunds are all or nothing and commit at most once per payment; and with the audit model as it is declared
  no refund of any run commits.
- The limiter admits at most `2 * limit - 1` requests in any window's length, and this is attained.
- LRU inclusion between capacities, exact retention, eviction of the least recently used key; the cache is an
  unbounded map throughout a trace if and only if the map never outgrows the capacity.
- The binary search agrees with a full scan on every price-sorted list; the Bloom filter reports exactly the
  items whose positions are covered.

## Where code and documentation disagree

The model follows the code.

- `checkout/tasks.py:27` says inventory is restored for each expired hold; two expired holds of one tier in a
  batch give back only the last one's quantity (`SweepKeepsThreeTicketsHeld`, `SweepEqualsReleasesExactly`).
- `checkout/services.py:5` says all inventory mutations lock the row; release and sweep do not
  (`OverlapKeepsCounterExactly` says when the counter survives that, `LostUpdate` shows that it need not).
- `checkout/services.py:9` promises two ACTIVE holds per user and event (`LimitHoldsExactly` says when).
- `checkout/services.py:11` says the row lock prevents oversell under concurrency; with releases and sweeps
  running it does so only for tiers that can hold no ticket any more (`OversellExactly`, `LostUpdateOversells`).
- `core/rate_limiter.py:2` calls the window sliding; it is fixed, opened by its first request
  (`SlidingPromiseExactly`).
- `inventory/tier_selector.py:10` relies on `Meta.ordering` for price order; that ordering puts `sort_order`
  first (`TableOrderIsPriceOrderExactly`, `TableOrderCanHideATier`).
- `audit/models.py:35` refuses an entry whose key is set, and the uuid default sets it on every new entry
  (`RefundsNeverCommitAsDeclared`). All other refund results hold for both outcomes of the audit write.
- `checkout/expiry_heap.py:49` says tokens of released holds are removed; nothing calls that function, and
  `SweepComplete` shows that the stale tokens do no harm.

## Model

| member | source | states |
|---|---|---|
| Inventory.AvailabilitySplitsTotal | inventory/models.py:35-37 | available, held and sold add up to the total exactly when the tier is not oversold; otherwise availability is zero |
| TierSelector.SelectableExactly | inventory/models.py:39-45 | a tier is on sale exactly when it is active, has tickets left, and the instant is within its sale period, ends included; the search's own availability test adds nothing |
| ExpiryHeap.PushHoldExpiry | checkout/expiry_heap.py:27-30 | the token is in the expiry set with this score, any earlier score replaced, nothing else changed |
| ExpiryHeap.PopExpiredHolds | checkout/expiry_heap.py:33-45 | returns exactly the tokens scored between zero and now, both ends included, and removes exactly those |
| ExpiryHeap.RemoveFromExpirySet | checkout/expiry_heap.py:48-51 | removes exactly this token |
| HoldRegistry.RegisterHold | checkout/hold_registry.py:53-57 | stores the entry until the time-to-live computed from its expiry has passed on the cache server, and touches no other key |
| HoldRegistry.GetHold | checkout/hold_registry.py:60-65 | returns the stored entry while it is live, nothing otherwise |
| HoldRegistry.ReleaseHold | checkout/hold_registry.py:68-70 | removes exactly this token's entry |
| HoldRegistry.EntryOutlivesHold | checkout/hold_registry.py:56 | however late the entry is written it outlives the hold's expiry by more than 59 seconds, and by at most 60 when written at once before the expiry |
| HoldRegistry.TimeToLiveExactly | checkout/hold_registry.py:56 | the time-to-live is sixty more than the whole seconds left, truncated towards zero also when the expiry has passed, and never less than one |
| AvailabilityCache.GetCachedAvailability | inventory/availability_cache.py:15-16 | returns the cached value while it is live, nothing otherwise |
| AvailabilityCache.SetCachedAvailability | inventory/availability_cache.py:19-20 | the value is cached for thirty seconds, other tiers' entries unchanged |
| AvailabilityCache.InvalidateAvailability | inventory/availability_cache.py:23-24 | removes exactly this tier's entry |
| CheckoutServices.CreateHold | checkout/services.py:39-93 | the whole new database and caches: one ACTIVE hold, the counter raised, both registries and the cache written; on any refusal nothing changes and the error says which check failed first |
| CreateTheorems.CreateOutcomeExactly | checkout/services.py:51-73 | after every serial run, each answer of a create on its own condition and no other: unknown tier; known tier and two or more ACTIVE holds of the user on the event; fewer but sold + held + requested over the total; room but a negative quantity or a used token; success otherwise |
| CreateTheorems.CreateAllOrNothing | checkout/services.py:39-93 | a create changes the state if and only if it succeeds |
| CreateTheorems.CreateTakesStock | checkout/services.py:71-78 | a successful create takes exactly its quantity from the tier's availability and gives its user one more ACTIVE hold on the event |
| CreateTheorems.CreateTouchesNothingElse | checkout/services.py:70-93 | every other tier, hold, expiry, registry and cache entry, and all payments and tickets, are as they were |
| CheckoutServices.WriteHold | checkout/services.py:70-91 | once the checks are passed: the new row, the raised counter, both registries and the dropped cache entry, together the whole new state |
| CheckoutServices.PublishHold | checkout/services.py:80-91 | registry entry and expiry score of the new hold stored, its tier's cached availability dropped, nothing else |
| CheckoutServices.RestoreInventory | checkout/services.py:109-113 | writes the given counter, drops the registry entry and the tier's cached availability, and nothing else |
| CheckoutServices.ReleaseHoldByToken | checkout/services.py:96-113 | an ACTIVE hold becomes RELEASED and its quantity leaves the counter; unknown and non-ACTIVE tokens change nothing; a refused write rolls everything back |
| CheckoutTasks.RowsWrittenClosedForm | checkout/tasks.py:41-52 | writing the rows one by one from the snapshot of the query leaves every status EXPIRED, every entry dropped, and per tier only the last row's quantity given back |
| CheckoutTasks.ExpireRow | checkout/tasks.py:43-51 | one row: status saved first, then the counter computed from the snapshot; a refused counter leaves only the status written |
| CheckoutTasks.ExpireRows | checkout/tasks.py:41-55 | the loop ends in the closed form of its rows, up to the first row the database refuses, and counts the rows |
| CheckoutTasks.SweepExpiredHolds | checkout/tasks.py:20-55 | pops the due tokens and expires exactly the ACTIVE holds among them, in whatever order the query returns them |
| PaymentTasks.ReleaseHoldOnPaymentTimeout | payments/tasks.py:24-38 | releases the hold exactly when it exists, is ACTIVE and strictly past its expiry; always returns the token unless the release raises |
| Refunds.RestoreTicket | payments/refunds.py:66-71 | one ticket: its tier, read afresh, sells one fewer and the ticket is CANCELLED, or the write is refused |
| Refunds.RefundLoopClosedForm | payments/refunds.py:66-71 | in any order the loop succeeds exactly when every tier has sold at least the tickets it must give back, and then each ticket is counted once |
| Refunds.RestoreTickets | payments/refunds.py:64-71 | the loop over the payment's tickets reaches that closed form or reports the refusal |
| Refunds.RequestRefund | payments/refunds.py:23-85 | the checks in their order with their errors, the receipt on success, and a full rollback on every failure, the audit write included |
| HoldInvariants.CreateKeepsInv | checkout/services.py:39-93 | creating a hold keeps the invariant |
| HoldInvariants.ReleaseEffectOn | checkout/services.py:106-113 | a release takes the hold's quantity out of the counter and out of the ACTIVE quantity of its tier alike, and nothing out of other tiers |
| HoldInvariants.ReleaseKeepsInv | checkout/services.py:96-113 | releasing keeps the invariant |
| HoldInvariants.ReleaseLeaves | checkout/services.py:99-113 | where the invariant holds the database never refuses a release; exactly this hold leaves ACTIVE, with its registry entry and its tier's cached availability |
| HoldInvariants.SweepEffectOn | checkout/tasks.py:36-49 | a sweep takes the whole batch out of the ACTIVE quantity of a tier but only its last hold's quantity out of the counter |
| HoldInvariants.SweepKeepsInv | checkout/tasks.py:20-55 | sweeping keeps the invariant for every batch and order |
| HoldInvariants.SweepWorld | checkout/tasks.py:36-51 | where the invariant holds no row of a sweep is refused, and the sweep ends with every row of the batch written |
| HoldInvariants.RefundKeepsInv | payments/refunds.py:43-85 | a refund keeps the invariant, whether it commits or not |
| HoldInvariants.StepKeepsInv | checkout/services.py:39-113 | every operation keeps the invariant: counters cover ACTIVE holds and paid tickets within the total, at most two ACTIVE holds per user and event, expiry set and registry agree with the holds, no cached value is too high |
| HoldInvariants.RunKeepsInv | checkout/services.py:39-113 | so does every serial run of create, release, sweep, timeout, refund and cache fill |
| SweepAccounting.LossesExactly | checkout/tasks.py:42-49 | a batch loses nothing if its holds sit on distinct tiers; with holds of at least one ticket each, only then |
| SweepAccounting.LostNothingExactly | checkout/tasks.py:42-49 | per tier, with holds of at least one ticket each: nothing is lost if and only if the batch has at most one hold there |
| AccountingTheorems.StepLeak | checkout/tasks.py:36-49 | one step changes what held exceeds the ACTIVE holds by exactly what a sweep loses on the tier |
| AccountingTheorems.AccountingLaw | checkout/tasks.py:36-49 | over every run: held = quantity of ACTIVE holds + initial leak + the sum of what the sweeps lost, which is never negative |
| AccountingTheorems.HeldExactIff | checkout/tasks.py:36-49 | held equals the ACTIVE quantity after a run if and only if it did before and no sweep in it lost anything on the tier |
| AccountingTheorems.DistinctBatchesKeepHeldExact | checkout/tasks.py:42-49 | while no batch contains two holds of one tier, held stays exact |
| AccountingTheorems.HeldExactExactly | checkout/tasks.py:36-49 | with holds of at least one ticket: a tier's counter is exact after a run if and only if it was before and no batch of the run had two holds of that tier |
| AccountingTheorems.SweepOfTwo | checkout/tasks.py:36-49 | two expired holds of one tier in a batch: both quantities leave the ACTIVE sum, only the second leaves the counter |
| AccountingTheorems.SweepKeepsThreeTicketsHeld | checkout/tasks.py:27 | from a concrete state that meets the invariant, a sweep after which three tickets stay held though no hold is ACTIVE |
| AccountingTheorems.NoOversell | inventory/models.py:34-37 | in every reachable state available + held + sold = total, so the clipping at zero never acts, and held covers the ACTIVE holds |
| AccountingTheorems.StockRefusalExactly | checkout/services.py:65-68 | after any run a create within the guard is refused for stock exactly when sold + ACTIVE + leaked + requested exceeds the total |
| AccountingTheorems.GuardHolds | checkout/services.py:54-63 | in every serial run a user has at most two ACTIVE holds on an event |
| LifecycleTheorems.StepHolds | checkout/services.py:96-107 | a step changes an existing hold only if the hold is ACTIVE and the step ends it, and then only its status, to RELEASED or EXPIRED |
| LifecycleTheorems.NeverBackToActive | checkout/services.py:100-104 | a hold that is not ACTIVE keeps its row unchanged over every run |
| LifecycleTheorems.LeavesAtMostOnce | checkout/services.py:97-113 | over every run a hold leaves ACTIVE at most once, whichever mix of release, timeout and sweep reaches it |
| LifecycleTheorems.ActiveExactlyIfNothingEnds | checkout/tasks.py:36-44 | an ACTIVE hold is still ACTIVE after a run exactly when nothing in the run ended it |
| LifecycleTheorems.FifteenMinutes | checkout/services.py:70-73 | a created hold is ACTIVE after a run exactly when it was not released, no sweep came fifteen minutes or more after its creation and no timeout of its token later than that |
| LifecycleTheorems.ReleasedForGood | checkout/services.py:99-104 | after a release and any further run, neither another release nor the payment timeout of the token changes anything, and no sweep takes the hold up |
| LifecycleTheorems.ReleaseFindsExactly | checkout/services.py:99-113 | in a reachable state a release changes something if and only if its token names an ACTIVE hold |
| LifecycleTheorems.ReleaseExactly | checkout/services.py:96-113 | from any database: a release raises exactly when the counter is smaller than its ACTIVE hold and then leaves no trace; otherwise exactly one status, one counter, one registry entry and one cache entry change |
| LifecycleTheorems.SweepMarksExactly | checkout/tasks.py:32-44 | from any database: exactly the rows up to and including the first one refused become EXPIRED, and the due tokens leave the expiry set even then |
| LifecycleTheorems.SweepGivesBackExactly | checkout/tasks.py:45-51 | from any database: only the rows before a refused one are given back, by the last of them on each tier, and dropped from registry and cache |
| LifecycleTheorems.SweepComplete | checkout/expiry_heap.py:33-45 | after a sweep no ACTIVE hold is past due; later holds and the holds of stale tokens are untouched; no past-due token is left |
| LifecycleTheorems.RegistryAgrees | checkout/hold_registry.py:53-70 | after any run a live entry describes an ACTIVE hold field by field, and every ACTIVE hold up to 59 seconds past its expiry is found |
| CreateTheorems.FoundExactly | checkout/hold_registry.py:53-70 | after a create and any run, a lookup of its token returns exactly the created tier, quantity, expiry and user if nothing in the run ended the hold and its time-to-live, counted from when the cache stored it, has not run out; nothing otherwise |
| CreateTheorems.FoundForSixteenMinutes | checkout/hold_registry.py:56-65 | registered without delay, it is found if and only if the instant is before sixteen minutes after its creation and it was not released, swept or timed out |
| LifecycleTheorems.ReleaseAllEffect | checkout/services.py:96-113 | releasing a listing of ACTIVE holds one at a time gives back each quantity once |
| LifecycleTheorems.SweepAgainstReleases | checkout/tasks.py:42-51 | for every order, a sweep leaves the same registry and cache as releasing the batch hold by hold, EXPIRED for RELEASED, and counters that differ by exactly the loss |
| LifecycleTheorems.SweepEqualsReleasesExactly | checkout/tasks.py:42-51 | the counters are equal if the batch has distinct tiers; with holds of at least one ticket each, if and only if |
| RefundTheorems.RefundOutcomeExactly | payments/refunds.py:43-78 | each answer of a refund on its own condition and no other: unknown payment; any status but SUCCEEDED, named; one or more checked-in tickets, with their number; a sold counter below the tickets to give back; a set audit key; success otherwise |
| RefundTheorems.RefundAllOrNothing | payments/refunds.py:43-71 | the state differs after a refund if and only if the refund succeeded; then exactly this payment is REFUNDED, exactly its tickets are CANCELLED, and holds and caches are untouched |
| RefundTheorems.RefundedTicketsLeaveSold | payments/refunds.py:66-69 | each tier's sold drops by exactly the number of the payment's tickets on it, and not below zero |
| RefundTheorems.RefundCommitsExactly | payments/refunds.py:43-58 | in a reachable state a refund commits exactly when the payment SUCCEEDED, none of its tickets is checked in and the audit entry can be saved |
| RefundTheorems.SecondRefundRefused | payments/refunds.py:45-46 | after a committed refund and any further run, another refund of the payment is refused and changes nothing |
| RefundTheorems.RefundsNeverCommitAsDeclared | audit/models.py:10-36 | over every run whose refunds write entries with a key set by the uuid default, every payment, ticket and sold counter is unchanged |
| RefundTheorems.StepPayments | payments/refunds.py:60-62 | a payment's row changes only by its own committed refund, to REFUNDED |
| RefundTheorems.SoldConservation | payments/refunds.py:64-69 | over every run a tier's sold counter moves only together with its paid tickets |
| CacheTheorems.StepBehind | inventory/availability_cache.py:5 | hold operations drop the entry of every tier they touch, a fill sets it right, a refund leaves it behind by the tickets it returns |
| CacheTheorems.CachedAvailabilityLaw | inventory/availability_cache.py:15-24 | over every run a cached value is below the real availability by exactly the tickets refunded since it was filled |
| CacheTheorems.CacheExactAsDeclared | inventory/availability_cache.py:15-24 | over such runs every read of the cache returns what is available |
| CacheTheorems.EntryExactly | inventory/availability_cache.py:19-24 | an entry is there after a run if and only if a fill of the run, or the state before it, stored it and no hold of the tier became or ceased to be ACTIVE since |
| CacheTheorems.ReadExactly | inventory/availability_cache.py:5-16 | from an empty cache, a reader gets a value if and only if a fill less than thirty seconds ago found it available and no hold of the tier became or ceased to be ACTIVE since |
| CacheTheorems.CachedReadsAreSafe | inventory/availability_cache.py:15-16 | after any run from any state of the invariant, a read never returns more than is available, and returns exactly that if and only if no refund touched the tier since the fill |
| ConcurrentHolds.InFlightBounded | checkout/services.py:51-52 | one lock holder per tier: no more creates of a user are past the guard than there are tiers to lock |
| ConcurrentHolds.BoundInEveryInterleaving | checkout/services.py:51-63 | every interleaving of creates with releases and sweeps keeps ACTIVE holds plus creates past the guard within MAX - 1 + number of tiers |
| ConcurrentTheorems.DriftLaw | checkout/services.py:51-111 | every interleaving of creates, releases and sweeps changes held minus the ACTIVE quantity by exactly the drift of its steps: plus a hold's quantity when it leaves ACTIVE, and at the write the distance from the counter to what the writer saw less that quantity |
| ConcurrentTheorems.CreatesNeverOversell | checkout/services.py:51-78 | every interleaving of creates alone keeps held + sold within every total and held minus the committed ACTIVE quantity unchanged |
| ConcurrentTheorems.OverlapLaw | checkout/services.py:100-111 | a release or swept hold overlapped by creates erases exactly the tickets they commit on its tier between its read of the counter and its write |
| ConcurrentTheorems.OverlapKeepsCounterExactly | checkout/services.py:100-111 | with creates of at least one ticket, held minus the ACTIVE quantity is what it was if and only if no create on the tier commits between that read and that write |
| ConcurrentTheorems.CommitIsSerialCreate | checkout/services.py:65-78 | a commit writes the tiers and holds that the serial create would write in the same database, unless its guard would by then refuse |
| ClosedTiers.ClosedRefuses | checkout/services.py:65-68 | with requests of at least n tickets, no create for a ticket passes the stock check of a tier with fewer than n tickets neither sold nor leaked |
| ClosedTiers.RunKeepsClosed | checkout/services.py:51-111 | and such a tier stays so over every interleaving of creates, releases and sweeps |
| GuardTheorems.BoundOnOpenTiers | checkout/services.py:51-66 | with requests of at least n tickets, every interleaving keeps ACTIVE holds plus creates past the guard within MAX - 1 + number of the event's tiers that are not closed in this way |
| GuardTheorems.MostHoldsReached | checkout/services.py:51-66 | if there is such a tier, some interleaving of such requests takes the user to that many ACTIVE holds |
| GuardTheorems.MostHoldsExactly | checkout/services.py:51-66 | so that number is the exact maximum over all interleavings of such requests, from any state at rest within the limit whose counters cover their holds |
| GuardTheorems.LimitHoldsExactly | checkout/services.py:9 | the documented limit of two survives every interleaving of requests of at least n tickets if and only if at most one tier of the event has n tickets neither sold nor leaked |
| RestTheorems.RunsComeToRest | checkout/services.py:39-113 | every serial run ends in a state at rest, within the limit, whose counters cover their holds, so these results apply after it |
| RestTheorems.LimitAfterRuns | checkout/services.py:9 | after every serial run the documented limit survives concurrency under exactly that condition |
| OversellTheorems.LostUpdate | checkout/services.py:100-111 | a release around a committing create takes its own quantity out of the counter and the create's with it, while the ACTIVE quantity keeps the create's |
| OversellTheorems.LostUpdateOversells | checkout/services.py:11 | a create for everything that then looks available takes sold plus ACTIVE to the total plus the erased quantity, less what the counter had leaked: an exact counter is oversold by exactly the erased quantity |
| OversellTheorems.OversellReached | checkout/services.py:11 | if a tier has a ticket neither sold nor leaked, some interleaving oversells it by any given number of tickets |
| OversellTheorems.OversellExactly | checkout/services.py:11 | from a state at rest whose counters cover their holds, some interleaving oversells a tier if and only if the tier has a ticket neither sold nor leaked |
| RestTheorems.OversellAfterRuns | checkout/services.py:11 | so after every serial run exactly when sold plus everything sweeps have lost is below the total |
| LruCache.LRUCache.Get | events/lru_cache.py:30-36 | returns the stored value or nothing; a hit moves the key to the newest end and changes no value |
| LruCache.LRUCache.Set | events/lru_cache.py:38-45 | stores the value under the newest key and evicts the oldest key if the capacity is then exceeded |
| LruCache.LRUCache.Invalidate | events/lru_cache.py:47-50 | removes exactly this key, the order of the others kept |
| LruCache.LRUCache.Len | events/lru_cache.py:52-53 | the number of keys in the recency order |
| LruTheorems.SizeBounded | events/lru_cache.py:44-45 | over every trace the size never exceeds the capacity, for any capacity including negative ones |
| LruTheorems.Inclusion | events/lru_cache.py:30-50 | two capacities c <= d on one trace: the smaller cache is the larger restricted to its keys, same order, same values, and never has more free slots |
| LruTheorems.MoreCapacityMoreHits | events/lru_cache.py:30-36 | on every trace the larger capacity has at least as many hits |
| LruTheorems.ForgetsNothingExactly | events/lru_cache.py:38-50 | at every point of a trace the cache is the unbounded map of last set values if and only if at no point that map exceeds the capacity |
| LruTheorems.NeverStale | events/lru_cache.py:38-50 | whatever the capacity, a cached value is the one last set and not invalidated since |
| LruTheorems.OrderedByLastUse | events/lru_cache.py:35-43 | the keys are at all times ordered by the last operation that read or set them |
| LruTheorems.VictimIsLeastRecentlyUsed | events/lru_cache.py:44-45 | an evicted key was used longer ago than every key that stays |
| LruTheorems.Retention | events/lru_cache.py:38-50 | a freshly used key survives, with its last set value, every trace that does not invalidate it and touches fewer than capacity other keys |
| LruTheorems.UsedIsNewest | events/lru_cache.py:34-43 | a hit, and a set with room for at least one entry, make their key the newest |
| LruTheorems.RetentionExactly | events/lru_cache.py:44-45 | after sets of other keys only, the key is still there if and only if fewer than capacity distinct ones were set |
| RateLimiter.RateLimiter.IsAllowed | core/rate_limiter.py:27-45 | the decision, the count returned and the stored counters: a refused request changes nothing, the first one opens a window, later ones keep its deadline |
| RateLimiter.RateLimiter.Remaining | core/rate_limiter.py:47-49 | how many requests the key has left, never negative, changing nothing |
| RateLimiter.DocumentedKey | core/rate_limiter.py:8 | the key of the documented example |
| RateLimiter.KeysApart | core/rate_limiter.py:24-25 | limiters whose scopes contain no colon share a key only if scope and identifier are equal |
| RateTheorems.WindowBound | core/rate_limiter.py:36-45 | no trace gets more than 2 * limit - 1 requests of a key admitted in one window's length, wherever it starts (limit, if the window is one tick; none, if limit or window is not positive) |
| RateTheorems.WorstTraceAdmitted | core/rate_limiter.py:36-45 | that many are reached, for every positive limit and window |
| RateTheorems.SlidingPromiseExactly | core/rate_limiter.py:5 | "at most limit in every window's length" holds if and only if the limit is at most one or the window at most one tick |
| RateTheorems.CountIsAdmittedSinceOpening | core/rate_limiter.py:36-45 | the stored count is the number of requests admitted since the key's window opened; none has been admitted from its deadline on |
| RateTheorems.LiveWindowAdmitsExactlyLeft | core/rate_limiter.py:36-49 | while a window is live, exactly the first remaining() requests of the key are admitted |
| RateTheorems.BurstAdmitsExactlyLeft | core/rate_limiter.py:36-49 | whatever the cache holds, live window or not, exactly remaining() of any number of requests of the key at that instant are admitted |
| RateTheorems.LeftExactly | core/rate_limiter.py:47-49 | remaining() is the limit less the stored count while the counter is live and the whole limit otherwise, never negative |
| RateTheorems.EmptyWindowAdmitsAll | core/rate_limiter.py:41-42 | with a window that is not positive every request is admitted |
| RateTheorems.OtherKeysDoNotMatter | core/rate_limiter.py:24-45 | a key's counter and admissions are those of its own requests alone |
| TierSelector.BisectRight | inventory/tier_selector.py:51 | on a sorted list, the end of the prices up to the budget |
| TierSelector.BisectLeft | inventory/tier_selector.py:65 | on a sorted list, the end of the prices below the given one |
| TierSelector.TierSelector.SelectForBudget | inventory/tier_selector.py:35-60 | on a price-sorted list the answer equals a full linear scan's, for every budget and clock |
| TierSelector.TierSelector.SelectExact | inventory/tier_selector.py:62-68 | any answer has the price; on a sorted list it is the leftmost such tier, and nothing only if there is none; on any list it is the tier where the bisection ends, if that has the price |
| TierSelector.ScanFindsBest | inventory/tier_selector.py:37 | the reference scan finds the rightmost sellable tier of maximal price within budget, and nothing exactly when none fits |
| TierSelector.SearchIsScan | inventory/tier_selector.py:49-60 | search and scan are the same function on sorted lists |
| TierSelector.AgreementNeedsOrder | inventory/tier_selector.py:9-10 | on any list, if the search is right for every budget, the tiers that some budget should pick stand in price order |
| TierSelector.AgreesExactlyIfSorted | inventory/tier_selector.py:9-10 | among sellable tiers of different prices the search is right for every budget if and only if the list is sorted |
| TierSelector.TableOrderIsPriceOrderExactly | inventory/models.py:25 | the table's own order is price order if and only if no tier with a lower sort order is dearer |
| TierSelector.TableOrderCanHideATier | inventory/models.py:25 | a concrete list in the table's order on which the search finds nothing although a tier fits |
| BloomGuard.BloomFilter.constructor | checkin/bloom_guard.py:23-34 | a new filter, of any size, has the given parameters and no bit set |
| BloomGuard.BloomFilter.Mark | checkin/bloom_guard.py:46 | sets exactly this bit |
| BloomGuard.BloomFilter.MarkHashes | checkin/bloom_guard.py:45-46 | the loop sets exactly the item's positions |
| BloomGuard.BloomFilter.Add | checkin/bloom_guard.py:36-46 | sets exactly the bits at the item's hashes taken modulo the size and clears none; with a size of zero and at least one hash it raises and changes nothing |
| BloomGuard.BloomFilter.Contains | checkin/bloom_guard.py:36-56 | true exactly when the bit at each hash of the item, modulo the size, is set, changing nothing; raises exactly where Add does |
| BloomGuard.BitsExactly | checkin/bloom_guard.py:36-46 | after any adds a bit is set exactly when some hash of some added item, modulo the size, is its position |
| BloomGuard.ReportedExactly | checkin/bloom_guard.py:36-56 | after any adds an item is reported exactly when each of its hashes equals, modulo the size, some hash of some added item |
| BloomGuard.NeverForgets | checkin/bloom_guard.py:53 | an added item is always reported: no false negative |
| BloomGuard.OnlyTheItemsMatter | checkin/bloom_guard.py:43-46 | order and repetition of the adds do not matter |
| BloomGuard.BitsBounded | checkin/bloom_guard.py:43-46 | the number of set bits is at most the size and at most hash_count times the number of distinct items added |

## Left out

- Confirming a hold, issuing, transferring and checking in tickets: no code in the repository performs these steps on the modelled rows, so runs start from any state that meets the invariant and none of these steps is invented.
- Refunds as concurrent steps: the interleaving model has creates, releases and sweeps only.
- In the interleaving model a release publishes its two writes one after the other, as the sweep does, and hold rows are not locked, which allows more interleavings than the program has; the interleavings that reach a bound use one release and one sweep of a hold, as the program can run them. Clocks, the registry, the expiry set and the caches are not part of that model.
- Redis eviction, persistence and failures between the database and Redis writes: the cache keeps what it is given until its deadline, and a service's writes to it happen with its transaction.
- Clock skew: the sweep and the timeout may read any clock, but the cache server is assumed to receive a registry entry no earlier than the program computed its time-to-live.
- The audit row itself, the refund's reason and actor, log lines and task return dictionaries beyond the counts and receipts stated.
- JSON and ISO encodings of registry entries, key prefixes other than the limiter's, microsecond rounding of float timestamps and float rounding of prices (prices are cents).
- `CheckoutHold.save` filling in a missing expiry: every hold the services create has one.
- Rate limiter calls racing each other between `get` and `incr`: each call is one step, and a counter does not expire in the middle of it.
- Python's `bisect` routines are not part of the repository; their loops are modelled as the standard library documents them.
- SHA-256 and the text encoding of items: the Bloom filter's hash is an arbitrary function, and no false-positive rate is claimed.
- A stored `None` in the LRU cache, which its caller cannot tell from a miss; the lock around each method, which makes the methods atomic.
- The slug index, the scan registry, the idempotency store, payment providers, webhooks, views, serializers, permissions and settings: wrappers and framework plumbing with no deeper property than the ones above.
