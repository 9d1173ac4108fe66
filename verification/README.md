# Gate: a verified model of its rate limiter

Gate is a distributed rate limiter. A hub's ledger grants blocks of tokens (leases) to edges, edges spend them
locally, regions lend each other allocation, and the network may lose, delay or repeat anything. This project models
that protocol and its satellites in Dafny and proves what Gate promises of them: above all that no window of the
hub's clock ever admits more than its quota (README.md:44), in every run rather than in sampled ones.

`dafny verify dfyconfig.toml` checks everything.

How it is laid out:

- `Numbers`, `Ledger`, `Grants`: requests reduced to numbers, and the arithmetic of one grant and one return.
- `Mem` (module `MemLedger`), `Redis` (module `RedisLedger`), `Refinement`: the in-process ledger as a class over maps,
  the Lua scripts over keys that expire, and the proof that the scripts answer as the maps do.
- `Traces`, `Windows`, `Sliding`, `Bucket`, `RetryHints`, `Endgame`: runs of one ledger and what they keep.
- `Lease`, `Accounts`: an edge's counter as objects and as steps, with double-entry books per window.
- `RegionSplit`, `Hub`, `System`, `HubSteps`, `EdgeSteps`, `Safety`, `Guarantees`: the regions' split of a quota, the
  hub's service, the whole system over a faulty network, its inductive invariant, and what follows from it.
- `ScriptSystem`: the whole system with hubs on the scripts; its runs are runs of the system on the in-process ledger.
- `SettledDebt`, `DebtRuns`: when the documented bound on a window's charges holds, and runs that break it.
- `Reserve`, `Refunds`, `Reserved`: admission against several limits, many reservations on one counter, and on every
  counter of the system.
- `Batches`, `TierCache`, `Descriptors`, `EditDistance`: the other satellites.
- `Sums`: sums over sequences.

Integers are unbounded and fractions are exact (`real`). Times are whole milliseconds since the epoch; every clock
has a constant offset, and a ledger's clock never goes back. Quotas keep their limit, window and horizon during a run.
Hashes are uninterpreted, ledger keys are values of a datatype rather than strings, and what the hub's config says of
a request is an input. Each of an edge's methods, and each section the batcher or the tier cache runs under its lock,
is one atomic step.

Where a promise turned out not to hold as written, the code is modelled as it is, a lemma gives a run or an input that
breaks the promise, and another says when it does hold:

- A sliding window's retry hint points at an instant with capacity exactly when the current window's own counter is
  below the limit (`RetryHints.SlidingRetrySound`, `RetryHints.FullWindowHintTooEarly`).
- A token bucket's last tokens are all handed out, however they are asked for, exactly when there is at most one or
  there is time left for the last at its interval and for the others at a rounded-up interval each
  (`Endgame.RushExhausts`, `Endgame.BucketRoundingLosesAToken`).
- docs/adr/0009-reservations-and-debt.md bounds a window's charges by the quota and one `max_debt` per edge. That holds
  of every run whose drains find no debt (`SettledDebt.DebtBoundHolds`). Debt that a drain settles with the hub can be
  run up once more by a request that settles afterwards, so in runs that drain every counter at most once in each of
  its windows the bound is the quota and two `max_debt` per edge (`SettledDebt.DebtBoundOnce`). Every deployment of one
  region has a run that drains every counter once and charges a window exactly that (`DebtRuns.DebtBoundFails`,
  `DebtRuns.TenAndFive`). What always holds adds the debt that was settled (`Guarantees.GlobalSafety`).
- A limit's name leads back to it exactly when the name is not empty (`Descriptors.RoundTrip`,
  `Descriptors.EmptyNameIsLost`); config validation refuses the keys that make it empty.
- Two descriptors that name the same counter are the same exactly when their wildcard values are empty in the same
  places and have as many NULs (`Descriptors.SubjectsDistinguish`, `Descriptors.BlankValuesCollide`,
  `Descriptors.NulValuesCollide`).

## Model

| member | source | states |
|---|---|---|
| `Guarantees.GlobalSafety` | testing/sim/sim.go:345-379 | in every run, over any network and any clocks, what all edges of all regions charge to one window is at most the quota, plus debt settled with the hub, plus one debt bound per counter |
| `Guarantees.NoWindowAdmitsMoreThanQuota` | testing/sim/region.go:194-208 | without charges after the fact, no window admits more than the global quota across all regions |
| `Guarantees.LeaseConservation` | packages/limiter/lease.go:258-299 | charged cost, tokens held, tokens in undelivered answers and tokens in unapplied returns all come out of the ledger's counter (up to debt), and the counter less debt is within what the region may grant |
| `Guarantees.CounterCoversAll` | packages/limiter/lease.go:359-402 | without charges after the fact the counter covers all four and is itself within the quota |
| `Guarantees.RegionalAllocation` | packages/ledger/region.go:85-128 | in every state each region's use, less debt returned, is within its base plus its adjustment, and all allocations plus transfers debited and not credited add up to exactly the quota |
| `Guarantees.TransfersHappenOnce` | packages/ledger/region.go:85-128 | in every run a repeated lend gives the first answer again (or nothing outside its window) and debits nothing; a repeated or late credit adds nothing |
| `Guarantees.LendKeepsWhatIsNeeded` | packages/hub/quota_lease_server.go:253-275 | a lend never cuts the lender below its use plus what that use projects to by the window's end |
| `Guarantees.SplitIsSensible` | packages/region/region.go:29-42 | the allocations every region computes on its own are non-negative and sum to the quota, so the system starts from them |
| `Guarantees.ClockIndependence` | packages/limiter/lease.go:447-453 | in every run, for any clock offsets and delays, a token is spent only before its window ends on the hub's clock |
| `Guarantees.WindowsNeverGoBack` | packages/limiter/lease.go:484-538 | over a run an edge's window id never decreases |
| `Guarantees.ReturnsNameStartedWindows` | packages/limiter/lease.go:263-275 | in every run no edge, answer or return names a window its hub has not entered |
| `Safety.ServeKeeps` | packages/hub/quota_lease_server.go:51-63 | serving a lease request, any number of times, keeps the invariant |
| `Safety.DeliverKeeps` | packages/limiter/lease.go:484-538 | an answer that arrives, however late, keeps the invariant |
| `Safety.SpendKeeps` | packages/limiter/lease.go:359-402 | takes, refunds, extra charges and rolls keep the invariant |
| `Safety.DrainKeeps` | packages/limiter/lease.go:258-299 | swapping a balance out moves its tokens into a return: nothing is both spent and returned |
| `Safety.ArriveKeeps` | packages/ledger/mem.go:160-201 | a return that arrives, any number of times, is credited once and to its own window |
| `Safety.LendKeeps` | packages/ledger/region.go:85-110 | a lend debits first and keeps the sum of allocations |
| `Safety.LendAgain` | packages/ledger/region.go:85-110 | a lend already recorded, or out of its window, changes no ledger |
| `Safety.CreditKeeps` | packages/ledger/region.go:112-128 | a credit moves a transfer out of transit once |
| `Safety.OtherKeeps` | packages/ledger/mem.go:45-201 | traffic on other quotas never touches this one |
| `Safety.AnswerLife` | packages/limiter/lease.go:447-453 | the life an edge will give an answer, counted from when it asked, ends with the hub's window |
| `Safety.StepKeeps` | packages/limiter/lease.go:134-207 | every step of the system keeps the invariant |
| `Safety.RunKeeps` | testing/sim/sim.go:345-379 | the invariant holds in every state of every run |
| `HubSteps.ServeFits` | packages/ledger/mem.go:68-84 | a windowed grant fits in what the region has left, for fixed, sliding and regional quotas |
| `HubSteps.ArriveCounts` | packages/ledger/mem.go:172-201 | a return changes its window's counter the first time only, and only while the window is current |
| `HubSteps.LendMoves` | packages/ledger/region.go:93-109 | a first lend takes from the allocation what it gives, and leaves use and projected use covered |
| `HubSteps.CreditMoves` | packages/ledger/region.go:112-128 | a credit adds what was given, once, in its own window |
| `EdgeSteps.KeptAfter` | packages/limiter/lease.go:258-299 | only an accepted answer brings a window's tokens in, and only a drain sends them back |
| `EdgeSteps.LifeAfter` | packages/limiter/lease.go:534-535 | a balance never outlives the window it came from |
| `Refinement.ScriptsAnswerAsMem` | packages/ledger/redis.go:17-166 | over every sequence of grants, returns, lends and credits at times that never go back, the scripts over expiring keys answer exactly as the maps that never forget |
| `ScriptSystem.ScriptRunsAreRuns` | packages/ledger/redis.go:17-166 | every run of the whole system with hubs on the scripts over expiring keys is a run of the system with hubs on ledgers that never forget, with the same edges, requests, answers, returns and transfers in every state |
| `ScriptSystem.ScriptSafety` | packages/ledger/redis.go:17-166 | global safety, and without charges after the fact no window above its quota, in every run of the system on the scripts |
| `ScriptSystem.LedgerFollows` | packages/ledger/redis.go:17-166 | whatever a script answers, a related ledger that never forgets can answer the same and stay related |
| `Refinement.SameReads` | packages/ledger/redis.go:31-84 | both ledgers read the same numbers for a grant: no key has expired that could change an answer |
| `Refinement.AskKeeps` | packages/ledger/redis.go:17-123 | a grant gives the same answer and leaves the stores related |
| `Refinement.ReturnKeeps` | packages/ledger/redis.go:129-166 | a return, first or repeated, leaves the stores related even after its dedupe key expired |
| `Refinement.LateCopyMissesItsWindow` | packages/ledger/args.go:121-124 | once a dedupe key has expired the window it protected is over |
| `Refinement.LendKeeps` | packages/ledger/region.go:33-56 | a lend gives the same amount and leaves the stores related |
| `Refinement.CreditKeeps` | packages/ledger/region.go:58-68 | a credit succeeds in both or in neither and leaves the stores related |
| `Refinement.RegisterKeeps` | packages/ledger/redis.go:76-84 | pruning on one side and expiry on the other lose only edges that no longer count |
| `Refinement.RunRefines` | packages/ledger/redis.go:17-166 | after every run the two stores are related |
| `RedisLedger.Redis.Grant` | packages/ledger/redis.go:17-123 | the script computes the shared grant arithmetic over what is live, and its writes and lifetimes |
| `RedisLedger.Redis.Register` | packages/ledger/redis.go:77-84 | the edge is scored now and exactly the active edges are counted |
| `RedisLedger.Redis.Return` | packages/ledger/redis.go:129-166 | a return is applied unless its dedupe key is live |
| `RedisLedger.Redis.Lend` | packages/ledger/region.go:33-56 | the script's answer and its new database |
| `RedisLedger.Redis.Credit` | packages/ledger/region.go:58-68 | the script's answer and its new database |
| `MemLedger.Mem.Grant` | packages/ledger/mem.go:45-158 | a bad spec changes nothing; otherwise the answer, counters and edges are those of the grant arithmetic over the old state |
| `MemLedger.Mem.GrantPrepared` | packages/ledger/mem.go:54-157 | the answer, the charged values and the registered edges |
| `MemLedger.Mem.KeyLeft` | packages/ledger/mem.go:57-84 | what each algorithm has left, and the numbers a denial reports |
| `MemLedger.Mem.CountActive` | packages/ledger/mem.go:107-115 | exactly the active edges are counted; only stale ones are forgotten, and only while more than 64 are known |
| `MemLedger.Mem.Charge` | packages/ledger/mem.go:146-157 | the quota and its parent are charged the same amount |
| `MemLedger.Mem.ReturnPrepared` | packages/ledger/mem.go:169-192 | one return's effect, or none when its id was seen |
| `MemLedger.Mem.Return` | packages/ledger/mem.go:160-194 | the returns are applied in order up to the first bad spec |
| `MemLedger.Mem.Lend` | packages/ledger/region.go:85-110 | the lend's answer and the new state |
| `MemLedger.Mem.Credit` | packages/ledger/region.go:112-128 | whether it was credited and the new state |
| `Grants.RetryAfter` | packages/ledger/mem.go:118-137 | the retry hint of each algorithm and of a binding parent |
| `Grants.Split` | packages/ledger/mem.go:140-144 | the grant near the end of a quota |
| `Ledger.Prepare` | packages/ledger/args.go:34-71 | a request is reduced exactly when its spec, region and parent can be enforced; the result has the spec's limit and window (at least a second), the parent's, and a target within the limit: a target over it is cut to a quarter |
| `Ledger.PrepareReturn` | packages/ledger/args.go:102-126 | a return is reduced exactly when its spec is valid; its dedupe lifetime covers two of its windows |
| `Ledger.GrantArgs.Target` | packages/ledger/ledger.go:222-237 | the least that covers the request, the observed demand and the configured minimum, cut to the configured maximum and at least one |
| `Traces.CountAfterGrant` | packages/ledger/mem.go:146-157 | a grant adds to its own window's counter and its parent's, and to no other |
| `Traces.CountAfterReturn` | packages/ledger/mem.go:186-201 | a return lowers the windows it names while they are current, and no other counter |
| `Windows.GrantFits` | packages/ledger/mem.go:86-98 | a grant is between one token and all that quota and parent have left |
| `Windows.NoWindowOverQuota` | packages/ledger/mem.go:45-158 | in every run of a ledger no window of a fixed quota, or of an organisation's budget, is over its limit |
| `Sliding.TimePasses` | packages/ledger/mem.go:68-84 | time alone keeps the sliding estimate within the limit: inside a window, across a roll, over an idle gap |
| `Sliding.StepKeepsSliding` | packages/ledger/mem.go:152-201 | so does every operation without debt |
| `Sliding.SlidingWindowHolds` | packages/ledger/mem.go:68-84 | at every instant of every run without debt returns, the current count plus the decayed previous one is within the limit |
| `Bucket.StepMovesTat` | packages/ledger/mem.go:175-185 | every step moves the bucket's time by at least its net tokens' worth: ceilings and clamps only push it later |
| `Bucket.GrantWithinBurst` | packages/ledger/mem.go:58-67 | a grant leads, before rounding, to a time within the burst of the clock |
| `Bucket.RateBound` | packages/ledger/mem.go:146-150 | between any two instants of any run, net tokens measured at a grant are at most burst + rate × time |
| `Bucket.RateBoundAnywhere` | packages/ledger/mem.go:175-185 | without debt returns the bound holds between any two instants |
| `RetryHints.BucketRetrySoundAndTight` | packages/ledger/mem.go:118-124 | after a bucket denies, a token exists exactly from the hint on and at no earlier millisecond |
| `RetryHints.RunCounts` | packages/ledger/mem.go:152-201 | in every run, with debt or without, counters are not negative and windows that have not started are empty |
| `RetryHints.SlidingRetrySound` | packages/ledger/mem.go:125-129 | after a sliding window denies, over its limit or at it, a token exists at the hint if and only if the current counter is below the limit |
| `RetryHints.SlidingRetryTight` | packages/ledger/mem.go:125-129 | when neither the floor nor the reset cap applies, no earlier millisecond has a token |
| `RetryHints.FullWindowHintTooEarly` | packages/ledger/mem.go:130-131 | a full window whose hint points at an instant with nothing left |
| `Endgame.FairShare` | packages/ledger/mem.go:140-144 | at least one token while any is left, never more than key or parent have, and near the end no more than an equal share rounded up |
| `Endgame.RushConserves` | packages/ledger/mem.go:100-157 | over a run of asks what was handed out and what is left never exceed what there was, and equal it where nothing is rounded |
| `Endgame.RushHandsOut` | packages/ledger/mem.go:140-157 | k asks hand out at least k tokens that can be spared, and no run of asks more than was left |
| `Endgame.RushExhausts` | packages/ledger/mem.go:140-157 | every run of at least as many asks as tokens left hands out exactly those, if and only if the quota is a window, or a bucket with at most one token or with room for the last at its interval and the others at a rounded-up interval each |
| `Endgame.NothingAfterTheRush` | packages/ledger/mem.go:140-157 | after as many asks as there were tokens left every later answer is zero |
| `Endgame.BucketRoundingLosesAToken` | packages/ledger/mem.go:146-150 | three tokens a second: three asks for one each get two of three |
| `Lease.Held.TakeTokens` | packages/limiter/lease.go:359-377 | a take spends the cost from an unexpired balance or spends nothing; an expired balance keeps only its debt |
| `Lease.Held.AdjustCharge` | packages/limiter/lease.go:383-402 | a refund to a replaced balance is dropped, an extra charge goes to the current one, debt stops at the bound |
| `Lease.LeaseCounter.Install` | packages/limiter/lease.go:335-348 | a new window starts with the old one's debt and none of its tokens |
| `Lease.LeaseCounter.Reset` | packages/limiter/lease.go:319-331 | a window rolls once its reset time has passed; a bucket only forgets its waiting |
| `Lease.LeaseCounter.AcceptAnswer` | packages/limiter/lease.go:484-538 | an answer for an older window is ignored, for a newer one installs it, and adds its tokens with a life counted from when the request left |
| `Lease.LeaseCounter.SwapOut` | packages/limiter/lease.go:263-275 | a drain takes the whole balance and returns all but dead tokens |
| `Lease.LeaseCounter.Refill` | packages/limiter/lease.go:166-179 | one miss is one fetch and one more take |
| `Lease.LeaseCounter.Allow` | packages/limiter/lease.go:134-207 | a decision is a sequence of the counter's steps with exactly one successful take when it allows and none when it does not; a fixed window never admits more than its limit on one edge |
| `Accounts.EntryBalances` | packages/limiter/lease.go:359-402 | what a step enters in its window's book is what the balance loses |
| `Accounts.InstallBalances` | packages/limiter/lease.go:335-348 | moving to a newer window closes one book, drops its tokens and carries its debt into the other |
| `Accounts.StepBalances` | packages/limiter/lease.go:383-402 | every step keeps every window's book balanced and never moves to an earlier window |
| `Accounts.RunBalances` | testing/sim/sim.go:348-352 | after any sequence of steps the balance is at least minus the debt bound and charged = accepted − returned − dropped − balance, plus debt settled and carried |
| `Accounts.ChargesBounded` | packages/limiter/lease.go:263-275 | charges and tokens held in a window are within the tokens kept of its grants, plus debt settled and the bound |
| `Accounts.NothingCrossesARoll` | packages/limiter/lease.go:319-348 | no positive token crosses a roll |
| `SettledDebt.DebtBoundHolds` | docs/adr/0009-reservations-and-debt.md:24 | in every run whose drains find no debt, nothing is settled and a window's charges are within the quota and one debt bound per counter |
| `SettledDebt.DebtBoundOnce` | packages/limiter/lease.go:258-299 | in every run that drains each counter at most once in each of its windows, a window's charges are within the quota and two debt bounds per counter |
| `DebtRuns.DebtBoundFails` | packages/limiter/lease.go:263-275 | every deployment of one region with edges and a debt bound has a run, in which every re-charge is the one settlement of an admitted request and every counter is drained at most once, that charges a window the quota and two debt bounds per counter |
| `DebtRuns.TenAndFive` | docs/adr/0009-reservations-and-debt.md:24 | for a quota of ten, one edge and a debt bound of five, a run with at most one drain, and at most one settlement per request, charges a window twenty |
| `RegionSplit.Base` | packages/region/region.go:29-42 | the loop computes a region's floor, plus the remainder at the subject's home |
| `RegionSplit.Home` | packages/region/region.go:51-60 | the loop finds the region that beats all others |
| `RegionSplit.Names` | packages/region/region.go:63-70 | the regions in ascending order, each once |
| `RegionSplit.HomeIsUnique` | packages/region/region.go:51-60 | every region computes the same home, whatever order it sees the others in |
| `RegionSplit.AddingARegion` | packages/region/region.go:51-60 | adding a region moves a subject's home only to that region |
| `RegionSplit.BasesSumToQuota` | packages/region/region.go:29-42 | over all regions the allocations sum to exactly the quota |
| `RegionSplit.BasesNonNegative` | packages/region/region.go:29-46 | with shares of at most one in all no allocation is negative |
| `Hub.GrantOne` | packages/hub/quota_lease_server.go:51-63 | one request's grant on the ledger, and its answer or its refusal |
| `Hub.ResolveAll` | packages/hub/quota_lease_server.go:77-89 | exactly the requests that resolve are picked, in order, each with its own index |
| `Hub.RequestQuotaLeases` | packages/hub/quota_lease_server.go:76-99 | a batch is exactly its single requests one after another, every answer in its own request's place |
| `Reserve.ReserveAll` | packages/limiter/reserve.go:40-83 | a request is admitted exactly when no enforced check fails or denies; a denial or an error leaves the net of its effects on every counter at zero; the binding decision is the first denier or the enforced check with the least share left |
| `Reserve.Reservation.Rollback` | packages/limiter/reserve.go:93-100 | every charge made so far is refunded |
| `Reserve.Reservation.Settle` | packages/limiter/reserve.go:105-115 | after any number of calls each admitting check is charged exactly the first actual cost |
| `Reserve.Reservation.Adjust` | packages/limiter/limiter.go:89-93 | a charge or re-charge changes the net of its own counter and of no other, and never refunds more than was admitted |
| `Reserve.Bind` | packages/limiter/reserve.go:69-81 | the enforced check with the least share left, the first of several; the first check when all are shadow checks |
| `Reserve.ShadowNeverDecides` | packages/limiter/reserve.go:49-67 | a request is admitted exactly when it is without any one of its shadow checks |
| `Refunds.NetIsBooked` | packages/limiter/lease.go:383-402 | a reservation's net on a balance is what its steps entered in the books, or more where its debt bound cut a charge, whatever came in between |
| `Refunds.DenialLeavesNoCharge` | packages/limiter/reserve.go:93-100 | a denied or failed reservation, whose log is what it did to a counter, leaves the current window's book as the other requests made it |
| `Refunds.SettlingChargesActualCost` | packages/limiter/reserve.go:105-115 | a settled one has charged each admitting limit exactly the first actual cost, or less where the debt bound cut it |
| `Refunds.RefundableCoversClaims` | packages/limiter/lease.go:359-402 | over any run and any number of balances, what may be refunded to the current balance covers all that reservations may still take back |
| `Refunds.RefundsAreLegal` | packages/limiter/reserve.go:93-115 | however reservations interleave on a counter, with each other and with grants, misses, drains and rolls, every refund to a current balance is covered by cost admitted from it and not refunded |
| `Reserved.ReservedRunsAreRuns` | packages/limiter/reserve.go:40-115 | every run of the whole system in which reservations make the refunds is one of the runs all guarantees are about |
| `Reserved.ReservedRunsAreSafe` | testing/sim/sim.go:345-379 | so global safety holds with nothing assumed of refunds |
| `Batches.Batcher.TakeLocked` | packages/limiter/batch.go:86-95 | a batch starts exactly when a call waits and a slot is free |
| `Batches.Batcher.Request` | packages/limiter/batch.go:56-67 | a call is queued last and a batch starts if it can; with a hub that cannot batch it is left to be sent on its own |
| `Batches.Batcher.Requests` | packages/limiter/batch.go:117-120 | position by position, the requests sent are the calls' own |
| `Batches.Batcher.Deliver` | packages/limiter/batch.go:107-141 | every call of a batch gets its part of the answer and is released |
| `Batches.Batcher.RoundTrip` | packages/limiter/batch.go:107-141 | a batch that goes to the hub is served in order from the ledger as it is, and every call gets its own entry |
| `Batches.Batcher.Release` | packages/limiter/batch.go:97-105 | a finished batch frees its slot and starts the next |
| `Batches.StepKeeps` | packages/limiter/batch.go:56-141 | every step keeps the batcher's invariant |
| `Batches.RunKeeps` | packages/limiter/batch.go:56-141 | in every interleaving at most two batches are on their way, a call waits only while both slots are busy, and each call is in exactly one place, released at most once and then with the answer at its own position |
| `Batches.FinishGoesOn` | packages/limiter/batch.go:97-105 | while a call waits, the batch that finishes next starts another |
| `Batches.AnswersOwnRequest` | packages/limiter/batch.go:129-140 | in every run a released call has the outcome at its own position of an exchange, and where the hub answered, that entry is what serving the call's own request on the ledger came to |
| `TierCache.AlwaysCoherent` | packages/hub/tier_cache.go:39-119 | in every interleaving of lookups, writes and invalidations each cached field is the store's own unless a write to its key has not finished its invalidation |
| `TierCache.NoOlderAnswer` | packages/hub/tier_cache.go:46-62 | no lookup that began before an invalidation publishes after it |
| `TierCache.PublishKeeps` | packages/hub/tier_cache.go:64-93 | publishing an answer keeps the cache coherent |
| `TierCache.ForgetKeeps` | packages/hub/tier_cache.go:114-119 | the last step of an invalidation leaves nothing stale behind |
| `TierCache.CachedTiers.Find` | packages/hub/tier_cache.go:39-44 | an entry is used exactly when it is there and young enough |
| `TierCache.CachedTiers.Store1` | packages/hub/tier_cache.go:46-62 | a field is added to a live entry, or nothing is when the generation has moved on |
| `TierCache.CachedTiers.Invalidate` | packages/hub/tier_cache.go:114-119 | the generation moves on and the key is forgotten |
| `Descriptors.Resolve` | packages/decide/decide.go:44-79 | finds the one path a descriptor matches, exact values before wildcards, with its name and its counter's; fails exactly when there is none with a limit |
| `Descriptors.Find` | packages/decide/decide.go:83-108 | finds the one path a name leads to; fails exactly when there is none with a limit |
| `Descriptors.FirstWith` | packages/decide/decide.go:54-59 | the first entry of a level with a key and a value |
| `Descriptors.RoundTrip` | packages/decide/decide.go:83-108 | the name of what a descriptor resolved to leads to the same entry and limit, and to no other, exactly when it is not empty |
| `Descriptors.EmptyName` | packages/config/validate.go:416-447 | the name is empty only for one pair that picked an entry without key and value |
| `Descriptors.EmptyNameIsLost` | packages/decide/decide.go:85-87 | such an entry resolves and cannot be found |
| `Descriptors.SplitJoin` | packages/decide/decide.go:90 | splitting undoes joining for segments without slashes |
| `Descriptors.CutSegment` | packages/decide/decide.go:122-127 | cutting undoes a segment for keys without '=' |
| `Descriptors.SubjectsDistinguish` | packages/decide/decide.go:129-137 | two descriptors on one entry that name the same counter are the same exactly when their wildcard values are alike: empty in the same places, with as many NULs |
| `Descriptors.BlankValuesCollide` | packages/decide/decide.go:53-70 | two descriptors that share a counter because one leaves a value empty that the other gives |
| `Descriptors.NulValuesCollide` | packages/decide/decide.go:135 | two descriptors that share a counter because values are joined by NULs |
| `EditDistance.Distance` | packages/config/load.go:309-327 | the two-row table computes Levenshtein's distance |
| `EditDistance.DistanceIsShortestScript` | packages/config/load.go:309-327 | the distance is the length of the shortest script of inserts, deletes and substitutions |
| `EditDistance.Triangle` | packages/config/load.go:309-327 | the distance obeys the triangle inequality |
| `EditDistance.Suggest` | packages/config/load.go:299-307 | for the word in lower case, the first of the closest candidates when it is at most two edits away, and otherwise the empty string |

## Left out

- DebtRuns.DebtBoundFails: speaks of deployments of one region; with several, a region without edges never spends its base.
- Lease.LeaseCounter.AcceptAnswer: answers of hubs that report no window, or a grant without a lifetime (packages/limiter/lease.go:502-503, 522-531), are not modelled.
- ScriptSystem.ScriptRunsAreRuns: asks that each quota keeps its window and activity horizon, and each dedupe and transfer id its content, for the whole run.
- Refinement.ScriptsAnswerAsMem: a return's dedupe record must outlive its parent's window too, which it does for windowed parents, the only kind the hub names (packages/hub/quota_lease_server.go:223).
- Batches.Batcher.Request: a caller that gives up waiting changes nothing; its call is still answered and released.
- Reserve.Reservation.Adjust: records the call in a log; `Refunds` ties the logs of all reservations to the runs of their counters.
- Reserve.ReserveAll: what each limiter says to each check is an input, so any other traffic may come between two checks; `Fallback.Allow` is not modelled.
- Idle eviction as a step: an edge that evicts a counter and starts another is two counters of the system, so "one debt bound per edge" is one per counter.
- Interleavings inside one method of an edge's counter: the compare-and-swap loops of packages/limiter/lease.go are each one step.
- Floating-point rounding, 64-bit overflow and the textual layout of ledger keys.
- Token-bucket interval bounds and organisation-window bounds at the edge; both are proved at the ledger.
- Retry jitter, demand sampling and failure backoff at the edge.
- When a region's node decides to borrow, and from whom first (packages/region/node.go:94-118); every order of transfers is allowed instead.
- Resolving requests against config, tiers and organisations in the hub; domains of descriptors. The hash of a descriptor's joined values is any function.
- The edge's tier cache, local safety limits and concurrency guards.
- HTTP, gRPC, TLS, Redis and NATS clients, telemetry, analytics, proxying, authentication, and config parsing and validation: mostly plumbing, or single-branch facts.
