# Verified model of the router's admission control and accounting

This project models, in Dafny, the part of the router that decides whether a request may run and that keeps the
books about the requests that did, and proves what that part guarantees. There are two halves.

*Admission.* An upstream admits a call if it is usable (enabled, not paused, healthy, breaker window not open), has a
free concurrency slot, and its token bucket holds a token. The queue manager scans the upstreams in priority order
and, when all refuse, makes the call wait, within a bound, and scan again with exponential backoff. In front of
that, each API key has a request counter, a parallel cap and a budget.

*Accounting.* Beside admission run the sliding-window rate rings, the latency histograms with their per-upstream
breakdown, the reader of token usage in streamed responses, and the usage ledger with its redundant tables.

Everything the source changes in place is a class whose methods are proved against functions on plain values
(`State()` ties the two). Statements about whole runs are lemmas about the same functions. What is concurrent is a
step system in which every atomic operation and every critical section is one step of one task.

| file | contents |
|---|---|
| `Prelude.dfy` | options, 32-bit counters, counting in sequences, totals over maps |
| `TokenBucket.dfy` | the rate limiter and its runs |
| `Upstream.dfy`, `Breaker.dfy` | one upstream; health and breaker over runs |
| `Registry.dfy` | the priority order, the registry, the model filter |
| `Queue.dfy` | the scan, the bounded wait, one dispatch from registry to upstream |
| `AdmissionProtocol.dfy`, `ScanHistory.dfy` | all interleavings of `acquire` and `release`: conservation; which upstreams have refused a task |
| `AttemptRefinement.dfy`, `CallRefinement.dfy` | the protocol against the sequential attempt, scan, release and whole call |
| `KeyGates.dfy`, `BudgetProtocol.dfy` | the gates of a key; interleavings of parallel cap, budget and resets |
| `RateRing.dfy`, `Rates.dfy` | ring buffers against their event log; the set of rings |
| `Histogram.dfy`, `LatencyRollup.dfy` | buckets against order statistics; the labelled breakdown |
| `SseUsage.dfy` | usage accumulation over a chunked body |
| `Ledger.dfy`, `UsageReport.dfy` | memory, counters, events and history; the grouped report |

`dafny verify dfyconfig.toml` checks the whole project.

## Where code and documentation disagree, and other surprises

The model follows the code. The last three points contradict no documentation.

- The comments at `src/upstream/mod.rs:42-43`, `src/upstream/mod.rs:202-204` and `src/config/types.rs:115` promise a
  half-open probe once the breaker's window has passed. There is none: health stays unhealthy until a success
  or an admin reset (`Breaker.AdmissionNeedsRecovery`, `Breaker.NoHalfOpenProbe`).
- `docs/FEATURES.md:196` calls the key's request limit a rolling one-minute window. The code resets a fixed window, so
  twice the limit can pass within one second (`KeyGates.RollingLimitFails`), and no more in a minute before the
  counter's wrap at 2^32 (`KeyGates.PassesPerMinute`). The rolling limit holds over sixty seconds exactly when what
  the old window still had room for and what the new one lets through make at most the limit
  (`KeyGates.RollingLimitIff`).
- `src/config/types.rs:71` says an empty model list forwards everything. As soon as one upstream of the kind lists
  models, upstreams with an empty list are passed over for every named model
  (`Registry.FilterUpstreamsForModel`).
- The comment on `RateRing::sum` (`src/metrics.rs:965`) promises the total of the window that ends at the given second.
  For a second after the last event the buckets that have left the window still count, and the answer is exact if
  and only if they total zero or the counter saturates (`RateRings.SumExactIff`). In the first `window - 1` seconds of the clock bucket zero is read
  repeatedly, and the answer is exact if and only if second zero had no event or the counter saturates
  (`RateRings.EarlySumExactIff`); the
  only callers pass Unix time (`src/metrics.rs:467`, `src/metrics.rs:1022`), so those seconds are never read in service.
- `examples/config.sample.toml:37` says a `max_budget` of 0 is unlimited. The code compares the spend with it and refuses every
  request (`src/auth/mod.rs:402-407`): nothing is ever spent and nobody passes (`BudgetProtocol.NothingIsSpent`,
  `BudgetProtocol.ServiceIff`).
- `examples/config.sample.toml:39` lists "1mo" as a reset period. The parser takes the last character as the unit and finds no
  number before it (`src/auth/mod.rs:456-462`), so such a key is never reset; the parser is not part of this model,
  which starts from the parsed period.
- A rate limit of one to nine requests a minute admits nothing, ever: the bucket cannot hold a whole token
  (`TokenBucket.AdmitsAnythingIffAtLeastTen`).
- A budget refusal keeps the parallel slot it took (`src/auth/mod.rs:374-408`), as do the handlers that return early. So
  the slots counted equal the requests under way if and only if there was no such request
  (`BudgetProtocol.SlotsAreOutstandingIff`). Leaked slots never come back, and once they fill the cap the key is locked
  out for good, budget resets notwithstanding (`BudgetProtocol.LeaksLockOut`). Until then it can be served exactly as
  long as its budget is positive and either not used up or reset after a period (`BudgetProtocol.ServiceIff`); without a
  period a used-up budget refuses for good (`BudgetProtocol.UsedUpForGood`). Budget refusals alone get there exactly when there is no budget or a cost to
  record (`BudgetProtocol.LockOutIsReachedIff`).
- The budget reset inside `authorize` clears the spend in memory and leaves the stored spend alone, while the
  background task clears both. What memory has forgotten then stays the difference between the two
  (`Ledger.MemoryTracksLedger`), so they are in step right after such a reset if and only if nothing was stored
  (`Ledger.MemoryResetInStepIff`).

## Model

| member | source | states |
|---|---|---|
| `TokenBucket.RateBucket.constructor` | src/upstream/mod.rs:57-66 | A new bucket holds rpm/10 tokens, which is its capacity |
| `TokenBucket.RateBucket.Take` | src/upstream/mod.rs:165-178 | The critical section refills by elapsed time up to the capacity and pays one token exactly if it holds one; tokens stay within the capacity |
| `TokenBucket.AdmitsExactly` | src/upstream/mod.rs:165-178 | Over any run, a call is admitted if and only if, for every earlier or equal call, one more admission since then fits in rpm/10 tokens plus what the time since then issues at rpm/60 a second |
| `TokenBucket.IssuedIsProduct` | src/upstream/mod.rs:62-66 | The tokens issued in a stretch of time are its length times rpm/60 |
| `TokenBucket.WindowBound` | src/upstream/mod.rs:57-66 | Admissions in any window of calls never exceed rpm/10 plus rpm/60 times the window's length |
| `TokenBucket.SuffixBound` | src/upstream/mod.rs:57-66 | The same for all calls after any point of a run, between any two instants that enclose them |
| `TokenBucket.RunBound` | src/upstream/mod.rs:57-66 | The same for the whole lifetime of a bucket |
| `TokenBucket.BucketIsMaximal` | src/upstream/mod.rs:165-178 | No admission policy that keeps every window within the limit is ever ahead of the bucket, at any point of any run |
| `TokenBucket.TokensStayInRange` | src/upstream/mod.rs:169-174 | Tokens never leave the range from zero to the capacity, whatever the clock does |
| `TokenBucket.ProgressAfterGap` | src/upstream/mod.rs:165-178 | With ten requests a minute or more, a call at least 60/rpm seconds after its predecessor is admitted |
| `TokenBucket.AdmitsAnythingIffAtLeastTen` | src/upstream/mod.rs:57-66 | For every limit, some run admits a request if and only if the limit is at least ten a minute |
| `Upstreams.Upstream.FromConfig` | src/upstream/mod.rs:56-86 | A new upstream is healthy, idle, without failures or open window, with a full bucket |
| `Upstreams.Upstream.Become` | src/upstream/mod.rs:14-45 | Other tasks may leave an upstream in any state whose bucket holds between nothing and its capacity |
| `Upstreams.Upstream.IsUsable` | src/upstream/mod.rs:120-143 | Usable exactly if enabled, not paused, not unhealthy, past the open window, and below the cap when there is one |
| `Upstreams.Upstream.TryAcquire` | src/upstream/mod.rs:145-182 | Admits exactly if usable and the bucket pays; an admitted call holds one slot, a call refused by the bucket gives its slot back |
| `Upstreams.AfterAttempt` | src/upstream/mod.rs:145-182 | A refused call spends neither a slot nor a token: at most the lazy refill remains of it |
| `Upstreams.Upstream.Release` | src/upstream/mod.rs:184-189 | One request less in flight if there is a cap, on a counter of 32 bits |
| `Upstreams.ReleaseUndoesAttempt` | src/upstream/mod.rs:145-189 | An admitted attempt takes one slot if there is a cap, and the release after it gives back exactly that |
| `Upstreams.Upstream.RecordSuccess` | src/upstream/mod.rs:191-200 | Clears failures, open window and health |
| `Upstreams.Upstream.RecordFailure` | src/upstream/mod.rs:205-220 | Degrades at half the threshold plus one, turns unhealthy and opens the window at the threshold |
| `Upstreams.Upstream.AdminReset` | src/admin/mod.rs:283-287 | Clears failures and health and leaves the open window |
| `Breaker.HealthCountsFailures` | src/upstream/mod.rs:191-220 | After any run, health is a function of the failures since the last success or admin reset |
| `Breaker.DefaultBreaker` | src/upstream/mod.rs:205-220 | Without a breaker configured: degraded at two failures, unhealthy from three on, with a window of thirty seconds |
| `Breaker.FlagsAreLastSet` | src/upstream/mod.rs:120-125 | The enabled and pause flags are those last set, pause off to begin with, and nothing is admitted against them |
| `Breaker.CounterIsSlotsHeld` | src/upstream/mod.rs:145-189 | As long as no release precedes its admission, in_flight is admissions less releases and within the cap |
| `Breaker.OpenWindowIsLastTrip` | src/upstream/mod.rs:191-220 | The open window is always that of the last tripping failure not followed by a success |
| `Breaker.BreakerRefusesExactly` | src/upstream/mod.rs:126-136 | The breaker refuses if and only if those failures reach the threshold or such a window has not passed |
| `Breaker.AdmissionNeedsRecovery` | src/upstream/mod.rs:120-143 | After a tripping failure every admission is preceded by a success or an admin reset, however late; inside the window, by a success |
| `Breaker.NoHalfOpenProbe` | src/upstream/mod.rs:202-204 | A run that contradicts the documented probe: refused an hour after the window passed |
| `AdmissionProtocol.StepKeepsInv` | src/upstream/mod.rs:145-189 | Every atomic operation of every task keeps slots, wait slots, statistics and tokens conserved |
| `AdmissionProtocol.ReachableStatesConserve` | src/queue/mod.rs:76-148 | In every interleaving: in_flight is the number of tasks between swap and release or roll-back and within the cap; pending is the number of tasks between reservation and return and within the bound; calls are dispatched, rejected, without upstream, or in progress; admissions are those of a run of the bucket |
| `AdmissionProtocol.SlotsBalance` | src/upstream/mod.rs:150-176 | No operation takes or frees a slot without the task's own share changing alike |
| `AdmissionProtocol.GrantsBalance` | src/upstream/mod.rs:165-181 | A task passes the meter of an upstream exactly when its bucket paid for it |
| `AdmissionProtocol.QueueBalances` | src/queue/mod.rs:92-115 | Wait slots are taken and returned only with the task's entry to and exit from the wait |
| `AdmissionProtocol.StatsBalance` | src/queue/mod.rs:81-135 | Each statistic grows exactly when a task's outcome becomes the one it counts |
| `AdmissionProtocol.OutcomesPartition` | src/queue/mod.rs:76-148 | Every call is in progress or counted in exactly one outcome |
| `AdmissionProtocol.QuiescentIsClean` | src/queue/mod.rs:76-148 | When all calls have finished, every slot and wait slot is back and calls equal dispatched plus rejected plus no upstream |
| `AdmissionProtocol.DecrementsNeverUnderflow` | src/queue/mod.rs:111-114 | In no reachable state does the slot counter wrap or the pending subtraction saturate |
| `AdmissionProtocol.GrantsWithinRate` | src/upstream/mod.rs:165-178 | Under concurrency too, an upstream lets through no more than burst plus rate times its age |
| `AdmissionProtocol.GrantsBetween` | src/upstream/mod.rs:165-178 | Between any two states of any interleaving, an upstream lets through no more than burst plus rate times any stretch of time that encloses its bucket's readings between them |
| `AdmissionProtocol.GrantsBetweenReadings` | src/upstream/mod.rs:165-178 | In particular the stretch between the last clock readings of the two states |
| `AdmissionProtocol.VerdictsAreExact` | src/upstream/mod.rs:165-178 | In every interleaving each bucket call is admitted if and only if one more admission fits in every window of the bucket's calls that ends with it |
| `ScanHistory.HistoryTells` | src/queue/mod.rs:57-64 | In every interleaving, where a task stands tells which positions of its list have refused it since its present scan began |
| `ScanHistory.GivesUpOnlyRefused` | src/queue/mod.rs:86-146 | In every interleaving, a task reserves a wait slot, sleeps, times out or is rejected only after every upstream of its list has refused it since it arrived, joined the queue or last slept |
| `ScanHistory.ServedByFirst` | src/queue/mod.rs:57-64 | In every interleaving, a task is served by the first upstream of its list that has not refused it in that scan |
| `AttemptRefinement.UndisturbedAttempt` | src/upstream/mod.rs:145-182 | Run without interference, the steps of one attempt admit exactly when the sequential method does and leave the same state, touching nothing else |
| `AttemptRefinement.UndisturbedScan` | src/queue/mod.rs:57-64 | Run without interference, the steps of a scan stop at the first upstream of the list that would admit and give up exactly when none would; upstreams tried and untried are left as by the sequential scan |
| `AttemptRefinement.UndisturbedSwap` | src/upstream/mod.rs:145-163 | Its first half: a usable upstream hands out a slot exactly if capped |
| `AttemptRefinement.UndisturbedMeter` | src/upstream/mod.rs:165-181 | Its second half: the verdict of the bucket, and the slot given back on refusal |
| `CallRefinement.UndisturbedAcquire` | src/queue/mod.rs:76-116 | Run without interference, the steps of a whole call do what the sequential call does: same outcome, same upstream, same slots and buckets, the one statistic of that outcome, `waited` if it waited, and the wait slot given back, or held by a call still asleep |
| `CallRefinement.RetryTurns` | src/queue/mod.rs:118-148 | The retry loop alone, from joining the queue or from any sleep, over any number of scans and any flags, health and breakers between them |
| `CallRefinement.RetryTurn` | src/queue/mod.rs:126-146 | One turn of it: a task that joined the queue or slept scans from the start of its list; it is served by the first upstream that admits, and else rejected past the deadline or asleep again before it |
| `CallRefinement.WaiterIsServed` | src/queue/mod.rs:126-130 | From every reachable state, a waiter whose list has an upstream that would admit is served by the first such one when it moves undisturbed |
| `CallRefinement.UndisturbedRelease` | src/upstream/mod.rs:184-189 | The release step of any task leaves its upstream as the sequential release does and touches nothing else |
| `Registry.OrderIsUnique` | src/upstream/mod.rs:306-317 | The list of a set of upstreams in priority and id order is unique, so the table's iteration order does not matter |
| `Registry.PrecedesMeans` | src/upstream/mod.rs:310-315 | The order: higher priority first, and at equal priority the id that is a proper prefix of the other or has the smaller character where they first differ |
| `Registry.InsertKeepsOrder` | src/upstream/mod.rs:310-315 | Placing an upstream with a new id keeps the list in that order |
| `Registry.FilterUpstreamsForModel` | src/proxy/mod.rs:1105-1128 | From any list: exactly the upstreams that may serve the model, in the order of the list |
| `Registry.EmptyListServesIff` | src/proxy/mod.rs:1105-1128 | The filter keeps an upstream without a model list for a named model if and only if no upstream of the list names models |
| `Registry.EmptyListIsPassedOver` | src/config/types.rs:71 | Beside an upstream for one model, the filter drops an upstream without a list for that model, which alone it keeps |
| `Registry.UpstreamRegistry.Upsert` | src/upstream/mod.rs:275-280 | Replaces the object under the id by a fresh one and leaves the others; the list is again sorted and complete |
| `Registry.UpstreamRegistry.Remove` | src/upstream/mod.rs:282-288 | Removes exactly the id, tells whether it was there, and keeps the list sorted and complete |
| `Registry.UpstreamRegistry.RebuildByProvider` | src/upstream/mod.rs:306-317 | The list holds exactly the registered upstreams, by descending priority and, at equal priority, by lexicographically ascending id |
| `Registry.UpstreamRegistry.ByProvider` | src/upstream/mod.rs:294-301 | Exactly the upstreams of the kind, in order |
| `Queue.QueueManager.TryAcquire` | src/queue/mod.rs:57-64 | The first upstream of the list that would admit is charged; those before it at most refill, those after it are untouched; nothing is returned exactly if all refuse |
| `Queue.QueueManager.ObservedScan` | src/queue/mod.rs:57-64 | The scan with a record of it: what it found, what it left, where it ended; nothing is chosen if and only if no upstream admits |
| `Queue.QueueManager.CountedScan` | src/queue/mod.rs:86-89 | The scan is counted dispatched if it admits, rejected if it is the last of a wait and does not |
| `Queue.QueueManager.Interference` | src/queue/mod.rs:138-144 | During a sleep other tasks leave the upstreams in any states they can be in, which are an input of the wait |
| `Queue.QueueManager.Round` | src/queue/mod.rs:126-146 | One turn of the loop: a counted scan that chooses nobody if and only if nobody admits in the states it meets, and, unless it ends the wait, a sleep after which the next such states hold |
| `Queue.QueueManager.Wait` | src/queue/mod.rs:91-115 | Waits if and only if the queue has room, ends with the result of its last scan, all scans before it having met only refusals, and returns the wait slot |
| `Queue.QueueManager.WaitHolding` | src/queue/mod.rs:107-115 | The same with the wait slot in hand: counted as waited, and the slot returned whatever the outcome |
| `Queue.EligibleUpstreams` | src/proxy/mod.rs:1105-1128 | From the registry: exactly the candidates of the kind and model, in order |
| `Queue.DispatchOnce` | src/queue/mod.rs:57-64 | End to end: of all candidates that would admit, the upstream chosen has the highest priority and, at equal priority, the lexicographically smallest id; none is chosen exactly if none would; every other upstream keeps its slots |
| `Queue.QueueManager.WaitLoop` | src/queue/mod.rs:118-148 | Whatever states other tasks leave between scans: in every scan but the last no upstream would admit in the states it meets; the last admits if and only if one would, and charges the first; scans follow each other by exactly one backoff, or sooner by a notification; a timeout falls between the deadline and 200 ms later; exactly one statistic grows |
| `Queue.QueueManager.WaitAmongOthers` | src/queue/mod.rs:118-148 | The same from the states that others have left since the first scan |
| `Queue.WaitedMeans` | src/queue/mod.rs:126-137 | What that record of a wait says, scan by scan |
| `Queue.QueueManager.Reserve` | src/queue/mod.rs:92-105 | A wait slot is taken exactly if the bound is zero or not reached |
| `Queue.QueueManager.Unreserve` | src/queue/mod.rs:111-114 | The wait slot is returned, never below zero |
| `Queue.QueueManager.Acquire` | src/queue/mod.rs:76-116 | Each outcome has its exact condition and its one statistic; without a wait the upstream returned is the first that admits on arrival; with one, all scans before the last met only refusals, and the result is the first upstream that admits in the last or a timeout; the wait slot is returned on all outcomes |
| `Queue.BackoffClosedForm` | src/queue/mod.rs:124-145 | The k-th backoff is min(5 * 2^k, 200) milliseconds |
| `Queue.ScanTimeClosedForm` | src/queue/mod.rs:124-145 | When the k-th scan of an undisturbed wait starts |
| `Queue.ScansAreBounded` | src/queue/mod.rs:126-147 | With timeout D there are at most 7 + ceil(max(0, D - 315)/200) scans, and exactly that many on a timeout for D above 155 |
| `Queue.ScansAreClose` | src/queue/mod.rs:138-145 | Successive scans are at most 200 ms apart |
| `Queue.UndisturbedWait` | src/queue/mod.rs:118-148 | A wait without notifications keeps that bound and scans at exactly those instants |
| `KeyGates.KeyRecord.Authorize` | src/auth/mod.rs:333-410 | Exact condition of each refusal, in order, and the state each leaves: the counter advanced, a budget refusal with its slot kept |
| `KeyGates.KeyRecord.RecordUsage` | src/auth/mod.rs:413-423 | Adds one request, its tokens, and its cost truncated to thousandths |
| `KeyGates.KeyRecord.Release` | src/auth/mod.rs:438-442 | Gives the parallel slot back if there is a cap |
| `KeyGates.KeyRecord.ExpireBudget` | src/admin/mod.rs:1295-1315 | Clears the spend and restarts the window exactly when it is over |
| `KeyGates.BudgetResetsAreApart` | src/auth/mod.rs:393-400 | Two resets of a budget are more than its period apart |
| `KeyGates.BudgetResetComes` | src/auth/mod.rs:393-400 | The first look after the period is over resets the spend and restarts the window |
| `KeyGates.WindowStartsAreApart` | src/auth/mod.rs:360-365 | Windows start more than sixty seconds apart |
| `KeyGates.PassesPerWindow` | src/auth/mod.rs:366-371 | At most rpm_limit of any 2^32 calls in a row in one window pass, although refused calls count |
| `KeyGates.WindowLimitIff` | src/auth/mod.rs:366-371 | From the opening of a window, that limit holds if and only if at most 2^32 calls were made |
| `KeyGates.CounterWraps` | src/auth/mod.rs:366-371 | Call number m of a window passes exactly if m modulo 2^32 is below the limit |
| `KeyGates.WindowPasses` | src/auth/mod.rs:366-371 | Exactly how many calls of one window pass, for any number of calls, wrap-around included |
| `KeyGates.ServedBeforeWrap` | src/auth/mod.rs:366-371 | That is the smaller of the limit and the calls, up to 2^32 |
| `KeyGates.ServedEachRound` | src/auth/mod.rs:366-371 | And the limit again for each further 2^32 |
| `KeyGates.MinuteSplits` | src/auth/mod.rs:359-365 | Sixty seconds of an orderly clock meet at most two windows |
| `KeyGates.IntervalPasses` | src/auth/mod.rs:359-372 | Exactly how many calls pass in an interval that meets at most two windows |
| `KeyGates.PassesPerMinute` | src/auth/mod.rs:359-372 | Exactly how many calls pass in any closed sixty seconds, and that they are at most twice the limit unless a window sees more than 2^32 calls |
| `KeyGates.RollingLimitIff` | docs/FEATURES.md:196 | Over any closed sixty seconds at most the limit passes if and only if the calls the old window has room for and those the new one lets through make at most the limit, both read off the counter at the first call and the calls on each side of the opening |
| `KeyGates.RollingLimitFails` | docs/FEATURES.md:196 | For every limit, a run in which twice that many calls pass within one second: the documented rolling window does not hold |
| `BudgetProtocol.StepKeepsInv` | src/auth/mod.rs:374-442 | Slots are conserved and spend plus possible exposure stays below the ceiling, at every step |
| `BudgetProtocol.ReachableInv` | src/auth/mod.rs:374-442 | The same in every reachable state |
| `BudgetProtocol.OvershootIsBounded` | src/auth/mod.rs:374-442 | In any interleaving of authorize, record, release and resets, spend stays below 1000 * limit + k * c, and outstanding <= in_flight <= k |
| `BudgetProtocol.OvershootIsReached` | src/auth/mod.rs:392-408 | For every cap, every positive budget and every largest cost of at least a thousandth, a run comes within a thousandth of that bound |
| `BudgetProtocol.OvershootIsReachedIff` | src/auth/mod.rs:392-408 | The bound is sharp to a thousandth if and only if there is a budget to spend and a cost to record, or it is no more than a thousandth |
| `BudgetProtocol.NothingIsSpent` | src/auth/mod.rs:402-407 | Without a budget or without costs nothing is ever spent |
| `BudgetProtocol.SlotsAreOutstandingIff` | src/auth/mod.rs:374-408 | In every reachable state the slots counted are the requests under way plus the leaked ones: equal to those under way if and only if nothing leaked |
| `BudgetProtocol.LeaksStay` | src/auth/mod.rs:402-407 | A step leaks a slot exactly if it is a budget refusal or an abandoned handler, and none takes a leaked slot back |
| `BudgetProtocol.ServiceIff` | src/auth/mod.rs:374-408 | From any reachable state some later request can still pass every gate if and only if the leaked slots have not filled the cap and the budget is positive and either not used up or reset after a period; it can still take a slot if and only if the cap is not filled by the leaked slots and, when the budget can no longer be passed, those about to be refused |
| `BudgetProtocol.RefusedForGood` | src/auth/mod.rs:392-408 | A budget that cannot be passed, now or after a reset, is never passed again by any request that has not passed it |
| `BudgetProtocol.UsedUpForGood` | src/auth/mod.rs:392-408 | For every positive budget without a reset period, a run after which no later request is served, with every slot free and nothing leaked |
| `BudgetProtocol.SlotComesBack` | src/auth/mod.rs:392-442 | A request past the budget check, or before a check it can pass now or after a reset, can be brought to its end, which frees its slot, without further spend |
| `BudgetProtocol.LeaksLockOut` | src/auth/mod.rs:374-408 | From then on no request that has not passed the parallel cap is let through, whatever happens and however often the spend is reset |
| `BudgetProtocol.LockOutIsReached` | src/auth/mod.rs:402-407 | A run of budget refusals alone, without an abandoned handler, locks the key out with nothing under way, whenever there is no budget or a cost to record |
| `BudgetProtocol.LockOutIsReachedIff` | src/auth/mod.rs:402-407 | And only then: a positive budget that no cost uses up refuses nobody |
| `RateRings.RateRing.Add` | src/metrics.rs:947-964 | Clears the seconds skipped, drops what is out of order, and adds with saturation |
| `RateRings.RateRing.Sum` | src/metrics.rs:966-981 | Zero for a stale ring, else the saturating sum as read |
| `RateRings.RateRing.Reset` | src/metrics.rs:988-994 | An empty ring at second zero |
| `RateRings.AddRefines` | src/metrics.rs:947-964 | Adding to the ring is appending the accepted event to the log, gaps of any length included |
| `RateRings.RunRefines` | src/metrics.rs:947-994 | After any run of adds and resets, every second of the window ending at head has its total of accepted events in its bucket |
| `RateRings.BucketHoldsItsSecond` | src/metrics.rs:962-963 | Conversely, bucket j holds the accepted events of the one second of that window that is j modulo its length |
| `RateRings.SlideInvariant` | src/metrics.rs:974-979 | Reading the ring from any second visits every bucket once |
| `RateRings.SumIsHeadWindow` | src/metrics.rs:966-981 | From second W - 1 on the answer is always the total of the window ending at head, or zero when stale |
| `RateRings.SumBracketsWindow` | src/metrics.rs:966-981 | Exact when now is head or past head + W + 5; otherwise at least the total over (now - W, now] and at most that over (now - 2W - 5, now] |
| `RateRings.SumExactIff` | src/metrics.rs:966-981 | Within the tolerance, exact if and only if the accepted events that have left the window total zero, or the window saturates |
| `RateRings.EarlySum` | src/metrics.rs:974-979 | Before second W - 1 the answer is the window total plus the events of second zero once for each missing second |
| `RateRings.EarlySumExactIff` | src/metrics.rs:974-979 | It is then the window total if and only if second zero had no event, or the total saturates |
| `RateRings.EarlySumOvercounts` | src/metrics.rs:975-977 | An input: a single event at second zero is counted W times |
| `RateRings.NestedWindows` | src/metrics.rs:966-981 | Of two rings fed alike the shorter never reports more |
| `Rates.RateSet.RecordRequest` | src/metrics.rs:466-477 | All eight rings receive their amount at the same second |
| `Rates.MicroUsdMeans` | src/metrics.rs:475-476 | The cost fed is truncated to whole micro-dollars, zero for a negative cost, saturated at 64 bits |
| `Rates.RateSet.Reset` | src/metrics.rs:504-512 | All eight rings become new |
| `Rates.WindowsAgree` | src/metrics.rs:466-477 | For requests, tokens and cost the 1 m, 5 m and 1 h totals are ordered at every second from 3599 on |
| `Rates.AnswerOfRequests` | src/metrics.rs:466-477 | After any run of recorded requests and resets, each of the eight rings answers the saturated total of its own quantity over its own 60, 300 or 3600 seconds, or zero when stale |
| `Rates.LongerWindowReportsMore` | src/metrics.rs:466-477 | The same for any two rings of one quantity |
| `Histograms.Histogram.ObserveUs` | src/metrics.rs:121-131 | The observation lands in the first bucket whose bound it does not exceed, or the last |
| `Histograms.BucketBrackets` | src/metrics.rs:121-127 | Every bound before that bucket is below the observation |
| `Histograms.Histogram.Snapshot` | src/metrics.rs:133-149 | Cumulative counts beside their bounds |
| `Histograms.Histogram.QuantilesUs` | src/metrics.rs:152-165 | One answer for each quantile asked, from one snapshot |
| `Histograms.Histogram.Reset` | src/metrics.rs:183-189 | An empty histogram |
| `Histograms.RunIsObserved` | src/metrics.rs:121-189 | After any run the state is that of the observations since the last reset |
| `Histograms.SumAndCountAreTotals` | src/metrics.rs:128-130 | Sum and count are those of the observations |
| `Histograms.CumulativeCountsObservations` | src/metrics.rs:133-149 | A cumulative count is the number of observations in those buckets |
| `Histograms.KthSmallestExists` | src/metrics.rs:152-165 | Every rank has its order statistic |
| `Histograms.QuantileBracketsOrderStatistic` | src/metrics.rs:152-165 | For q in (0, 1] the answer is the bound of the bucket that holds the k-th smallest observation, k - 1 < q * n <= k, those beyond the last bound counted in the last |
| `Histograms.OutOfRangeIffAboveOne` | src/metrics.rs:159-163 | The answer is the largest 64-bit value if and only if q exceeds one and there are observations |
| `Histograms.QuantileMonotone` | src/metrics.rs:152-165 | Quantiles grow with q |
| `LatencyRollup.LabeledHistogram.Entry` | src/metrics.rs:227-230 | A label's series is created empty on first use and found thereafter |
| `LatencyRollup.LabeledHistogram.Observe` | src/metrics.rs:226-232 | Only the label's own series receives the observation |
| `LatencyRollup.LabeledHistogram.Reset` | src/metrics.rs:246-251 | Every series is emptied, none is dropped |
| `LatencyRollup.LatencyMetrics.Finalize` | src/proxy/mod.rs:136-145 | The global histogram always, the labelled one when an upstream was reached, receive the same duration |
| `LatencyRollup.LatencyMetrics.Reset` | src/metrics.rs:485-500 | Both are emptied |
| `LatencyRollup.BreakdownAddsUp` | src/proxy/mod.rs:51-52 | After any run each bucket, the sum and the count of the global histogram are the totals over all series plus the requests without upstream |
| `LatencyRollup.CompleteIffAllTagged` | src/proxy/mod.rs:136-145 | The breakdown is complete if and only if every request since the last reset named its upstream |
| `SseUsage.RaiseTo` | src/proxy/mod.rs:527-560 | One payload raises the running maximum of input tokens by its input members, that of output tokens by its output members |
| `SseUsage.PayloadUsageMeans` | src/proxy/mod.rs:527-560 | What a payload shows is the largest of its three input members and of its three output members, and nothing exactly if it has none |
| `SseUsage.LineUsageMeans` | src/proxy/mod.rs:509-526 | A line counts exactly if, trimmed, it is "data: " and a JSON payload other than "[DONE]" |
| `SseUsage.LinesMakeUpText` | src/proxy/mod.rs:509 | Lines hold no newline and, joined by newlines, give back the text |
| `SseUsage.ExtractUsageFromSse` | src/proxy/mod.rs:496-566 | The accumulator is raised to the maxima over all usage lines; text that is not UTF-8 changes nothing |
| `SseUsage.StreamBody` | src/proxy/mod.rs:458-491 | Chunks are forwarded unchanged up to the first transport error; a normal end adds one pass over the whole body |
| `SseUsage.LinesConcat` | src/proxy/mod.rs:509 | Cutting a text cuts at most one line |
| `SseUsage.ChunkLinesArePieces` | src/proxy/mod.rs:509 | Every line of a chunk is a piece of a line of the body |
| `SseUsage.StreamingIsOnePassIff` | src/proxy/mod.rs:463-489 | For a given cut the result is that of one pass if and only if no chunk alone shows more usage than the body |
| `SseUsage.AnyCutIsOnePass` | src/proxy/mod.rs:463-489 | If no piece of a line shows more usage than the body, every cut gives the usage of one pass |
| `SseUsage.CutsDoNotMatterIff` | src/proxy/mod.rs:463-489 | That condition is also necessary |
| `Ledger.Storage.UpsertApiKey` | src/storage.rs:198-225 | The alias is registered and has a counter row |
| `Ledger.Storage.ApplyCounterDelta` | src/storage.rs:354-401 | Counters and event together, or neither for an alias without a key |
| `Ledger.Storage.RecordSpendHistory` | src/storage.rs:533-567 | The row of the alias and hour grows by the event |
| `Ledger.WindowStart` | src/storage.rs:543 | A history row starts on a full hour and covers the event's instant |
| `Ledger.Storage.ResetSpend` | src/storage.rs:520-528 | Only the stored spend of the alias becomes zero |
| `Ledger.AppState.RecordKeyUsage` | src/state.rs:229-269 | Memory, counters, event and history all receive one usage |
| `Ledger.AppState.ExpireBudget` | src/admin/mod.rs:1295-1321 | Memory and ledger are reset together |
| `Ledger.TablesAgree` | src/state.rs:229-269 | After any run, counters are the event totals less what resets forgave, and hourly history sums to the event totals plus what was recorded before registration |
| `Ledger.LedgersEqual` | src/storage.rs:354-401 | For a registered key and without ledger resets, counters, events and history are equal in every field |
| `Ledger.MicroUsdMeans` | src/storage.rs:365 | Stored costs are truncated toward zero to whole micro-dollars |
| `Ledger.MilliMicro` | src/auth/mod.rs:420-422 | Thousandths and millionths of one cost agree to the last thousandth if and only if the cost exceeds -0.000001 |
| `Ledger.MemoryTracksLedger` | src/state.rs:229-269 | After any run, micros equal what memory has forgotten, plus 1000 * m, plus the truncation of the n records since the last reset of memory, which is between 0 and 999 * n; nothing is forgotten while memory is only reset together with the ledger |
| `Ledger.InStepIff` | src/state.rs:229-269 | 1000 * m <= micros <= 1000 * m + 999 * n if and only if what memory has forgotten fits into what truncation left over |
| `Ledger.MemoryResetInStepIff` | src/auth/mod.rs:393-400 | Right after a reset inside authorize that bound holds if and only if nothing was stored |
| `Ledger.MemoryResetDiverges` | src/auth/mod.rs:393-400 | For every number of micro-dollars a run that stores them against no enforced spend, for a key with a reset period |
| `UsageReport.ReportAddsUp` | src/admin/mod.rs:880-887 | The totals of requests, tokens and cost are the sums over the rows of the time window, whatever the dimension |
| `UsageReport.GroupsPartition` | src/admin/mod.rs:880-887 | The totals, cost included, do not depend on the dimension the report is grouped by |
| `UsageReport.BucketIsGroupTotal` | src/storage.rs:747-798 | Each bucket shows the sum over the rows of its own group |
| `UsageReport.BucketSumsSelected` | src/storage.rs:747-798 | Each bucket shows the sum over the event rows with its alias, upstream, model or any, from `since` on and before `until` |
| `UsageReport.GroupsAreDistinct` | src/storage.rs:747-798 | No group is reported twice |
| `UsageReport.AliasBucketIsEventTotal` | src/storage.rs:747-798 | A bucket of the unbounded report by alias is the event total of the key |
| `UsageReport.ReportMatchesCounters` | src/storage.rs:747-798 | That bucket equals the key's running counters for requests and tokens, resets or not |

## Left out

Outside the model:

- HTTP, axum routing, request translation, CLI, dashboard, configuration files and file watching.
- SQL, JSON, UTF-8 validation, hashing and address ranges are library functions. Tables are maps and sequences,
  writes succeed unless the foreign key refuses them, and `SseUsage` takes UTF-8 validity, trimming and JSON parsing
  as arbitrary functions, the only assumption being that lines of valid UTF-8 are valid.
- Bearer lookup in `authorize`: the model starts from the key record; the address check is a parameter.
- Cancelled requests and crashes: neither wait slots nor upstream slots are guarded by destructors, so conservation
  is for runs whose tasks keep stepping. Each served call ends with one release, as the two dispatchers do.
- Hot reload, `restore_usage` and the histogram persist and restore round trip; runs start from new objects.
- `f64` is `real`: rounding, infinities and the conversion of very large values are not modelled.
- Counters of 64 bits, and the 32-bit failure counter, are unbounded; the saturation of the rate rings and the
  wrap-around of `in_flight` and of the request counter are modelled.
- Two racing calls of `record_success` and `record_failure`: the breaker's events happen one at a time. Memory ordering of
  relaxed atomics.
- The count of recorded streamed requests and the detached watcher; costs of streamed requests.
- The `active_requests` gauge, token-per-minute windows, upstream budgets, weights and soft budgets.
- Key deletion, event pruning, rollups, traces, the event bus, the audit log, alias resolution, prices and the parsing of
  durations: easy members, or apart from the rest.

Contracts weaker than the source, or under an assumption worth naming:

- AdmissionProtocol.ReachableStatesConserve: the enabled flag, the pause flag, health and breaker are a free choice of the environment at each
  check, and so are timers; upstream objects are fixed, because an admin edit replaces the object.
- Queue.QueueManager.WaitLoop: one task's view. The states other tasks leave between scans are an input, any the upstreams can be
  in; no other task moves during a scan; timers are ideal and a scan takes no time. Others' effect on the shared counters is the
  subject of `AdmissionProtocol`, as are other tasks' moves within a scan.
- Queue.QueueManager.Acquire: the same; that the wait slots are as before holds of one call's own steps.
- CallRefinement.UndisturbedAcquire: lists name each upstream once, as the registry's do, and clock readings do not go back.
- Registry.UpstreamRegistry.RebuildByProvider: the library sort is insertion, which `OrderIsUnique` shows to be immaterial; priorities are unbounded.
- BudgetProtocol.OvershootIsBounded: for requests that record their cost before releasing, at most `maxCost` thousandths each; streamed
  requests do not.
- Histograms.QuantileBracketsOrderStatistic: snapshots are taken while no observation is in progress.
- LatencyRollup.BreakdownAddsUp: `finalize` and `reset` do not overlap.
- UsageReport.ReportAddsUp: costs are added as reals, and the endpoint's rounding to millionths is not modelled, nor the order of
  the groups and the cut-off of the list.
- BudgetProtocol.ServiceIff: the spend of a key with a reset period may be reset at any time; for the positive half that means the clock
  goes on until the period is over, and handlers of requests under way may end without a cost.
- Ledger.MemoryResetDiverges: resets come at any time and stand for a key with a budget and a reset period.
- Ledger.TablesAgree: the event's time stamp is given; the two writes of one usage are not interleaved with others.
