# Routing data plane of the LLM gateway, modelled and proved

The gateway sends each chat request to one of several vendors. A request names a
tier; the tier lists candidates (provider, model). The router draws a candidate by
weight, takes one request and the estimated tokens from the candidate's shared rate
bucket, calls the vendor, and on a retryable failure goes on to another candidate
until the deadline. A refresh task recomputes the weights from a window of recorded
outcomes, the bucket levels and the circuit breakers. Around this path sit the
accounting queue, the caller cache and the configuration store.

This project models those parts and proves what each keeps over whole runs. The
modules follow the program:

| Module | Models |
|---|---|
| `TokenBucket`, `BucketRuns`, `BucketDenials`, `BucketExpiry` | the two Lua scripts and their driver; bounds and equivalences over runs; denied acquires; key expiry |
| `Router`, `Gateway`, `GatewayWindow` | one routed call; many calls and refresh ticks interleaved over shared buckets; what they can be granted in a window |
| `SecondCounters`, `Observe`, `Breaker`, `HalfOpen` | per-second counters with a TTL, the recorder and the circuit breaker on top of them; what decides a half-open breaker |
| `Weights`, `Refresh`, `Backoff` | scores and the weighted draw; a refresh tick; the waits of the refresh loop |
| `Accounting` | the bounded buffer, its suspended flush, the drain loop and `stop` |
| `CallerCache` | the LRU and TTL cache of callers under overlapping lookups |
| `Names`, `ConfigStore`, `ConfigFlight` | config to tables and back; concurrent loads and writes |
| `Common` | value types and small helpers |

Objects that the program updates in place are classes; each method is proved against
a function of the old state, and the lemmas are about those functions. Code that
suspends (a flush, a lookup, a routed call among others) is cut at its suspension
points, one step for each stretch that runs without interruption.

Conventions. Bucket levels are stored in units of 1/60000, so a refill of cap/60000
per millisecond is the integer `cap`. Seconds are reals, milliseconds integers. Clock
readings, random draws, vendor answers, database rows and what the engine's weights
are at each pass are arguments, so every theorem is about all of them. Automatic
induction is switched off throughout: every induction is written out.

## Findings

Where the code does less than its comments or its obvious reading promise, the exact
condition is proved.

- Key expiry is not invisible to `clamp`: a clamp that hits a key which expired after
  ten idle minutes creates it afresh at the observed level and without a refill time,
  while an unexpired key would since have refilled. `BucketExpiry.ClampGuardIsExact`
  gives the exact guard, `BucketExpiry.ClampOnExpiredKeyIsVisible` a concrete run.
- A clamp also makes denied acquires count, because it clamps the level last stored,
  not the level refilled to now; so does a denied acquire on a key that was clamped
  before it was ever acquired, because it starts the refill clock.
  `BucketDenials.DeniedGuardsAreExact` gives both exact guards, and
  `BucketRuns.RefilledGuardIsExact` the one under which the lazy bucket still equals
  the plain one; `BucketDenials.ClampAfterDeniedIsVisible` is a concrete run.
- `remaining` says it reads without consuming; it spends one request exactly when there
  is one (`BucketRuns.ReadingSpendsIff`), which is why a budget score stays at
  most one even against a cap one lower than the bucket's limit
  (`Refresh.BudgetInUnitIff`).
- The weights use the first rate limit listed for a candidate across the tiers, the
  bucket the last one. `Refresh.TickWeightsInRangeIff` gives the exact condition on the
  two under which no weight exceeds the configured base weight; when it fails the very
  first tick does (`Refresh.FirstTickExceeds`).
- The breaker's counters agree with the log exactly for windows of at least one second;
  below that the TTL is zero and each sample vanishes as it is written
  (`SecondCounters.CountersRefineLog`).
- Half-open counting includes the whole second of the transition, although the comment
  says strictly later samples: a failure taken just before the transition reopens the
  breaker (`HalfOpen.EarlyFailureReopens`). `HalfOpen.StrictDecisionIff` says exactly
  when this makes no difference. Those samples are all found by the next refresh
  exactly when refreshes are at most TTL - 1 s apart (`HalfOpen.CadenceIsExact`).
- The refresh loop computes 2 ** (failures - 1) as an integer and multiplies a float by
  it; at the 1025th failure in a row this overflows outside the guarded block and ends
  the loop (`Backoff.SurvivesIffNoLongOutage`).
- Writing back a loaded config changes the tables exactly when some tier has a fallback
  tier or a loaded provider's row mentions a tier that the tier table lacks
  (`ConfigStore.WriteBackIsIdentityIff`); what is loaded afterwards never changes.
- After `stop` returns the buffer is empty exactly when nothing was enqueued since its
  last flush began (`Accounting.StopDrains`).
- Single flight holds up to the loads that are asked for: each forced load, each failed
  cache write and each invalidation allows one more (`ConfigFlight.SingleFlight`), and
  each can be used (`ConfigFlight.AllowancesAreUsed`).
- A write of the config is not always seen by the loads after it: one that read the
  database before the last upsert may store what it read after the drop, and it is then
  served for a whole TTL (`ConfigFlight.WriteIsSeenIff`, `ConfigFlight.StaleStoreBounded`).
- The clock is read before the acquire script is awaited, and a script with an older
  reading turns the refill time back. Two overlapping acquires that run out of order
  refill the bucket twice over; repeated, they are granted any number of requests
  within one millisecond (`GatewayWindow.NoTimeUnlimitedGrants`). The bucket's promise
  for a window holds in every run with scripts at most L late exactly when L is zero
  (`GatewayWindow.LagIsExact`), and with any lag as long as readings never move back
  (`GatewayWindow.InOrderCallsBounded`).
- The caller cache calls its policy "oldest-inserted"; it is least recently used
  (`CallerCache.CacheIsLru`), and `CallerCache.HitKeyOutlivesNewerOne` is a run in which
  the two differ. The accounting buffer stays within its capacity exactly when that is
  at least one (`Accounting.WithinCapacityIff`).

## Model

| member | source | states |
|---|---|---|
| TokenBucket.RedisState.RatelimitAcquire | gateway/redis_state.py:27-63 | given a reading and run at a moment of Redis's clock, the script's new hash, decision and returned whole levels are those of `AcquireAt` on what Redis still holds; no returned level exceeds its cap, none is negative unless a negative level was observed before; every other key is untouched |
| TokenBucket.RedisState.RatelimitClamp | gateway/redis_state.py:67-81 | for any observation, negative ones too, levels shrink to it and are never raised; refill time and expiry stay as they were, absent on a missing key |
| TokenBucket.RedisState.AcquireProbeLock | gateway/redis_state.py:186-191 | the slot is won exactly when no unexpired holder exists, and then held for the TTL |
| TokenBucket.AcquireKeepsLevels | gateway/redis_state.py:41-62 | after an acquire both levels lie in [0, cap]; both dimensions were charged the exact price or neither was, and a denial names a dimension that was short |
| TokenBucket.DrainedAffordsIff | gateway/redis_state.py:45-58 | a drained bucket with limits of n requests and m tokens per minute affords a call exactly when elapsed ms times n reaches 60000 and elapsed ms times m reaches 60000 times its tokens; nothing refills while the clock goes back |
| TokenBucket.AbsentAffordsIff | gateway/redis_state.py:41-59 | a missing key affords whatever fits the limit, keeps the exact rest, and is gone once more than 600000 ms have passed |
| TokenBucket.FoundUntilExpiry | gateway/redis_state.py:41-59 | a key is found as it was stored unless its expiry time has passed |
| TokenBucket.RedisTokenBucket.TryAcquire | gateway/ratelimit.py:55-68 | a candidate without a limit entry is an error that changes nothing; otherwise one acquire with refill cap/60000 per ms |
| TokenBucket.RedisTokenBucket.Remaining | gateway/ratelimit.py:79-100 | a reading is an acquire of zero tokens and, while no level is negative, never shows a full request bucket |
| BucketRuns.ReadingSpendsIff | gateway/ratelimit.py:79-100 | a reading leaves the levels alone if and only if less than one request is left; otherwise it spends exactly one |
| TokenBucket.EstimateTokens | gateway/ratelimit.py:103-109 | the estimate is at least one, at least the response budget, and otherwise within one token below prompt/4 plus that budget |
| BucketRuns.GrantsBounded | gateway/redis_state.py:41-58 | for any acquires and clamps under any clock readings, even backward ones, grants in each dimension are at most cap plus refill over the forward clock movement |
| BucketRuns.RunSpends | gateway/redis_state.py:41-58 | the same bound from any stored level: what a run grants plus the level it leaves is at most the level it found plus the refill |
| BucketRuns.TicksAreRefill | gateway/redis_state.py:45-49 | n single-millisecond refills, each cut at the cap, equal one lazy refill over n ms |
| BucketRuns.LazyIsEager | gateway/redis_state.py:45-58 | on every run of acquires and guarded clamps with a non-decreasing clock the lazy script decides exactly as the bucket that refills every millisecond, and its key keeps standing for that bucket's levels |
| BucketRuns.RefilledGuardIsExact | gateway/redis_state.py:72-79 | after any guarded run one more clamp keeps the two equal if and only if the key was refilled this millisecond or the observation is not below the refilled level |
| BucketDenials.DeniedAreInvisible | gateway/redis_state.py:45-58 | deleting all denied acquires of a run, clamps included, leaves every other acquire granted and every later level the same, as long as each denied acquire and each clamp passes its guard |
| BucketDenials.DeniedGuardsAreExact | gateway/redis_state.py:41-79 | after any such run, one more clamp is harmless if and only if in each dimension nothing was denied since the stored refill time, or the observation is not below the stored level (the limit, on a key that would have no refill time), or the bucket is full again by now; one more denied acquire is harmless if and only if the key has a refill time or is full |
| BucketDenials.AcquiresAreSpared | gateway/redis_state.py:45-58 | a run without clamps passes every guard |
| BucketDenials.ClampAfterDeniedIsVisible | gateway/redis_state.py:72-79 | a concrete run in which a denied acquire before a clamp changes a later decision |
| BucketExpiry.ExpiryIsInvisible | gateway/redis_state.py:41-59 | with clamps that pass the guard, a run with the ten-minute key expiry makes exactly the decisions of the run without it |
| BucketExpiry.ClampGuardIsExact | gateway/redis_state.py:72-79 | one more clamp keeps the expiry invisible to all later acquires if and only if the key still has a refill time, was never acquired from, or the observation is not below the limits |
| BucketExpiry.ClampOnExpiredKeyIsVisible | gateway/redis_state.py:72-79 | a concrete run: request, ten idle minutes and a millisecond, clamp to zero; the next request is refused only because the key expired |
| BucketExpiry.ClampOnLastMillisecondIsNot | gateway/redis_state.py:59-79 | the same run one millisecond earlier decides alike with and without expiry |
| Weights.WeightInRange | gateway/routing/weights.py:35-69 | error rates not below zero and a remaining budget within its cap in one dimension leave the effective weight at zero or in [floor, base] |
| Weights.WeightMonotone | gateway/routing/weights.py:35-69 | the weight never grows with error rate or latency and never falls with remaining budget, across the floor and the open-breaker cut-offs too |
| Weights.HealthLaw | gateway/routing/weights.py:35-45 | for an error rate in [0,1] health times (target + latency) equals the successful share times the target; half of that share is left at the target latency |
| Weights.BudgetLaw | gateway/routing/weights.py:48-55 | with caps the budget score is the smaller of the two remaining shares |
| Weights.NoBudgetLaw | gateway/routing/weights.py:48-55 | a cap that is not positive, or nothing left in one dimension, leaves no budget |
| Weights.WeightLaw | gateway/routing/weights.py:58-69 | no weight for an uncached candidate or an open breaker; otherwise the product of base, health and budget exactly, unless it is below the floor, and then none |
| Weights.WeightedIsUsable | gateway/routing/weights.py:35-69 | whatever has weight has a breaker that is not open, an error rate below one, and a request and a token left |
| Weights.ScanIsExact | gateway/routing/weights.py:128-135 | for every draw in [0,1), entry i is returned if and only if the scaled draw lies above the weights before i and not above those up to i |
| Weights.SliceUnique | gateway/routing/weights.py:131-134 | at most one entry's slice contains a draw |
| Weights.SliceIsShare | gateway/routing/weights.py:128-134 | the draws that choose entry i form an interval inside [0,1] of length w_i / total |
| Weights.ChoiceIsByWeight | gateway/routing/weights.py:109-135 | stated on the tier itself: for every draw u in [0,1) the choice is the line whose stretch of the running sum of weights, over the lines neither excluded nor weightless, holds u times the whole |
| Weights.SomeStretchHolds | gateway/routing/weights.py:127-135 | there is such a line for every draw as soon as one line has weight |
| Weights.StretchIsShare | gateway/routing/weights.py:128-134 | the draws that choose a line form an interval inside [0,1] of length its weight / the sum of weights |
| Weights.Draw | gateway/routing/weights.py:128-135 | the accumulating loop returns the entry whose slice holds the draw; the fallback to the last candidate is never reached |
| Weights.PickBy | gateway/routing/weights.py:115-135 | one pass over the tier, skipping excluded and weightless candidates, then the draw over the rest |
| Weights.WeightEngine.Pick | gateway/routing/weights.py:109-135 | the pick under the weights of the cache at that moment |
| Weights.NoChoiceIffWeightless | gateway/routing/weights.py:117-127 | nothing is picked if and only if every candidate that is not excluded has no positive weight |
| Weights.ChoiceIsEligible | gateway/routing/weights.py:117-125 | whatever is picked belongs to the tier, is not excluded and has positive weight |
| Router.Router.Route | gateway/router.py:123-269 | an unknown tier is an invalid request; otherwise the call makes a run of picks and ends as that run must: served, non-retryable error, out of time, exhausted, or letting another exception through |
| Router.Router.RouteTier | gateway/router.py:154-269 | the failover loop, with exclude, tried and attempts tied to the picks; it ends because each pass excludes one more candidate of the tier |
| Router.Router.VisitNext | gateway/router.py:169-223 | one pass: the draw decides the candidate; acquire, bucket, vendor table and vendor answer, in this order, its status |
| Router.NoCandidateTwice | gateway/router.py:169-181 | no candidate is picked twice, each pick is of the tier with positive weight at its pass, so a call makes at most one pass per candidate |
| Router.PicksAndGrantsConserved | gateway/router.py:175-225 | in every run picks = empty buckets + missing vendors + attempts + at most one exception, and grants = attempts + missing vendors + the one the exception lost |
| Router.AttemptsInOrder | gateway/router.py:199-242 | attempt indices are 0..k-1, every attempt is a visit that reached the vendor, and only the last can be a success or non-retryable |
| Router.ServedIffLastOk | gateway/router.py:213-269 | a success carries one attempt for each visit that reached a vendor, the last being the last visit; a router error names every visit; deadline_exceeded needs an attempt and too little time; anything else is let through exactly when the last visit raised it |
| Router.OutcomeByAnswers | gateway/router.py:169-269 | over what bucket, vendor table and vendors answered: every visit but the last was denied, found no vendor, or got rate-limited, 5xx, timeout or an unknown provider error; the call is served exactly if the last answer was a result, fails as invalid request exactly on bad request or filtered content, as auth exactly on an auth error, gives up exactly on a retryable end, and lets anything else through exactly if acquire or call raised it |
| Router.OutOfTimeIff | gateway/router.py:154-168 | a call that gives up is out of time exactly if some vendor was reached and less than 1.5 s is left; no pass starts with less |
| Router.AttemptIsVisit | gateway/router.py:183-242 | attempt i is the i-th visit that reached its vendor, with the status of the vendor's answer and the whole milliseconds between the clock readings around the call, zero if the clock went back |
| Router.TimeoutIs | gateway/router.py:183-185 | the vendor timeout is the rest beside the buffer, cut to [0.1 s, the per-attempt maximum] |
| Router.ExhaustedMeansWeightless | gateway/router.py:169-173 | giving up with time left means every candidate not tried has no weight at that moment |
| Router.TimeoutLeavesBuffer | gateway/router.py:155-185 | the vendor timeout always leaves the buffer if and only if buffer <= 1.4 s or the per-attempt maximum fits beside it into 1.5 s |
| Router.ReturnsByDeadline | gateway/router.py:154-228 | with acquires of at most a, overruns of at most e and writes of at most o, the call returns by deadline - buffer + a + o + e whenever the timeout leaves the buffer |
| Router.BufferAbsorbsOverrun | gateway/providers/openai.py:64-67 | with the defaults the half-second buffer absorbs exactly the adapters' half-second overrun |
| Gateway.RequestsAreRuns | gateway/router.py:154-269 | in every interleaving each request is a run of the failover loop in the world it has seen, and ends as that run must |
| Gateway.Arrives | gateway/router.py:123-141 | a new request for a known tier starts with that tier's lines, nothing tried, and a deadline of its start plus the budget |
| Gateway.PassIsMade | gateway/router.py:169-242 | from every state in which a request may choose, its next pass can be made: it adds one visit with the status that the bucket as it stands, the vendor table and the answer give, charges the bucket of the choice and no other, and calls the vendor exactly if that is granted and configured |
| Gateway.CallsAreBacked | gateway/router.py:175-195 | in every interleaving each vendor call has its own distinct earlier grant, of the same candidate, tokens and request |
| Gateway.RequestsConserve | gateway/router.py:175-225 | in every interleaving each request's picks are its empty buckets, missing vendors, attempts and at most one exception; the shared log holds exactly its grants and one vendor call per attempt, finished, raised or under way |
| GatewayWindow.WindowGrantsBounded | gateway/redis_state.py:41-59 | grants to a candidate in any window are at most cap plus refill over the forward movement of the readings, in both dimensions, with key expiry, clamps, and scripts late and out of order |
| GatewayWindow.VendorCallsBounded | gateway/router.py:175-195 | across any such interleaving, vendor calls plus refresh grants in a window are at most rpm_cap + rpm/60000 per ms of movement, and the calls' token estimates at most tpm_cap + tpm/60000 per ms |
| GatewayWindow.MovedIsSpanAndBack | gateway/redis_state.py:45-58 | the forward movement of the readings is exactly their span in the window plus what they moved back |
| GatewayWindow.MovedBounded | gateway/ratelimit.py:58-68 | hence it is at most the window, the longest lag of a script behind its reading, and what the readings moved back |
| GatewayWindow.InOrderCallsBounded | gateway/router.py:175-195 | as long as the window's readings never move back, with scripts up to some lag late, vendor calls plus refresh grants are at most cap plus cap/60000 per ms of window and lag, in both dimensions |
| GatewayWindow.NoTimeUnlimitedGrants | gateway/ratelimit.py:58-68 | with one request a minute, n pairs of scripts at one moment, every other one given a reading a minute old, are granted at least n requests in a window of no length |
| GatewayWindow.SwingGrants | gateway/redis_state.py:45-58 | for any limits, pairs of scripts at one moment, every other one even a millisecond late, are granted without end |
| GatewayWindow.LagIsExact | gateway/ratelimit.py:58-68 | whatever the limits, every run with scripts at most some lag late stays within cap plus refill over window and lag if and only if that lag is zero |
| SecondCounters.ReadIsLogged | gateway/breaker.py:81-89 | as long as no cell of the range outlived its TTL, the sum over per-second keys is the sum over the log |
| SecondCounters.CountersRefineLog | gateway/breaker.py:81-132 | a refresh's window counts equal the logged counts for every log, candidate and moment if and only if the window is at least 1 s |
| SecondCounters.SumSeconds | gateway/routing/observe.py:82-87 | the summing loop returns each field's total over the range of seconds |
| Observe.Observer.RecordSuccess | gateway/routing/observe.py:52-60 | the counters hold exactly the log with this success and its truncated milliseconds appended |
| Observe.Observer.RecordFailure | gateway/routing/observe.py:62-69 | the counters hold exactly the log with this failure appended |
| Observe.AggregateIsLogged | gateway/routing/observe.py:71-87 | the 4-window TTL never loses a second that an aggregate reads |
| Observe.Observer.Aggregate | gateway/routing/observe.py:71-97 | the aggregate is the summary of exactly the calls logged in the window |
| Observe.Summary | gateway/routing/observe.py:88-97 | total, mean latency and error rate are the ones the counts define, zero without data; the error rate lies in [0,1] |
| Observe.SummaryOfCalls | gateway/routing/observe.py:52-97 | over the recorded calls themselves: the summary counts exactly the successes and failures since the window's first second, its error rate is the failed share, its mean is theirs up to a millisecond; both are zero without data |
| Breaker.StampsFitState | gateway/breaker.py:206-287 | over every run: closed means no stamps, open no half-open stamp, half-open waited out the open duration |
| Breaker.OpenDwells | gateway/breaker.py:218-227 | once open since t, every refresh before t + open duration yields open, still since t |
| Breaker.TripIsStamped | gateway/breaker.py:229-263 | a breaker that opens is stamped with that refresh, and opened for a failed probe or enough samples at the failure threshold |
| Breaker.ClosedDecidedByLog | gateway/breaker.py:257-270 | the refresh of a closed breaker opens it, stamped now, if and only if the window logged at least the minimum of samples and threshold times samples is at most the failures; otherwise it stays closed |
| Breaker.OpenDecidedByClock | gateway/breaker.py:218-287 | the refresh of an open breaker turns it half-open if and only if the open duration has passed, whatever was logged; otherwise it stays open since the same moment |
| Breaker.CountsAreLogged | gateway/breaker.py:125-132 | after every refresh, in any state, the snapshot's counts are those logged in the window |
| Breaker.ClosesThroughHalfOpen | gateway/breaker.py:133-158 | over any readings, from open to closed there is a half-open refresh in between, at least the open duration after opening, and the closing one read a success and no failure |
| HalfOpen.ClosesOnLoggedProbe | gateway/breaker.py:133-158 | the same over every run of samples and timely refreshes, against its log: before the closing refresh a success and no failure was logged from the second of the half-open transition on |
| Breaker.WindowCountsAreLogged | gateway/breaker.py:125-132 | what a refresh counts is what was logged in the window, for windows of at least 1 s |
| Breaker.HalfOpenDecidedByLog | gateway/breaker.py:134-150 | with refreshes at most 4W - 1 s apart a half-open breaker reopens, closes or stays exactly as the log from the second of its transition on says |
| HalfOpen.CadenceIsExact | gateway/breaker.py:138-150 | every run with refreshes at most some gap apart decides its half-open breakers as its log says if and only if the gap is at most TTL - 1 s, or the failure threshold exceeds one so that no breaker ever opens |
| HalfOpen.LateRefreshForgets | gateway/breaker.py:138-150 | a run that trips, half-opens late in a second with a failure logged earlier in it, and refreshes after that failure expired stays half-open |
| HalfOpen.EarlyFailureReopens | gateway/breaker.py:134-144 | in such a run with a timely refresh the breaker reopens although nothing was logged after the transition |
| HalfOpen.StrictDecisionIff | gateway/breaker.py:134-144 | the refresh decides as strictly later samples alone would if and only if one of those failed, or no failure was logged earlier in that second and, unless a later sample succeeded, no success either |
| Breaker.BreakerSet.Increment | gateway/breaker.py:81-89 | one sample is appended to the history the counters and all snapshots stand for |
| Breaker.BreakerSet.SeedSnapshotFromKeys | gateway/breaker.py:180-204 | every candidate with a live sample gets an entry, and nobody's state changes |
| Breaker.BreakerSet.RefreshSnapshot | gateway/breaker.py:96-158 | one refresh moves every candidate by its own readings and no other's, and keeps every snapshot equal to the run of its candidate |
| Breaker.BreakerSet.AggregateInto | gateway/breaker.py:125-154 | every entry is replaced by its next state under its own readings |
| Breaker.BreakerSet.ReadCandidate | gateway/breaker.py:126-150 | window counts, and for half-open entries the counts from the second of the transition on |
| Breaker.BreakerSet.TransitionAfterWindowInto | gateway/breaker.py:272-287 | exactly the open entries whose duration has passed become half-open, stamped now |
| Breaker.BreakerSet.TryProbe | gateway/breaker.py:303-310 | the probe slot is won exactly when free, and then held for ten seconds |
| Breaker.ProbesAreSpaced | gateway/breaker.py:303-310 | however many replicas ask, two wins of the slot are more than ten seconds apart |
| Breaker.WinsIff | gateway/breaker.py:303-310 | of any attempts at a free slot exactly those win that come more than 10000 ms after every earlier win |
| Refresh.AllCandidates | gateway/routing/refresh.py:36-41 | every candidate once, with its first line across the tiers |
| Refresh.LineOfTier | gateway/routing/refresh.py:36-41 | line j of tier i stands right after the lines of all earlier tiers and j lines of its own |
| Refresh.TierOfLine | gateway/routing/refresh.py:36-41 | and there are no other lines |
| Refresh.ViewsAgreeIff | gateway/app.py:183-187 | the first-wins view of the weights and the last-wins view of the bucket agree on a candidate if and only if its first and last lines carry the same limit |
| Refresh.BudgetInUnitIff | gateway/routing/weights.py:48-55 | budget scores stay in [0,1] on every reachable bucket level if and only if the cap is at least the bucket's limit in tokens, or at least one less in requests |
| Refresh.BestIsBest | gateway/routing/refresh.py:66-79 | whatever a tick reads has its error rate in [0,1] and is no better than a healthy idle candidate with a full bucket less the request of the reading |
| Refresh.WeightsInRangeIff | gateway/routing/refresh.py:66-79 | every weight a tick can compute for a line is zero or in [floor, base] if and only if in one dimension the line's limit is at least the bucket's (one less for requests), or the base is zero, or even the best product is below the floor |
| Refresh.TickWeightsInRangeIff | gateway/routing/refresh.py:44-80 | the same for all ticks over a configuration, in terms of a candidate's first line and last limit |
| Refresh.FirstTickExceeds | gateway/routing/refresh.py:36-41 | whenever that guard fails, the first tick over an empty log and an empty Redis gives a weight above the base weight |
| Refresh.ReadSignals | gateway/routing/refresh.py:66-79 | one candidate's signals, read from the logged window and a bucket reading that spends one request of that bucket only |
| Refresh.CollectSignals | gateway/routing/refresh.py:58-80 | signals for exactly the configured candidates whose provider is available; exactly their buckets are read, once each |
| Refresh.TickReadsAvailable | gateway/routing/refresh.py:58-64 | a tick caches exactly the configured candidates whose provider is available |
| Refresh.TickReadsCalls | gateway/routing/refresh.py:66-79 | each with the weight and limits of its first line, its breaker's state, the failed share and mean latency of the calls recorded in its window, and the whole requests and tokens the reading left |
| Refresh.PickedIsUsable | gateway/routing/weights.py:66-125 | whatever is picked from a tick's cache is configured and available, its breaker snapshot is not open, the tick left it a whole request and token, and its window was not all failures |
| Refresh.RefreshTask.Tick | gateway/routing/refresh.py:105-113 | breakers refreshed first, then the cache is replaced by what the candidates' lines, logs, buckets and new breaker states say |
| Backoff.Loop | gateway/routing/refresh.py:115-141 | the wait after every tick is a function of the failures in a row up to it; the loop dies exactly at a streak whose exponent overflows |
| Backoff.StreakWaits | gateway/routing/refresh.py:132-137 | k failures in a row below the cap wait between base(2^k - 1)/2 and base(2^k - 1) in all |
| Backoff.WaitIs | gateway/routing/refresh.py:132-137 | after k + 1 failures in a row the nominal wait is 2^k base waits, at most 30 s; the wait is half of it plus the drawn share of the other half |
| Backoff.CappedWait | gateway/routing/refresh.py:132-137 | from the cap on every wait lies in [15 s, 30 s] |
| Backoff.SuccessForgets | gateway/routing/refresh.py:125-126 | whatever came before, a success waits the base interval and every later streak counts as if the loop had started with it |
| Backoff.SurvivesIffNoLongOutage | gateway/routing/refresh.py:132-135 | the loop survives a history if and only if it has no 1025 failures in a row |
| Accounting.RunKeepsInv | gateway/accounting.py:52-111 | every interleaving of enqueues, drain loop, suspended writes and stop keeps buffer, batch, fates, event and drop count consistent |
| Accounting.Conservation | gateway/accounting.py:52-111 | every enqueued record has exactly one fate; written, in-flight and buffered records are those of their fate in enqueue order; dropped_total counts the overflowed and the failed |
| Accounting.BufferIsBoundedSuffix | gateway/accounting.py:52-61 | the buffer is the most recent stretch of what was enqueued, never longer than the capacity, or than one record |
| Accounting.WithinCapacityIff | gateway/accounting.py:52-61 | the buffer stays within the capacity in every run if and only if the capacity is at least one |
| Accounting.BurstKeepsNewest | gateway/accounting.py:52-61 | after any run a burst of enqueues leaves exactly the newest max(1, capacity) records, drops exactly the others, and sets the event exactly when a full batch is buffered; nothing else changes |
| Accounting.OnlyOverflowDrops | gateway/accounting.py:98-111 | while every write succeeds only overflow drops records |
| Accounting.WakeupNeverLost | gateway/accounting.py:59-94 | whenever the drain loop waits, a full batch in the buffer or a stop has set the event |
| Accounting.WakeupIff | gateway/accounting.py:59-94 | the event is set if and only if a full batch or a stop has set it since the last wait ended |
| Accounting.WaitSendsAll | gateway/accounting.py:87-102 | a wait that ends sends the whole buffer |
| Accounting.DrainsUntilStopped | gateway/accounting.py:85-96 | a started drain task ends only after stop was called |
| Accounting.LeavesNothing | gateway/accounting.py:86-102 | the drain task leaves its loop with an empty buffer, its exit flush having taken what was there |
| Accounting.StopDrains | gateway/accounting.py:74-81 | after stop nothing is in flight, and the buffer is empty, hence enqueued = written + dropped, if and only if nothing arrived since its last flush began |
| Accounting.StopReturns | gateway/accounting.py:74-111 | whatever the writes come back with, from every reachable state a called stop returns, with an empty buffer and nothing in flight, once the suspended coroutines have resumed |
| Accounting.AccountingQueue.EnqueueRecord | gateway/accounting.py:52-61 | an enqueue is the Enqueue step of the run |
| Accounting.AccountingQueue.BeginFlush | gateway/accounting.py:98-102 | the whole buffer leaves as the batch before the write suspends |
| Accounting.AccountingQueue.EndFlush | gateway/accounting.py:103-108 | the batch is written, or counted as dropped when the write raises |
| Accounting.AccountingQueue.TestLoop | gateway/accounting.py:86-96 | the loop goes back to its wait, or after a stop flushes what is left and ends |
| Accounting.AccountingQueue.TaskBegins | gateway/accounting.py:85-86 | the drain task's first run is the loop test |
| Accounting.AccountingQueue.WaitEnds | gateway/accounting.py:87-94 | the event is cleared before the flush looks at the buffer |
| Accounting.AccountingQueue.WriteReturns | gateway/accounting.py:94-108 | a returning write settles the batch and resumes the loop or its final flush |
| Accounting.AccountingQueue.StopBegins | gateway/accounting.py:74-76 | stop sets both events |
| Accounting.AccountingQueue.StopResumes | gateway/accounting.py:77-81 | stop's own flush starts only after the drain task has ended |
| Accounting.AccountingQueue.LastWriteReturns | gateway/accounting.py:81-108 | stop returns when its own write has settled |
| CallerCache.RecencyIsByLastAccess | gateway/auth.py:75-89 | the reference order lists each accessed key once, by its last access |
| CallerCache.CacheIsLru | gateway/auth.py:75-89 | over every run of overlapping lookups the cache's keys are exactly the last maxsize distinct keys by committed access, in that order |
| CallerCache.HitKeyOutlivesNewerOne | gateway/auth.py:75-89 | in a cache of two, after inserting a and b and hitting a, inserting c evicts b; without the hit it evicts a |
| CallerCache.AnswersAreTruthful | gateway/auth.py:74-90 | every answer is the enabled-filtered row of some moment, less than a TTL old from the cache and within the lookup itself from the database |
| CallerCache.HitIff | gateway/auth.py:73-79 | a lookup is answered at once, with what was last fetched for its key, no caller included, if and only if the key is among the last maxsize answered and that fetch began less than a TTL ago; otherwise it asks the database |
| CallerCache.RowIsRead | gateway/auth.py:81-83 | the query takes the row as it is at that moment, a disabled caller counting as none, and changes nothing else |
| CallerCache.FetchIsAnswered | gateway/auth.py:81-90 | a lookup whose row was read is answered with that row, and the fetch counts from when the lookup began |
| CallerCache.CallerResolver.BeginLookup | gateway/auth.py:74-79 | a hit needs an entry younger than the TTL and moves it to the end; a miss changes nothing |
| CallerCache.CallerResolver.CommitLookup | gateway/auth.py:81-90 | the enabled-filtered row is stored with the time the lookup began, moved to the end, and the oldest entry evicted beyond the maximum |
| ConfigStore.LoadedTier | gateway/config_store.py:77-96 | a loaded tier lists, in provider order, exactly the providers whose row has that tier, with the row's entry |
| ConfigStore.LoadRaisesIff | gateway/config_store.py:59-116 | a load raises if and only if the routing row is missing; otherwise it has that row and a list for every tier of the tier table |
| ConfigStore.LastLineWins | gateway/config_store.py:172-182 | of several lines of a provider in one tier the last is written |
| ConfigStore.WriteMerges | gateway/config_store.py:164-193 | after a write tier names are the union; each provider named has its whole row replaced, last line per tier; all other providers keep theirs |
| ConfigStore.RoundTripLines | gateway/config_store.py:59-116 | through empty tables a tier keeps its candidates if and only if no provider has two different lines in it |
| ConfigStore.RoundTripIsIdentityIff | gateway/config_store.py:59-116 | the round trip through empty tables is the identity if and only if every tier lists each provider once, in provider order |
| ConfigStore.WriteBackLoadsSame | gateway/config_store.py:164-193 | writing back a loaded config never changes what is loaded |
| ConfigStore.WriteBackIsIdentityIff | gateway/config_store.py:164-193 | it leaves the tables unchanged if and only if no tier has a fallback and no loaded provider's row mentions an unknown tier |
| ConfigStore.WriteBackOfOwnWrites | gateway/config_store.py:164-193 | tables that only saw writes of the store are never changed by a write-back |
| ConfigStore.ConfigStore.WriteToDb | gateway/config_store.py:164-193 | collecting rows over all tiers and upserting them produces exactly the written tables |
| ConfigStore.ConfigStore.AddTier | gateway/config_store.py:172-182 | one tier's lines grow the collected rows to those of the larger config |
| ConfigStore.ConfigStore.CollectRows | gateway/config_store.py:169-182 | tiers are upserted without a fallback and the rows of all providers collected, in any order of tiers |
| ConfigStore.ConfigStore.UpsertRows | gateway/config_store.py:184-185 | each collected row replaces its provider's row and no other |
| ConfigStore.ConfigStore.LoadFromDb | gateway/config_store.py:59-116 | a missing routing row raises; otherwise the tables are transposed into tier lists in provider order |
| ConfigStore.ConfigStore.LoadOrRefresh | gateway/config_store.py:118-150 | a warm, unforced load answers from the cache; otherwise the database decides, and a successful load is cached for the TTL, or raises with the cache as it was when the cache write fails |
| ConfigStore.ConfigStore.Write | gateway/config_store.py:152-156 | the tables are written and the cache dropped |
| ConfigFlight.SingleFlight | gateway/config_store.py:118-150 | however callers interleave, forced or not, successful loads are at most one plus forced loads, failed cache writes and invalidations, and every caller that returns has a loaded config |
| ConfigFlight.AllowancesAreUsed | gateway/config_store.py:118-150 | for any numbers of failed cache writes, forced loads and invalidations there is a run with exactly these in which the bound is reached |
| ConfigFlight.CountsAreReal | gateway/config_store.py:118-156 | the allowances count nothing else: a forced load, a cache write that failed after a load, a cached config that went |
| ConfigFlight.UndisturbedFlight | gateway/config_store.py:118-150 | without forced loads, failed writes and invalidations at most one load succeeds and all callers that return have the same config |
| ConfigFlight.WarmStaysWarm | gateway/config_store.py:125-150 | a warm cache changes only by invalidation or a forced load, and only a forced caller reads the database |
| ConfigFlight.StoredIsServed | gateway/config_store.py:125-162 | a stored config answers every unforced caller at once for its whole TTL, unless it is dropped or another store replaces it |
| ConfigFlight.RaisesIff | gateway/config_store.py:118-150 | a caller raises exactly when its load fails or finds no routing row, or its write to the cache fails |
| ConfigFlight.ForcedLoads | gateway/config_store.py:125-150 | a forced caller returns what the database holds, whatever is cached |
| ConfigFlight.WriteIsSeenIff | gateway/config_store.py:152-156 | whoever returns after a write's drop has the written config or a later one, in every continuation, if and only if no load was in flight at the drop that had read the database before the write's last upsert |
| ConfigFlight.StaleStoreBounded | gateway/config_store.py:148-162 | once such a load has stored after all, older configs are returned for at most the TTL from then on |
| Names.LessIsLexicographic | gateway/db.py:185-188 | the order of names is decided at the first difference: a smaller character, or an end |
| Names.SortNames | gateway/db.py:185-188 | the providers come in strictly increasing order, each once |

## Left out

- Vendor adapters, HTTP endpoints, metrics, logging, secrets, pricing, the response body and token usage of an attempt: a vendor call is an arbitrary answer after an arbitrary time.
- Floating point: levels are scaled integers and seconds are reals, so neither rounding nor the number-to-string conversion of stored levels is modelled; this is also why the fallback of the weighted draw is unreachable here.
- Redis: keys are maps with an expiry, a script is one atomic step; the EVALSHA fallback and key spelling (and so names that collide in a key) are not part of this model.
- BucketRuns.GrantsBounded: observations in runs are not negative; the single scripts take any. Clamps of candidates without a limit entry raise and change nothing.
- Caller header parsing and the HMAC: a key hash is an opaque key.
- Router.Router.Route: the response body is not modelled; an exception other than a provider error is one outcome, whichever it is.
- Router.ReturnsByDeadline: computing between two clock readings costs no time, and the bound is the first clock reading if that is already later.
- GatewayWindow.VendorCallsBounded: one fixed limit per candidate for the whole run, as the bucket has; a script runs at most nine minutes after its reading and never before it, on Redis's own clock; calls are placed in the window by when their script ran.
- Breaker.ClosesThroughHalfOpen: readings are arbitrary here; `HalfOpen.ClosesOnLoggedProbe` is the statement against the log. Refreshes of one replica do not overlap, and the sample threshold is positive.
- Refresh.RefreshTask.Tick: each candidate is read at its own moment, but nothing is recorded or acquired in between; a tick that raises half-way is only a failed tick in `Backoff`.
- Breaker.BreakerSet.RefreshSnapshot: all counters are read at the refresh's own moment.
- Observe.Observer.RecordFailure: the per-kind failure counters, which nothing reads.
- Accounting: cancellation of a suspended write, and starting the queue again after `stop`.
- ConfigStore.ConfigStore.Write: the upserts run as one step here, while the code issues them one by one although its comment says atomically; in `ConfigFlight` each upsert is a step and a version of its own.
- ConfigStore.ConfigStore.LoadFromDb: the three fetches of a load see one state of the tables, in `ConfigFlight` too.
- ConfigFlight.SingleFlight: one replica, whose callers share the lock; bytes in the cache that do not parse are a cold cache.
- ConfigStore: provider mode, secrets mode and callers, which a load sets to constants; the database orders names lexicographically by character.
- Names.SortNames: the database's ORDER BY is modelled by selecting the least name again and again.
