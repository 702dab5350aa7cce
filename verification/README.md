# Service runtime: models and proofs

A Dafny model of the state machines in a Go toolkit of service-runtime primitives, with proofs of what
they promise over every run. One module a file:

| file | models |
|---|---|
| Breaker.dfy | the circuit breaker: the object, and every interleaving of its callers |
| Retry.dfy | exponential backoff with full jitter, and the load it makes inside the breaker |
| TokenBucket.dfy | the in-memory token bucket, over exact reals and integer nanoseconds |
| RedisBucket.dfy | the Lua token bucket, and its agreement with the in-memory one |
| Limiter.dfy | the keyed limiter: policies, reconfiguration, the idle sweep |
| CaptureWriter.dfy | the recording response writer |
| Idempotency.dfy | the idempotency table and middleware, many requests at once |
| LruCache.dfy, LruRuns.dfy | the LRU cache, and what holds over its runs |
| Introspection.dfy | token introspection with a cache for when the service is down |
| ScopeKey.dfy | the canonical cache key of a scope list |
| FlagStore.dfy | the file-backed flag store |
| Approval.dfy | the governance hook and its approval polling |
| DeadLetters.dfy | the dead-letter directory, its file names and its listing |
| ReliablePublisher.dfy | publish, dead-letter and replay, with crashes at any step |
| Text.dfy | trimming, byte order and sorting of strings |
| Options.dfy, Sets.dfy | optional values, sizes of sets |

`dafny verify dfyconfig.toml` checks everything.

How to read it. An object that the Go code changes in place is a class; each method is proved equal to a
function on the value of its fields (`View()`, `Contents()`, `rows`). The theorems are about those functions
over whole runs. A concurrent protocol is a transition system whose steps are the source's critical sections
or database statements, in any order and any number. Clocks, random draws, contexts and services are
parameters or oracles; failures are nondeterministic.

## What is proved

- **Breaker.** While half-open, the counter is exactly the probes of this period, none of which has returned,
  so a full breaker always has a pending return and any return moves it on (`HalfOpenNeverWedges`,
  `OneOutcomeEndsPeriod`). It is closed exactly while the outcomes since it closed do not end in
  `FailureThreshold` failures (`TripCondition`), and from the outcome that opens it nothing is admitted until
  `ResetTimeout` later, however late old outcomes arrive (`NoAdmissionAfterTrip`, `OpenWindow`). At most
  `HalfOpenMax` probes are in flight in every run whose calls take at most d exactly when d is below
  `ResetTimeout` (`ConcurrentProbes`).
- **Retry and outage.** At most `FailureThreshold * MaxAttempts` attempts reach a dead server before the reset
  timeout (`OutageLoadBound`).
- **Rate limiting.** Conservation of tokens under changing policies and clocks that go back, for one bucket
  (`RateBound`), for a key of a limiter that sweeps (`LimiterRateBound`, `LimiterWorstCase`) and for requests that
  overlap (`OverlappingRateBound`); denied requests leave no trace, exactly if policy changes keep up with them
  (`DenialsFreeIff`); the hint is the least sufficient wait to the nanosecond (`HintIsLeast`); the two
  implementations give the same decisions and waits throughout every run (`ImplementationsAgree`); the idle sweep
  is invisible exactly when it can be (`EvictionInvisibleIff`).
- **Idempotency.** Two handlers for one key start at least a row's lifetime apart (`AtMostOneExecution`);
  a replay repeats one execution of its key (`ReplayRepeatsAnExecution`, `ReplayFaithful`), and in every run whose
  responses are stored within d of arrival it is the row's own exactly when d is below the ttl (`FidelityIff`,
  `ReplayFidelity`, `LiveRowAnswers`). Expired keys run again, and answers after a sweep are from live rows exactly
  if inserts are prompt (`ExpiredKeyRunsAgain`, `ExpiryIff`).
- **Caches.** The LRU cache refines a recency-ordered sequence, a smaller cache is always included in a larger
  one (`Inclusion`), and the introspection fallback gives exactly the last definitive answer (`FallbackSound`,
  `FallbackExact`). Scope keys coincide exactly for equal scope sets (`KeyCanonical`).
- **Flags, approvals.** No update is missed (`NoMissedUpdate`, `ReloadCatchesUp`, `BoundedStaleness`); a tool
  call is permitted exactly on positive evidence, within a bounded number of polls (`GovernanceCheck`).
- **Publishing.** With a crash possible at every step, nothing reported as published or dead-lettered is lost at
  any later time (`NoLoss`), and a record leaves the directory only if a copy of it was accepted
  (`NothingLeavesUnaccepted`). Dead letters are replayed in order of the instants they were created at
  (`NameOrder`, over the Gregorian calendar).

## Where the code and its documentation part

- `HalfOpenMax` is documented as the maximum of concurrent probes. It bounds the probes of one half-open
  period; probes left over from an earlier period are not counted. For every configuration `StaleProbeExceedsMax`
  is a run with one probe too many in flight and no call longer than `ResetTimeout`; `ConcurrentProbes` says that
  the bound holds exactly if calls are shorter than that.
- A Retry call sleeps less than `(MaxAttempts - 1) * MaxDelay` only if more than one attempt is configured;
  with one attempt both are zero. `Retry.Retry` states it as an equivalence.
- Erasing denied requests is harmless for requests with any clock readings, but a policy change whose reading is
  behind a denied request's counts its rate from that request on. `DenialsFreeIff` says exactly which readings are
  free of this.
- A sweep drops an entry only after more than `MaxAge`, so eviction is invisible exactly when the rate refills
  the burst in `MaxAge` plus one nanosecond; `rate * MaxAge >= burst` is sufficient. `EvictionInvisibleIff`
  has both directions.
- A policy change keeps the depleted bucket so that toggling policies cannot reset an allowance. A sweep does not
  keep it: the next request gets a full burst of its own policy, and if that is above the old burst this is always
  more than the kept bucket would have had. `SweepGives` has the exact amount, `LimiterRateBound` the total.
- The recorder keeps the first status asked for. If that one is informational (1xx other than 101) it is not
  the status the client received; `RecordedFaithfully` is an equivalence. Replays still reach their client with
  the original status. The stored Content-Type is the one set last, which is the one sent exactly when the
  handler did not change it after sending: `ReplayFaithful`.
- A handler that outlives its row stores its response in whatever row has taken the place:
  `LateCompletionIsReplayed` for any such state, and `OvertakenReplay`, for every configuration, a run from the
  start in which that happens exactly ttl after arrival. `FidelityIff` has both directions.
- A request that has just swept can still be answered from an expired row, one that a slow request inserted after
  the sweep. `ExpiryIff`: exactly if requests may take ttl or longer to insert their row.
- A scope that contains the separator shares the key of the two scopes it joins: `NulCollides`. `CollidesIff` says
  exactly which lists share their key with another.
- File names stop sorting by time in year 10000: `YearOverflow`.

## Model

| member | source | states |
|---|---|---|
| Breaker.Config.WithDefaults | resilience/breaker.go:47-58 | each field is kept if valid and otherwise 5 failures, 30 s, 1 probe |
| Breaker.Breaker.constructor | resilience/breaker.go:76-88 | a new breaker is closed with zero counters |
| Breaker.Breaker.StateLocked | resilience/breaker.go:106-115 | promotes an open breaker to half-open when the timeout has elapsed, and reports a change exactly when there is one |
| Breaker.Breaker.Reset | resilience/breaker.go:118-130 | closes the breaker and clears its counters |
| Breaker.Breaker.Before | resilience/breaker.go:147-172 | admits, rejects or admits as a probe, with the new state |
| Breaker.Breaker.OnSuccess | resilience/breaker.go:205-218 | the state after a successful outcome, and the transition reported |
| Breaker.Breaker.OnFailure | resilience/breaker.go:222-239 | the state after a failed outcome, and the transition reported |
| Breaker.Breaker.After | resilience/breaker.go:178-201 | a probe's outcome is discarded unless the breaker is half-open, others are applied |
| Breaker.StepKeepsInv | resilience/breaker.go:106-239 | every critical section of every caller keeps the invariant relating fields, calls in flight and applied outcomes |
| Breaker.RunKeepsInv | resilience/breaker.go:106-239 | so does every interleaving |
| Breaker.HalfOpenNeverWedges | resilience/breaker.go:147-239 | half-open: the counter is the number of probes of this period, at most HalfOpenMax, all in flight; a full breaker has a pending return; every return moves it on |
| Breaker.OneOutcomeEndsPeriod | resilience/breaker.go:178-239 | a half-open period is over exactly when some call has returned or a Reset happened since, stale calls included |
| Breaker.LateProbeUnheard | resilience/breaker.go:178-201 | a probe that returns when the breaker is not half-open changes nothing, whatever its outcome; every other return while closed counts; an open breaker stays as it is |
| Breaker.ConcurrentProbes | resilience/breaker.go:42-42 | at most HalfOpenMax probes are in flight in every state of every run whose readings do not go back and whose calls take at most d, if and only if d < ResetTimeout |
| Breaker.StaleProbeExceedsMax | resilience/breaker.go:174-186 | for every configuration, a run whose calls take at most ResetTimeout with HalfOpenMax + 1 probes in flight |
| Breaker.RunNoneStale | resilience/breaker.go:147-239 | with calls shorter than ResetTimeout no probe outlives its half-open period into the next |
| Breaker.TripCondition | resilience/breaker.go:205-239 | closed exactly while the outcomes of ordinary calls returned since closing do not end in FailureThreshold failures, and exactly while the counter is below the threshold |
| Breaker.OpenWindow | resilience/breaker.go:106-115 | an open breaker admits nothing and does not change until a reading of openedAt + ResetTimeout, and admits the first caller that reads it |
| Breaker.NoAdmissionAfterTrip | resilience/breaker.go:222-239 | only a failed return opens the breaker, and nothing is admitted for ResetTimeout from its clock reading |
| Retry.Config.WithDefaults | resilience/retry.go:21-38 | each field is kept if valid and otherwise 3 attempts, 100 ms, 10 s and factor 2, or 1 for a factor below 1 |
| Retry.WindowsGrow | resilience/retry.go:100-114 | jitter windows never shrink, never exceed MaxDelay and are never empty |
| Retry.BackoffReachesCap | resilience/retry.go:98-105 | the first window is the initial delay, capped; with a multiplier above 1 the windows reach MaxDelay within MaxDelay / (multiplier - 1) attempts |
| Retry.WindowStep | resilience/retry.go:98-105 | the delay starts at the initial one and each is the multiplier times the one before; up to the cap a window is that in whole nanoseconds |
| Retry.WindowDoubles | resilience/retry.go:98-105 | for a whole multiplier each window is that many times the one before, up to MaxDelay |
| Retry.FullJitter | resilience/retry.go:106-113 | exactly the delays of [0, window) can be drawn |
| Retry.DelayBound | resilience/retry.go:98-114 | every delay is below MaxDelay |
| Retry.Retry | resilience/retry.go:59-96 | attempts go on exactly while they fail with an error that is not permanent and may be retried and the wait is not cut short, up to MaxAttempts; the outcome names the reason and the count; a done context may win or lose against a ready timer; total sleep is below (MaxAttempts - 1) * MaxDelay exactly when MaxAttempts > 1 |
| Retry.PublishMessage | natsbus/reliable.go:244-251 | no attempt exactly when the breaker rejects, else attempts up to the first that ends the retries and no further, success exactly if that one succeeded; the breaker's new state; in an outage it is one failed breaker call |
| Retry.OutageRun | resilience/breaker.go:135-239 | from any closed or open state, exactly the failures short of the threshold are let through |
| Retry.OutageLoadBound | natsbus/reliable.go:244-251 | from a freshly closed breaker at most FailureThreshold * MaxAttempts attempts are made before the reset timeout |
| TokenBucket.TokenBucket.constructor | ratelimit/ratelimit.go:338-345 | a new bucket is full |
| TokenBucket.TokenBucket.RefillTo | ratelimit/ratelimit.go:351-360 | lazy refill with the clock clamped, capped at the burst |
| TokenBucket.TokenBucket.AllowAt | ratelimit/ratelimit.go:347-376 | takes a token if there is one, else reports the wait |
| TokenBucket.TokenBucket.ReconfigureAt | ratelimit/ratelimit.go:378-398 | settles at the old rate, then caps at the new burst |
| TokenBucket.GainPerSecond | ratelimit/ratelimit.go:355-357 | a rate is in tokens per second |
| TokenBucket.RateBound | ratelimit/ratelimit.go:347-398 | tokens stay in [0, burst]; requests allowed plus tokens left never exceed tokens at the start plus what each rate accrued over its clamped time in force |
| TokenBucket.RateBoundWindow | ratelimit/ratelimit.go:347-398 | the same for any window of a run, with the burst in force at its start |
| TokenBucket.FixedPolicyBound | ratelimit/ratelimit.go:347-376 | under one policy at most burst + rate * elapsed requests are allowed |
| TokenBucket.TogglingGainsNothing | ratelimit/ratelimit.go:192-196 | switching policy and back at one instant never adds tokens, and costs only what the other burst cannot hold |
| TokenBucket.DenialsAreFree | ratelimit/ratelimit.go:347-398 | erasing all denied requests from a run leaves every other decision, and every later one, as it was, if no policy change reads a clock behind an earlier request's, unless a policy change had already read as late |
| TokenBucket.DenialsFreeIff | ratelimit/ratelimit.go:347-398 | for given readings that is so of every bucket and all policies if and only if the policy changes keep up in this way |
| TokenBucket.LateChangeTells | ratelimit/ratelimit.go:378-398 | otherwise there are policies under which a request at the last reading is denied with the denied requests and allowed without them |
| TokenBucket.LateReconfigureIff | ratelimit/ratelimit.go:378-398 | one request and one policy change: if and only if the change does not read an earlier clock |
| TokenBucket.HintIsLeast | ratelimit/ratelimit.go:362-375 | alone with the bucket, a denied caller is allowed at exactly the readings from the hinted wait on; above the millisecond floor the hint is that wait |
| TokenBucket.HintSuffices | ratelimit/ratelimit.go:149-154 | waiting the hint, or the whole seconds of Retry-After (section 10.2.3 of RFC 9110), is enough, and one second less is not |
| RedisBucket.Redis.RunScript | ratelimit/redis.go:15-52 | what the script stores and returns for a key |
| RedisBucket.OneStepAgrees | ratelimit/redis.go:15-52 | one request moves script and local bucket in step |
| RedisBucket.ImplementationsAgree | ratelimit/redis.go:15-87 | from an absent key, for a fixed policy and any millisecond-aligned readings in any order, both decide every request of the run alike and tell a denied caller waits less than 1 ms apart |
| RedisBucket.OneHintAgrees | ratelimit/redis.go:54-87 | denied, the script's wait is never shorter than the local one and less than 1 ms longer |
| Limiter.Config.WithDefaults | ratelimit/ratelimit.go:266-294 | each of rate, burst and age is kept if positive and otherwise 100, 200, 5 minutes |
| Limiter.PolicyForRequest | ratelimit/ratelimit.go:203-236 | a positive rate and burst, the override's if positive, else the configured one; the first non-blank of the override's scope, the request's, its path and unknown; exempt exactly by path or override |
| Limiter.Limiter.AllowLocal | ratelimit/ratelimit.go:184-201 | creates, reconfigures or reuses the key's bucket, and decides by it |
| Limiter.Limiter.Cleanup | ratelimit/ratelimit.go:247-254 | one sweep removes exactly the entries idle past MaxAge |
| Limiter.LimiterIsBucket | ratelimit/ratelimit.go:184-254 | keys do not interfere: from any state, one key's decisions are those it would get alone, first request, policy changes and sweeps included |
| Limiter.LimiterRateBound | ratelimit/ratelimit.go:184-254 | a key is allowed at most the tokens it had, what each rate accrued while in force, and a burst for each request that found it without an entry |
| Limiter.LimiterWorstCase | ratelimit/ratelimit.go:184-254 | from an empty limiter: at most (1 + sweeps) bursts plus the highest rate over the elapsed time |
| Limiter.SweepGives | ratelimit/ratelimit.go:192-196 | what a sweep adds for the next request, exactly, and never nothing if its burst is above the old one |
| Limiter.OverlappingRateBound | ratelimit/ratelimit.go:187-200 | with lookups, decisions and sweeps interleaved between the two locks and any clocks, a key gets at most one bucket and one more for each sweep, and is allowed at most a burst for each and what the rates in force accrued |
| Limiter.OverlappingOwnBucket | ratelimit/ratelimit.go:187-200 | then every request asks a bucket of its own key, and each bucket allows at most its first burst and what its rates accrued |
| Limiter.SameDecisions | ratelimit/ratelimit.go:238-257 | if every key refills within MaxAge + 1 ns, sweeping changes no decision of any run with nondecreasing readings |
| Limiter.EvictionInvisibleIff | ratelimit/ratelimit.go:238-257 | and only then |
| CaptureWriter.CaptureResponseWriter.WriteHeader | httpkit/response.go:65-72 | the first status is recorded and passed on, later ones dropped |
| CaptureWriter.CaptureResponseWriter.Write | httpkit/response.go:74-80 | records and passes on the bytes, with status 200 if none was given |
| CaptureWriter.CaptureResponseWriter.ReadFrom | httpkit/response.go:108-116 | records and passes on what the reader gives, chunk by chunk |
| CaptureWriter.RecordedFaithfully | httpkit/response.go:47-80 | for every handler trace the recorded body is the received one, and the recorded status is exactly when it is not informational |
| CaptureWriter.ReplayFaithful | idempotency/idempotency.go:126-151 | a replay reaches its client with the original status and body, and with its Content-Type or the default exactly when the handler did not change that after sending |
| Idempotency.Config.WithDefaults | idempotency/idempotency.go:173-190 | ttl and interval are each kept if positive and otherwise 24 hours and 5 minutes |
| Idempotency.PostgresStore.Cleanup | idempotency/idempotency.go:203-206 | deletes exactly the rows whose expiry has passed, completed or not |
| Idempotency.PostgresStore.Begin | idempotency/idempotency.go:209-250 | inserts a row where there is none, else conflict, pending or replay |
| Idempotency.PostgresStore.Complete | idempotency/idempotency.go:253-265 | fills in the response of whatever row has the key |
| Idempotency.StepKeepsInv | idempotency/idempotency.go:96-151 | every step of every request keeps: a started handler's row is there with its expiry, or that expiry has passed |
| Idempotency.AtMostOneExecution | idempotency/idempotency.go:112-151 | in every interleaving, two handlers for one scope and key are different requests and the second starts no earlier than the first one's row expires; only started requests answer with their own response |
| Idempotency.ReplayRepeatsAnExecution | idempotency/idempotency.go:126-151 | in every run a replay carries exactly what one execution for that scope and key recorded, and its client gets the status and body that execution's client got, and its Content-Type as ReplayFaithful says |
| Idempotency.LiveRowAnswers | idempotency/idempotency.go:216-249 | if responses are stored before their rows expire: while a handler's row lives, others for its key get a conflict for another hash, in-progress until its response is stored, and exactly its response after |
| Idempotency.ReplayFidelity | idempotency/idempotency.go:126-151 | if responses are stored before their rows expire, a replay repeats the execution that inserted the row, for the same scope, key and request hash, with status, body and Content-Type as received |
| Idempotency.LateCompletionIsReplayed | idempotency/idempotency.go:285-289 | a late handler's response is what the row's next matching request is answered with |
| Idempotency.OvertakenReplay | idempotency/idempotency.go:209-265 | for every configuration, a run in which that happens with no response stored later than ttl after arrival |
| Idempotency.FidelityIff | idempotency/idempotency.go:209-289 | in every run whose responses are stored within d of arrival, every replay is of the row's own execution, if and only if d < ttl |
| Idempotency.SweepIsExact | idempotency/idempotency.go:274-274 | in every state a sweep leaves exactly the rows not expired at its request's reading, whatever they hold |
| Idempotency.ExpiredKeyRunsAgain | idempotency/idempotency.go:96-132 | past its expiry, with a sweep due, a key's next request starts its handler, whether the old row was ever filled or not |
| Idempotency.LateInsertReplayed | idempotency/idempotency.go:209-250 | for every configuration, a run in which a request that has swept is answered from a row expired at its reading, inserted ttl after its request arrived |
| Idempotency.ExpiryIff | idempotency/idempotency.go:209-274 | in every run whose rows are inserted within d of arrival, a request that has swept is answered only from rows not expired at its reading, if and only if d < ttl |
| Idempotency.FailuresChangeNothing | idempotency/idempotency.go:105-151 | a failed statement changes no row and starts no handler; failed sweeps and stores are passed over, failed lookups and inserts answered with an error |
| LruCache.LruCache.constructor | identityclient/client.go:566-572 | a new cache is empty |
| LruCache.LruCache.Get | identityclient/client.go:575-588 | finds exactly the held keys, with their value, and moves the entry to the front |
| LruCache.LruCache.Put | identityclient/client.go:592-616 | stores at the front, dropping the last entry past maxSize; map and list stay linked |
| LruCache.LruCache.EvictBack | identityclient/client.go:607-615 | removes the back element from list and map |
| LruCache.LruCache.Delete | identityclient/client.go:619-626 | removes exactly that key |
| LruCache.LruCache.DeleteFunc | identityclient/client.go:640-653 | removes exactly the entries the test picks, walking the list while removing |
| LruCache.LinkedKeys | identityclient/client.go:555-564 | map and list hold the same duplicate-free keys |
| LruRuns.RunWellFormed | identityclient/client.go:575-653 | after every run the keys are distinct and within maxSize |
| LruRuns.ReadsAndDeletes | identityclient/client.go:575-653 | an entry is held after a Get exactly if before, after a Delete or DeleteFunc exactly if not named or picked |
| LruRuns.Writes | identityclient/client.go:592-616 | a Put is read back, drops another key only from a full cache, and the size says so |
| LruRuns.Inclusion | identityclient/client.go:575-653 | the same operations on caches of sizes m <= n: every key of the smaller is in the larger with the same value |
| LruRuns.RunByRecency | identityclient/client.go:575-653 | after every run the entries are in order of last use and each has the value last written |
| LruRuns.EvictsLeastRecent | identityclient/client.go:607-615 | a key pushed out was used longer ago than every key that stays |
| Introspection.Client.constructor | identityclient/client.go:155-177 | an empty cache of the configured size, 10000 by default |
| Introspection.Client.CachedIntrospection | identityclient/client.go:455-472 | the cached answer if held and not expired, which an expired lookup removes |
| Introspection.Client.StoreIntrospection | identityclient/client.go:474-487 | prunes what expired and stores with the new expiry |
| Introspection.Client.EvictIntrospection | identityclient/client.go:489-497 | removes the token |
| Introspection.Client.Introspect | identityclient/client.go:221-291 | fresh exactly on a decoded 200 that is active, inactive on one that is not, invalid on a status other than 200, 408, 429 and 5xx, else the cached answer or unavailable; and the new cache |
| Introspection.FallbackSound | identityclient/client.go:242-291 | a cached answer is returned only when the service said nothing, is the last it did say of the token, that it is active, and is at most cacheTTL old at the lookup |
| Introspection.FallbackExact | identityclient/client.go:221-291 | with room for every token and readings that do not go back, exactly then |
| Introspection.FallbackGiven | identityclient/client.go:221-291 | the same said of the run alone: the last thing heard of a token, active and at most cacheTTL ago, is what a call that hears nothing gets |
| Introspection.HeldAreActive | identityclient/client.go:474-505 | every held entry is of an active token, with the last the service said of it and its expiry |
| Introspection.RefusalForgets | identityclient/client.go:263-286 | a token called invalid or inactive is no longer held |
| Introspection.NothingExpiredAfterStore | identityclient/client.go:474-505 | storing an answer clears out what has expired |
| Introspection.SoundRun | identityclient/client.go:474-505 | every held entry is the service's last definitive, active answer: an invalid or inactive one removes it |
| ScopeKey.Normalize | identityclient/client.go:508-515 | trims and drops blanks, in order |
| ScopeKey.DedupeInPlace | identityclient/client.go:517-523 | deduplicates the array it is reading |
| ScopeKey.CacheScopesKey | identityclient/client.go:507-525 | the key of a scope list |
| ScopeKey.DedupedAscends | identityclient/client.go:516-523 | of a sorted list each element is kept once, strictly ascending |
| ScopeKey.JoinInjective | identityclient/client.go:524-524 | joining lists of nonempty NUL-free strings is injective |
| ScopeKey.KeyCanonical | identityclient/client.go:507-525 | NUL-free lists share a key exactly when their sets of trimmed, non-blank scopes are equal |
| ScopeKey.NulCollides | identityclient/client.go:524-524 | with a NUL in a scope they can share one without |
| ScopeKey.CollidesIff | identityclient/client.go:507-525 | a list shares its key with a list of other scopes exactly when it has two different scopes, or one that parts at a NUL into two trimmed scopes in order |
| FlagStore.LastEntryWins | featureflags/file_store.go:191-205 | the index has exactly the keys some entry names, each with the last such entry |
| FlagStore.FileStore.Reload | featureflags/file_store.go:168-219 | succeeds exactly if the stat does and the file is not newer or can be read and decoded; skipping or failing changes nothing; else snapshot, index and time are replaced |
| FlagStore.FileStore.RefreshIfNeeded | featureflags/file_store.go:145-166 | changes nothing within the poll interval, and reloads and notes the time past it |
| FlagStore.FileStore.Lookup | featureflags/file_store.go:105-123 | refreshes, then looks the trimmed key up |
| FlagStore.NoMissedUpdate | featureflags/file_store.go:168-179 | with rewrites between stat and read, a reload that skips holds the current content, and the flags are the index of the snapshot |
| FlagStore.ReloadCatchesUp | featureflags/file_store.go:168-219 | a completed reload holds a version at least as new as when it began |
| FlagStore.BoundedStaleness | featureflags/file_store.go:145-166 | while reloads succeed, a lookup sees every version written up to one poll interval before |
| Approval.DecisionFromApproval | agenthook/run.go:301-327 | permits exactly on an approved or auto-approved last decision; refusals name the decision or the state |
| Approval.PollLoop | agenthook/run.go:224-246 | permits exactly on a poll in time whose trimmed state is settled and whose last decision approves, every earlier poll having been in time and pending; what ends the wait names the refusal; at most floor(timeout / interval) + 1 lookups |
| Approval.AwaitApproval | agenthook/run.go:189-247 | the same, given a client and a non-blank approval id |
| Approval.GovernanceCheck | agenthook/run.go:141-187 | permits exactly on ALLOW, or on REQUIRE_APPROVAL with an approval in time |
| Approval.ExitCode | agenthook/run.go:359-370 | exit code 0 exactly when permitted, 2 when a refusal was written |
| DeadLetters.NameLayout | natsbus/reliable.go:411-411 | the name spelled out, with the widths and marks of the layout |
| DeadLetters.DecimalValue | natsbus/reliable.go:411-411 | the digits printed are those of the number |
| DeadLetters.DayOrder | natsbus/reliable.go:411-411 | dates of the Gregorian calendar, counted in days with month lengths and leap years, are in the order of year, month and day |
| DeadLetters.FieldsChronological | natsbus/reliable.go:411-411 | comparing the UTC fields from the year down, as the layout prints them, is comparing instants |
| DeadLetters.NameOrder | natsbus/reliable.go:411-411 | file-name order is the order of the instants of creation for years 0 to 9999, and id order within one instant |
| DeadLetters.YearOverflow | natsbus/reliable.go:411-411 | and not in year 10000 |
| DeadLetters.DeadLetterStore.constructor | natsbus/reliable.go:364-379 | count starts as the number of record files |
| DeadLetters.DeadLetterStore.ScanCount | natsbus/reliable.go:468-480 | counts exactly the record files |
| DeadLetters.RecordFilesAre | natsbus/reliable.go:474-478 | record files are those that are not directories and whose name ends in .json |
| DeadLetters.DeadLetterStore.List | natsbus/reliable.go:420-454 | succeeds exactly if the directory can be read and no unreadable or undecodable record file has fewer than limit record files before it; then the first records in name order up to the limit |
| DeadLetters.DeadLetterStore.Save | natsbus/reliable.go:381-418 | adds the file and counts it, or changes nothing; the count stays exact for a new name |
| DeadLetters.DeadLetterStore.Delete | natsbus/reliable.go:456-462 | removes the file and counts it, or changes nothing |
| ReliablePublisher.ReliablePublisher.constructor | natsbus/reliable.go:102-139 | opens the directory as it is, with a closed breaker; batches of 10 by default |
| ReliablePublisher.ReliablePublisher.PublishMessage | natsbus/reliable.go:244-251 | none attempted if the breaker rejects, else up to the first attempt that ends the retries; what those attempts stored; the breaker's new state |
| ReliablePublisher.ReliablePublisher.Publish | natsbus/reliable.go:157-184 | nil exactly on an acknowledged attempt, and then JetStream has the message; a rejecting breaker sends nothing; otherwise only after the retries have ended, dead-lettered with the same content, or reported as not saved |
| ReliablePublisher.ReliablePublisher.ReplayRecord | natsbus/reliable.go:232-237 | a record is removed exactly when some attempt was acknowledged and the removal did not fail |
| ReliablePublisher.ReliablePublisher.ReplayListed | natsbus/reliable.go:231-241 | removes exactly a prefix, each record after an acknowledgement, ending only where a publish or removal failed; each record is one publishMessage call from the breaker state the one before left, so the first rejected one ends the pass; stored is from that prefix or one record more; the count stays exact |
| ReliablePublisher.ReliablePublisher.ReplayOnce | natsbus/reliable.go:222-242 | lists the oldest records up to a batch unless the listing fails, and replays them so; ok exactly if all of them were removed |
| ReliablePublisher.CopiesCount | natsbus/reliable.go:244-251 | JetStream has a copy for every attempt that was not lost, acknowledged or not |
| ReliablePublisher.DeliveredHas | natsbus/reliable.go:231-241 | every acknowledged record of a pass is stored |
| ReliablePublisher.StepKeepsInv | natsbus/reliable.go:222-268 | every step of publishers, replay and crash keeps the no-loss invariant |
| ReliablePublisher.NoLoss | natsbus/reliable.go:157-268 | in every interleaving with crashes, at every later time: nil means accepted, dead-lettered means in the directory or accepted, and every record ever saved is there unchanged unless a copy was accepted |
| ReliablePublisher.NothingLeavesUnaccepted | natsbus/reliable.go:222-242 | over any stretch of a run a record stays in the directory unchanged unless a copy with its subject, headers and data was accepted |
| ReliablePublisher.NoTempLeftBehind | natsbus/reliable.go:394-415 | a temporary file outlives its save only in a crash |
| ReliablePublisher.CountExact | natsbus/reliable.go:381-479 | count is the number of record files whenever no save or removal is half done |
| Text.TrimIsMiddle | identityclient/client.go:510-510 | the input is spaces, the result, and spaces, and the result has none at either end |
| Text.SpaceCodePoints | identityclient/client.go:510-510 | spaces are Unicode's White_Space code points |
| Text.AscendingUnique | identityclient/client.go:516-523 | a strictly ascending list is determined by its elements |

## Left out

- Clients, servers and transports (HTTP, NATS, Redis, Postgres, Connect, TLS), metrics, tracing and logging: they appear as nondeterministic success or failure.
- Float64 rounding and duration overflow: rates and tokens are exact reals, times unbounded integers.
- Hashes (SHA-256 of requests and bucket keys, FNV of rollouts) and JSON, protobuf and SQL encodings: a request hash is a string, and encodings are assumed to round-trip.
- Panics in called functions and handlers, and durability below an atomic rename.
- OnStateChange callbacks: transitions are returned, not called.
- Redis key expiry: the two implementations are compared for keys that do not expire, and under one policy.
- Limiter.Limiter.AllowLocal: takes the entry lock and the bucket lock together and stores buckets by value; requests that overlap between the two locks are in OverlappingRateBound.
- Idempotency has one store with one clock that does not go back and one time of the last cleanup: several processes on one table, each with its own, are not modelled. The clock reading of a request and the update of lastCleanup are one step; Flush, Hijack, Push and headers other than Content-Type are not modelled.
- A rewrite of the flag file that does not raise its modification time, and reloads that overlap, are outside the flag store's guarantees and outside the model; rollout percentages are not modelled.
- Introspections that overlap on one token, service tokens and their cache.
- UUIDs are assumed not to repeat: a record's file name is new.
- Denial messages of the governance hook are kept as kinds, not as text.
- The remaining packages (async, health, startup, downstream, authmw, mtls, migrate, postgres, redisutil, rterrors, observability, changejournal, the plain NATS publisher): wrappers that would only add easy members.
