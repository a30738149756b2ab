# Verification of an API router's scheduling core

This project models the stateful core of a single-process API router in Dafny and proves what its components promise
over every input and every run. Every mutex-guarded method of the router is one atomic step, and time is an integer
number of nanoseconds that never runs backwards.

* **Key scheduler** (`internal/pool`): `PoolModel` defines the pool as a step machine over key objects, leases,
  waiters and their channels. `PoolConservation` and `PoolRuns` prove what every legal run keeps. `KeyPool.Scheduler`
  is the imperative scheduler; each of its methods is proved to be a sequence of legal steps, so the run theorems hold
  of it. `RequestWindow` is the sliding rate limit, `KeyOrder` the round-robin order, `PoolScan` the allocator's scan
  and the dispatch argument. `PoolClients` lets any other goroutines use the scheduler at the same time.
* **Failover loop** (`internal/router`): `Failover` is the loop on the scheduler itself, with other goroutines at work
  whenever the request waits. Each request is a client, and the pool records in every lease whose it is.
  `FaultMatcher` is the status matcher the loop consults.
* **Proxy exits** (`internal/xkproxy`): `ExitModel` holds the exits and their histories, `ExitRuns` the invariants over
  whole runs, `ExitHistory` and `ExitIsolation` what the reports of a run make of an exit, `ExitPool` the pool that
  edits an array in place, `ExitSelection` the choice of exits.
* **Log buffer** (`internal/observability`): `LogBuffer`, one flusher against any interleaving of producers.
* **Event streams** (`internal/sse`): `SseCodec` (printing and parsing), `SseReader` (the buffered, capturing reader),
  `SsePrime` (look-ahead and replay), `SseLimit` (when the replay is exact for every arrival of the bytes),
  `SseDecoder` (the decoder object), `SseRelay` (the relay to the client).
* **Smaller cores**: `Reasoning` (`internal/compat`) and `EmbedCache` (`internal/embedcache`). `Basics` is shared.

`dafny verify dfyconfig.toml` checks everything.

Where the code does not do what its comments or documentation say, the code is modelled, a concrete case is given and
the exact condition is proved:

* `internal/sse/prime.go` says that every byte read is replayed. A read that crosses the capture limit is handed to
  the decoder and not kept, so an event in it can be accepted and then be missing from the replay
  (`SsePrime.ShortReplay`). The replay is exact if and only if the bytes taken stay within the limit
  (`SsePrime.ReplayExact`), and it is so however the bytes arrive if and only if the stream, or one buffer from the
  blank line that ends the accepted event, stays within it (`SseLimit.ReplayAlways`).
* Encoding and decoding is meant to preserve events. An event that says something and fits the size limit comes back,
  normalised, if and only if no field or comment of it holds a LF or ends in CR (`SseCodec.SurvivesExactly`); what is
  lost otherwise is stated by `SseCodec.TrailingCrIsLost`. Decoded events never hold a LF
  (`SseCodec.AllDecodedNoLf`), so for the relay a trailing CR is the only such loss (`SseRelay.BodyReachesClient`).
* `internal/embedcache/cache.go` stores the entry bound in 32 bits, so an accepted `Put` is readable if and only if the
  truncated bound is positive (`EmbedCache.PutReadable`, `EmbedCache.HugeBoundDisablesCache`). The application itself
  cannot reach this: `internal/runtimeconfig/snapshot.go:180-188` caps the setting at 10000.

Other observations:

* `internal/fault/matcher.go` says that a blank spec never fails over; `internal/router/attempt.go:276-285` takes it for
  the default spec, and so does `Failover.BuildMatcher`.
* Two exits that differ only in user and password can have one key (`ExitModel.CredentialsCollide`), because the parts
  are joined by NUL and a password can hold one. Scheme and address are always determined (`ExitModel.KeyInjective`),
  which is enough for the quarantine.
* A request without the no-relaxation mark can be given a key that it has already tried, as the relaxed pass intends
  (`PoolRuns.RelaxedPassReusesKey`); with the mark it cannot (`PoolConservation.GrantKeepsPromise`).
* The order of a loaded snapshot is strictly ascending if and only if its ids are distinct (`KeyOrder.SortAscending`),
  and only then can every key be removed again without leaving its id in the order (`PoolConservation.SnapshotRemovable`).
* In `internal/sse/proxy.go` the branches for a second terminal marker and for an end of stream after one are never
  reached, because the loop returns with the first marker.

## Model

| member | source | states |
|---|---|---|
| `RequestWindow.RetryAfterExact` | internal/pool/state.go:99-118 | a positive retry-after is exact: without new grants every earlier instant is denied and that instant is admitted |
| `RequestWindow.PruneTracks` | internal/pool/state.go:99-118 | pruning in place keeps the buffer equal to the grant history restricted to the last minute |
| `RequestWindow.GrantTracks` | internal/pool/state.go:88-97 | reserving a request keeps buffer and history in step and any 31 consecutive grants spanning at least a minute |
| `RequestWindow.TracksAnswers` | internal/pool/state.go:99-118 | the answer computed from the pruned buffer is the one that the whole history gives |
| `RequestWindow.WindowBound` | internal/pool/state.go:88-118 | no window of one minute, wherever it lies, holds more than 30 grants of one key object |
| `RequestWindow.RequestTimes.Compact` | internal/pool/state.go:99-109 | the in-place filter leaves exactly the times inside the window, in order |
| `RequestWindow.RequestTimes.RequestRetryAfter` | internal/pool/state.go:99-118 | prunes, and answers what the full history answers |
| `RequestWindow.RequestTimes.ReserveRequest` | internal/pool/state.go:88-97 | records the request exactly when the window admits it, otherwise changes nothing but pruning |
| `RequestWindow.PruneTimes` | internal/pool/state.go:99-118 | the filtering loop leaves the times inside the window and answers the wait that they give |
| `KeyOrder.InsertRotation` | internal/pool/pool.go:156-180 | adding a key changes the rotation from the cursor only by inserting that key |
| `KeyOrder.DropRotation` | internal/pool/pool.go:210-235 | removing a key changes the rotation from the cursor only by deleting that key, and the cursor stays in range |
| `KeyOrder.InsertAscending` | internal/pool/pool.go:185-191 | insertion keeps the order strictly ascending and adds exactly the new id |
| `KeyOrder.DropAscending` | internal/pool/pool.go:210-235 | removal keeps the order strictly ascending and drops exactly that id |
| `KeyOrder.SortAscending` | internal/pool/pool.go:499-501 | the sorted order is strictly ascending if and only if the ids are distinct |
| `KeyOrder.Search` | internal/pool/pool.go:185-191 | binary search finds the slot that separates smaller ids from the rest |
| `KeyOrder.InsertSorted` | internal/pool/pool.go:185-191 | the shifted slice is the ordered insertion |
| `PoolModel.OpenMeans` | internal/pool/pool.go:335-390 | a key is open exactly when it is enabled, valid, unblocked, not cooling, permitted, has a free slot of the right kind and is within its rate limit |
| `PoolModel.ClassMeans` | internal/pool/pool.go:335-390 | which obstacle of a key is met first, in terms of its fields and the request |
| `PoolModel.RefusalUnique` | internal/pool/pool.go:400-443 | the declarative refusal determines reason and retry-after uniquely |
| `PoolScan.TallyDecides` | internal/pool/pool.go:335-443 | the flags and minima that the scan accumulates give the declarative refusal, with the minimum retry-after over cooling or rate-limited keys |
| `PoolScan.CoolingExact` | internal/pool/pool.go:400-443 | the wait of a cooldown refusal is exact: at every earlier instant the refusal is the same with what is left of the wait, and at its end some key is cooling no longer |
| `PoolScan.ShrunkServable` | internal/pool/queue.go:240-298 | while capacity only shrinks, a request that no key could serve stays unservable |
| `PoolScan.LoneWaiterServed` | internal/pool/queue.go:284-297 | a lone waiter that may get a tried key, and for which no untried key is free, is granted a free tried key by the next dispatch |
| `PoolConservation.NextConserves` | internal/pool/pool.go:364-492 | every step keeps: slots of each key object match its unreleased leases, every channel holds at most one answer, every lease has one owner, a lease in a channel belongs to the client whose request waits there and keeps the promise made to it, tables agree |
| `PoolConservation.RunConserves` | internal/pool/pool.go:137-497 | the same over every legal run, across timeouts, cancels, reloads, key removal and shutdown |
| `PoolConservation.RunGrows` | internal/pool/pool.go:483-492 | in every run a released lease stays released, a waiter that returned has returned, and no lease changes its key, object or owner |
| `PoolConservation.RunQueueBounded` | internal/pool/queue.go:146-149 | in every run the queue never gets longer than the largest capacity that callers bring |
| `PoolConservation.RanQueueBounded` | internal/pool/queue.go:146-149 | the same for the recorded run of the scheduler |
| `PoolConservation.SnapshotRemovable` | internal/pool/pool.go:137-154 | a loaded snapshot survives the removal of any of its keys if and only if its ids are distinct; otherwise an id stays in the order that leads to no object |
| `PoolConservation.NothingLeaks` | internal/pool/queue.go:211-238 | once every waiter has finished and every caller has released, all slots of all key objects, current or replaced, are free |
| `PoolConservation.SendNeverBlocks` | internal/pool/queue.go:240-298 | in every reachable state the one-place channel of the queue's head is empty when it is answered |
| `PoolConservation.ReceiveNeverHangs` | internal/pool/queue.go:226-238 | an abandoning waiter that is no longer queued finds its answer in the channel |
| `PoolConservation.AtMostOnePlainLease` | internal/pool/pool.go:364-390 | two unreleased non-stream leases never share a key object |
| `PoolRuns.RateLimitHolds` | internal/pool/state.go:88-118 | over every run and for every key object, any one-minute window holds at most 30 grants |
| `PoolRuns.RunTracksFrom` | internal/pool/pool.go:364-390 | along every run the stored times of each object equal its grant history restricted to the window |
| `PoolRuns.BoundedOvertaking` | internal/pool/pool.go:335-397 | with round-robin and a fixed key set, a key that is open at every grant is passed over at most as often as its distance from the cursor, so at most n-1 times |
| `PoolRuns.NoDoubleTurn` | internal/pool/pool.go:335-397 | between two grants to one key every other key that was open at each of them was granted too |
| `PoolConservation.GrantKeepsPromise` | internal/pool/queue.go:284-297 | the lease of a grant for a request marked against relaxation, or with nothing tried, is for a key outside its attempted set |
| `PoolConservation.PromisesAfter` | internal/pool/queue.go:240-298 | every step keeps the promise for each answer on its way to a waiter: the lease in its channel is for a key that its own request may get |
| `PoolRuns.RelaxedPassReusesKey` | internal/pool/queue.go:284-297 | a run from the empty pool in which the only key is leased, its user retries and waits without the mark, and on release gets the same key again |
| `KeyPool.WeightedSelect` | internal/pool/pool.go:448-474 | the latency-weighted choice is some member of its candidates |
| `KeyPool.Scheduler.constructor` | internal/pool/pool.go:65-75 | an empty open pool |
| `KeyPool.Scheduler.Scan` | internal/pool/pool.go:335-443 | finds an open key exactly when there is one (the first from the cursor, or any with latency routing), otherwise the refusal that is owed, and only prunes |
| `KeyPool.Scheduler.TryAcquire` | internal/pool/pool.go:315-443 | grants if and only if some key is open, and otherwise the denial is the declarative one; the new state is exactly one legal grant |
| `KeyPool.Scheduler.HasNonAttemptedReady` | internal/pool/queue.go:307-339 | true exactly when some key outside the attempted set could be assigned |
| `KeyPool.Scheduler.HasUnattemptedEligible` | internal/pool/queue.go:345-364 | true exactly when some key outside the attempted set is off for no other reason than being busy or at its rate limit |
| `KeyPool.Scheduler.HasBusyAttemptedEligible` | internal/pool/queue.go:370-395 | true exactly when some tried eligible key has no free slot |
| `KeyPool.Scheduler.DispatchHead` | internal/pool/queue.go:244-283 | one turn of the strict pass: a cancelled head is told so; otherwise the head gets a key exactly when one is open for it, is refused as is owed, or goes to the tail when keys are only busy; the dispatch invariant is kept |
| `KeyPool.Scheduler.RelaxHead` | internal/pool/queue.go:284-297 | the relaxed pass: a head that allows it and has no assignable untried key is tried again with the keys it has tried; it gets one exactly when one is open, is refused as is owed, or waits on; the rest stays settled |
| `KeyPool.Scheduler.Dispatch` | internal/pool/queue.go:240-298 | terminates; is exactly one strict turn for each waiter followed by the relaxed pass; answers each waiter at most once and only dequeued ones; the rest keep their order; no queued waiter could be served by an untried key |
| `KeyPool.Scheduler.Acquire` | internal/pool/queue.go:108-164 | after a dispatch: with nobody waiting an immediate lease of the caller exactly when an untried key is open, or a refusal with its exact reason unless waiting is worthwhile; otherwise a place in the queue, recorded with its request, exactly when the queue is shorter than the capacity; every other lease cut meanwhile is in a channel; afterwards nothing servable waits |
| `KeyPool.Scheduler.AcquireIdle` | internal/pool/queue.go:123-145 | the path for an empty queue: a key, the refusal owed, or the fail-fast when every eligible key was tried and is idle; the caller goes on to the queue exactly when waiting is worthwhile; a lease is cut exactly when it is the answer |
| `KeyPool.QueueDecides` | internal/pool/queue.go:146-149 | a caller is parked only when the queue is shorter than the capacity after the first dispatch, and a queue with waiters that has reached it refuses the caller |
| `KeyPool.OnlyKeyComesBack` | internal/pool/queue.go:284-297 | on the scheduler: releasing the only key hands it to the lone waiter that has tried it |
| `KeyPool.Scheduler.Receive` | internal/pool/queue.go:211-224 | the waiter takes its answer and owns the unreleased lease in it, whose key keeps the promise made to its request |
| `KeyPool.Scheduler.Drain` | internal/pool/queue.go:234 | an abandoning waiter reads its channel; a lease found there is its own to release |
| `KeyPool.OwnerKnown` | internal/pool/queue.go:211-298 | in every reachable state a lease in a channel belongs to the client whose waiter reads that channel, and that waiter has not returned |
| `KeyPool.Scheduler.RequestRetryAfter` | internal/pool/state.go:99-118 | prunes one key object's times in place and answers its wait |
| `KeyPool.Scheduler.Abandon` | internal/pool/queue.go:226-233 | a queued waiter leaves and the queue is dispatched; an answered one must read its channel; the step taken is on record |
| `KeyPool.Scheduler.FinishAbandon` | internal/pool/queue.go:234-238 | a lease found in the channel of an abandoned waiter is released |
| `KeyPool.Scheduler.Release` | internal/pool/pool.go:483-492 | the first release frees the slot of the lease's own key object and dispatches from that state, later ones change nothing |
| `KeyPool.Scheduler.Shutdown` | internal/pool/queue.go:166-178 | every waiter is refused once and the pool stays closed |
| `KeyPool.Scheduler.SetModelEnabled` | internal/pool/pool.go:123-127 | sets the switch and leaves nothing servable waiting |
| `KeyPool.Scheduler.SetKeyEnabled` | internal/pool/pool.go:199-208 | changes only the enabled flag of the known key |
| `KeyPool.Scheduler.ApplySuccess` | internal/pool/pool.go:237-249 | clears the known key's failure marks, keeps its work |
| `KeyPool.Scheduler.ApplyFailure` | internal/pool/pool.go:262-280 | merges cooldown, validity and model block into the known key, keeps its work |
| `KeyPool.Scheduler.SetModelBlock` | internal/pool/pool.go:282-295 | adds or removes exactly one model block |
| `KeyPool.Scheduler.UpsertKey` | internal/pool/pool.go:156-180 | a known key keeps its object and leases; a new one gets an idle object and the rotation changes only by it |
| `KeyPool.Scheduler.RemoveKey` | internal/pool/pool.go:210-235 | the rotation loses exactly that key; leases on its object stay valid |
| `KeyPool.Scheduler.LoadSnapshot` | internal/pool/pool.go:137-154 | all keys become new idle objects with their blocks, old objects keep their leases |
| `PoolClients.RestedSpares` | internal/pool/pool.go:494-497 | a change followed by a dispatch leaves every lease and every waiter's phase as it was, and new leases are answers to waiters |
| `PoolClients.PerformAll` | internal/pool/queue.go:94-238 | any calls of other goroutines leave the waiters and leases of this client alone, create no waiter for it, and cut leases for it only as answers to its waiters, so it still owns exactly what it owned |
| `FaultMatcher.ParseSpec` | internal/fault/matcher.go:94-124 | accepts exactly the specs whose tokens are all acceptable, and gives their ranges |
| `FaultMatcher.MergeRanges` | internal/fault/matcher.go:151-173 | sorted, pairwise non-adjacent ranges with the same union |
| `FaultMatcher.Match` | internal/fault/matcher.go:81-92 | the binary search answers membership in the union |
| `FaultMatcher.NewMatcher` | internal/fault/matcher.go:41-56 | a matcher for every valid spec with exactly the codes that it means; a blank spec is valid and means none |
| `FaultMatcher.NewMatcherMatch` | internal/fault/matcher.go:41-124 | end to end: a positive status matches exactly when some parsed range contains it |
| `Failover.DifferentMeans` | internal/router/attempt.go:167-244 | the recursive statement about tried keys means that they are pairwise different |
| `Failover.BuildMatcher` | internal/router/attempt.go:276-285 | the operator's codes, or the default ones for a blank or unreadable spec |
| `Failover.DefaultCodes` | internal/fault/matcher.go:10-13 | the default spec means exactly 429, 500, 502, 503, 504 and 529 |
| `Failover.Retry` | internal/router/attempt.go:252-267 | retryable or matched by the operator's spec, and never after a first-byte timeout |
| `Failover.Attempt.Acquire` | internal/router/attempt.go:323-359 | a lease in hand for a key that the request may get, and nothing else of this client in the pool; or an error that the run of the pool bears out (a refusal due in that state, a refusal read from the channel, or the end of the wait), of the class that this refusal stands for, and nothing of this client left in the pool |
| `Failover.Attempt.Await` | internal/pool/queue.go:211-224 | the same across a wait of any length with other goroutines at work, including the race between answer and timeout: either the answer is taken out of the channel, or every look into it found nothing |
| `Failover.Attempt.GiveUp` | internal/pool/queue.go:226-238 | the waiter leaves the queue or reads its channel and releases what it finds: afterwards every waiter of this client is done and every lease of it released |
| `Failover.Attempt.ExecuteLease` | internal/router/attempt.go:384-488 | the key is recorded as executed; afterwards the lease is unreleased in the pool exactly when the attempt was served, whatever others did meanwhile |
| `Failover.Attempt.CallUpstream` | internal/router/attempt.go:384-488 | what each answer of the upstream comes to, and that the pool is told of a persisted success or failure, and of nothing else |
| `Failover.Attempt.Tell` | internal/router/attempt.go:384-488 | the run of the pool shows that the known key was changed as told, while the lease was held |
| `Failover.Attempt.MayGoOn` | internal/router/attempt.go:223-242 | another attempt follows exactly when the fault allows it, nothing is committed or expired, and cap, retry window and back-off leave room |
| `Failover.Attempt.Run` | internal/router/attempt.go:132-244 | terminates; executes on exactly the keys listed, pairwise different, at most the attempt cap, each with an unreleased lease of that key in hand, and tells the pool how each went; the result is the one owed: a queue limit always comes out as such, the last fault instead of another error exactly when the budget has expired or no key is left; an error is one that the run of the pool bears out for the request for the next key; in the end every waiter of this client is done and every lease of it released, except the lease of a successful response |
| `ExitModel.ParsedAddress` | internal/xkproxy/model.go:95-149 | the host and port checks leave no separator behind the port of an address |
| `ExitModel.KeyInjective` | internal/xkproxy/model.go:73-75 | for every parsed exit the key determines scheme and address, and with the length of the user name also user and password |
| `ExitModel.CredentialsCollide` | internal/xkproxy/model.go:73-135 | two parsed exits with different credentials and one key |
| `ExitModel.RefreshKeepsKey` | internal/xkproxy/pool.go:505-544 | refreshing an exit by a candidate of its key keeps the key if and only if the addresses agree |
| `ExitRuns.IsolationExact` | internal/xkproxy/pool.go:695-717 | on one exit: given the evidence, isolation or removal comes exactly with a run of full length |
| `ExitHistory.CounterTellsRun` | internal/xkproxy/pool.go:656-779 | over every run the counter equals the capped length of the current run of failures, with gaps of at most a minute since the last success or isolation, as told by the reports of the run |
| `ExitHistory.IsolationOnRuns` | internal/xkproxy/pool.go:656-719 | after any run, an HTTP failure report isolates or removes a live exit exactly when some retained exit served a 2xx within a minute and the reports so far make this a full run; it removes it exactly when that is one ejection too many |
| `ExitIsolation.StandingTellsRun` | internal/xkproxy/pool.go:469-779 | over every run the transport failures, the isolations and the end of the isolation of an exit are what the reports and merges of the run make them |
| `ExitIsolation.TransportOnRuns` | internal/xkproxy/pool.go:574-616 | after any run, a transport failure below the limit is only counted; at the limit the exit is removed when that is one isolation too many, and otherwise out of service until base duration times isolations or the longest duration is over, with its count at zero |
| `ExitIsolation.SuccessFrees` | internal/xkproxy/pool.go:746-779 | a success puts an isolated exit back into service at once |
| `ExitIsolation.MergeAllKnown` | internal/xkproxy/pool.go:469-545 | a merge takes one failure off for each candidate of that key that it lets in, and leaves isolations alone |
| `ExitIsolation.MergeAdmits` | internal/xkproxy/pool.go:469-545 | after a merge a key is in the pool exactly when it was there or a live candidate outside quarantine has it |
| `ExitIsolation.MergeRenews` | internal/xkproxy/pool.go:469-545 | a merge renews an exit by the last candidate of its key that it lets in, which sets its validation and expiry, and leaves others as they are |
| `ExitIsolation.GraceMeans` | internal/xkproxy/pool.go:883-911 | grace extends a live validated exit by its length or to the cap, whichever is less, and never shortens its life |
| `ExitRuns.TreatKeeps` | internal/xkproxy/pool.go:574-719 | after any failure report a retained exit is below the failure limit and within the ejection limit, and its HTTP counter equals the capped run length of its history |
| `ExitRuns.QuarantineIsExpulsion` | internal/xkproxy/pool.go:596-602 | a report quarantines only keys that it takes out of the pool |
| `ExitRuns.ExpulsionIsQuarantine` | internal/xkproxy/pool.go:596-602 | a key that a report takes out is quarantined for five minutes from then |
| `ExitRuns.MergeAllKeeps` | internal/xkproxy/pool.go:469-545 | merging collector batches of parsed exits keeps keys unique and exits within bounds, and admits no quarantined key |
| `ExitRuns.GraceKeeps` | internal/xkproxy/pool.go:883-911 | however often it is called, grace keeps every expiry within two TTLs of the validation |
| `ExitRuns.NextGood` | internal/xkproxy/pool.go:469-932 | every operation keeps keys unique, counters within the policy and in step with history, the staleness bound, and quarantined keys out |
| `ExitRuns.RunGood` | internal/xkproxy/pool.go:469-932 | the same over every run |
| `ExitRuns.RemovedStaysOut` | internal/xkproxy/pool.go:574-719 | after a failure report at time t took a key out, no later run of merges, reports, grace, pruning and removals puts it back before t plus five minutes |
| `ExitRuns.LiveExitsAreFresh` | internal/xkproxy/collector.go:363-370 | over every run, an exit that still counts as live was validated less than two TTLs ago |
| `ExitPool.Pool.constructor` | internal/xkproxy/pool.go:113-115 | an empty pool, from which every run starts in a state that satisfies the invariant |
| `ExitPool.Pool.PruneLocked` | internal/xkproxy/pool.go:913-932 | in-place compaction to the live exits, in order, and removal of lapsed quarantine entries only |
| `ExitPool.Pool.ReportFailure` | internal/xkproxy/pool.go:574-616 | makes exactly the transport-failure step; the outcome is removed exactly when an exit is gone, isolated only if a matching exit is isolated now, and counted only if all isolations are as they were |
| `ExitPool.Pool.ReportHTTPFailure` | internal/xkproxy/pool.go:656-719 | makes exactly the HTTP-failure step; 529 marks the pool and blames no exit; the outcome tells as for transport failures |
| `ExitPool.Pool.HasRecentRequestSuccess` | internal/xkproxy/pool.go:737-744 | true exactly when some retained exit served a 2xx within a minute |
| `ExitPool.Pool.ReportSuccess` | internal/xkproxy/pool.go:746-779 | makes exactly the success step on the matching exits |
| `ExitPool.Pool.Grace` | internal/xkproxy/pool.go:883-911 | extends exactly the live validated exits up to the cap and counts them |
| `ExitPool.Pool.Merge` | internal/xkproxy/pool.go:469-545 | the index-driven in-place merge is the merge step, growing the array when needed |
| `ExitPool.Pool.Remove` | internal/xkproxy/pool.go:554-572 | removes exactly the matching exits, in place |
| `ExitPool.Pool.Prune` | internal/xkproxy/pool.go:861-867 | prunes and returns how many exits went |
| `ExitPool.Pool.Replace` | internal/xkproxy/pool.go:117-124 | the given exits as they are, and an empty quarantine |
| `ExitSelection.WindowMeans` | internal/xkproxy/pool.go:334-385 | the window holds exactly the live exits with enough life; an ejected one only in panic mode; panic mode only when no available exit lasts |
| `ExitSelection.Choose` | internal/xkproxy/pool.go:334-385 | both the fast path and the general path compute that window |
| `ExitSelection.RotatedKeeps` | internal/xkproxy/pool.go:424-434 | rotation is a permutation |
| `ExitSelection.RotatedAt` | internal/xkproxy/pool.go:424-434 | the modular index of the source reads the window backwards around its end |
| `ExitSelection.RotationFair` | internal/xkproxy/pool.go:424-434 | of any n consecutive cursor values exactly one puts a given position first |
| `ExitSelection.Rotate` | internal/xkproxy/pool.go:424-434 | the loop computes the rotation followed by the demotion |
| `ExitSelection.DemoteSlow` | internal/xkproxy/pool.go:436-467 | the stable partition at three times the smallest positive latency |
| `ExitSelection.DemotedMeans` | internal/xkproxy/pool.go:436-467 | demotion is a permutation and never puts a slow exit first |
| `ExitSelection.ByLatencyMeans` | internal/xkproxy/pool.go:399-411 | the latency order is a stable sort: ascending, unmeasured exits last, equal ones in their order |
| `ExitSelection.RotatedByLatencyAt` | internal/xkproxy/pool.go:399-422 | the exit offered k places from the front stands k places after the cursor in the order of latency, around the end |
| `ExitSelection.RotatedByLatencyKeeps` | internal/xkproxy/pool.go:399-422 | it is a permutation of the window |
| `ExitSelection.Ordered` | internal/xkproxy/pool.go:334-392 | the candidates are a permutation of the window, in either order |
| `ExitSelection.SelectionIsFresh` | internal/xkproxy/pool.go:319-385 | after any run, no request is offered an exit whose last validation is two TTLs or more back |
| `LogBuffer.Recorder.constructor` | internal/observability/buffer.go:117-159 | defaults for non-positive options, nothing accepted |
| `LogBuffer.Recorder.Record` | internal/observability/buffer.go:165-179 | queued, or dropped and counted when full, or refused when stopping; never blocks |
| `LogBuffer.Recorder.MarkStopping` | internal/observability/buffer.go:229-234 | sets the stop flag, which nothing clears |
| `LogBuffer.Recorder.Slurp` | internal/observability/buffer.go:360-370 | moves queued records to the batch, in order, up to the batch size |
| `LogBuffer.Recorder.DrainChannel` | internal/observability/buffer.go:330-340 | empties the channel whatever producers add meanwhile, losing nothing |
| `LogBuffer.Recorder.RecordBatchWithRetry` | internal/observability/buffer.go:437-463 | a batch is persisted whole and once or not at all, after a bounded number of attempts; it is given up only when they are used up or the context ends, and each failure is counted |
| `LogBuffer.Recorder.FlushPending` | internal/observability/buffer.go:344-355 | persists a prefix in order and returns exactly the rest |
| `LogBuffer.Recorder.ForceFlush` | internal/observability/buffer.go:307-322 | on success everything accepted before the request is persisted |
| `LogBuffer.Recorder.Turn` | internal/observability/buffer.go:289-323 | every branch of the select conserves persisted, pending and queued records; a receiving turn with room takes the first record off the channel, a timer with records held fills the batch, a forced flush takes all; what stays pending after a timer, a forced flush or a full batch was rejected by the database |
| `LogBuffer.Recorder.Turns` | internal/observability/buffer.go:281-326 | from any state: with a healthy database each receiving turn takes one more queued record, in order, and a last turn by the timer or by force leaves nothing taken unpersisted |
| `LogBuffer.Recorder.Loop` | internal/observability/buffer.go:281-326 | persisted, then pending, then queued records equal the accepted ones in order, at every point; with a healthy database every record in the channel is persisted after as many receiving turns as there are records and one turn by the timer or by force |
| `LogBuffer.Recorder.Drain` | internal/observability/buffer.go:386-411 | terminates; with nothing pending at its end exactly the accepted records are persisted, and otherwise the allowed number of flushes failed |
| `LogBuffer.Recorder.Run` | internal/observability/buffer.go:205-220 | over a whole life with any interleaving nothing is lost, duplicated or reordered, and a clean end has persisted exactly the accepted records |
| `SseCodec.RoundTrip` | internal/sse/decoder.go:27-117 | the concatenated encodings of plain events decode to the same events, data normalised, up to the first that exceeds the size limit, and then to the end of the stream |
| `SseCodec.BlockDecodes` | internal/sse/decoder.go:27-58 | a block of lines and its blank line is one event, or too large as a whole, or counts towards the next event when nothing is left of it |
| `SseCodec.LinesParse` | internal/sse/decoder.go:89-117 | parsing the printed lines gives the event back with its data normalised and trailing CRs gone |
| `SseCodec.PartsMean` | internal/sse/encoder.go:54-74 | the parts of a data value hold no CR or LF, and a value without them is its own only part |
| `SseCodec.SplitJoins` | internal/sse/encoder.go:54-74 | the parts joined by LF are the normalised value |
| `SseCodec.NormalTwice` | internal/sse/encoder.go:54-74 | normalising is idempotent and does not change the encoding |
| `SseCodec.TrailingCrIsLost` | internal/sse/decoder.go:76-77 | what any event without LF decodes to: its texts without one trailing CR, and no event when nothing else is in it |
| `SseCodec.SurvivesExactly` | internal/sse/encoder.go:25-81 | an event within the size limit survives encoding and decoding if and only if no field or comment holds a LF or ends in CR |
| `SseCodec.AllDecodedNoLf` | internal/sse/decoder.go:27-117 | every decoded event says something and holds no LF in fields and comments |
| `SseCodec.Encode` | internal/sse/encoder.go:25-81 | the buffer written is the encoding that the round trip is about |
| `SseReader.LineRefines` | internal/sse/decoder.go:60-87 | a line collected through the 4096-byte buffer is the next line of the stream, however it arrives |
| `SseReader.DecodeRefines` | internal/sse/decoder.go:27-87 | an event decoded through the buffer is the next event of the whole stream; only a read past the capture limit can stop it early |
| `SsePrime.ReplayExact` | internal/sse/prime.go:68-97 | the replayed body equals the original if and only if the bytes taken stay within the capture limit |
| `SseLimit.NeverPastLimit` | internal/sse/prime.go:28-97 | however the bytes arrive, an accepted event that ends past the limit is never replayed in full |
| `SseLimit.ReplayAlways` | internal/sse/prime.go:28-97 | priming accepts and replays exactly for every arrival of the bytes if and only if the stream, or one buffer from the blank line that ends the accepted event, stays within the limit |
| `SsePrime.PrimeDecides` | internal/sse/prime.go:28-78 | the first acceptable event of the stream decides, unless a read past the limit makes priming fail |
| `SsePrime.ShortReplay` | internal/sse/prime.go:85-97 | a concrete stream whose accepted event is missing from the replay |
| `SseDecoder.Decoder.constructor` | internal/sse/decoder.go:23-25 | a decoder at the start of the stream |
| `SseDecoder.Decoder.FillBuffer` | internal/sse/prime.go:85-97 | one read: captured up to the limit, delivered and not kept past it |
| `SseDecoder.Decoder.ReadLine` | internal/sse/decoder.go:60-87 | the fragment loop computes the next line of the reader |
| `SseDecoder.Decoder.Decode` | internal/sse/decoder.go:27-58 | the line loop computes the next event of the reader |
| `SseDecoder.Decoder.Next` | internal/sse/decoder.go:27-58 | without a capture limit the events come out one by one as on the whole stream |
| `SseDecoder.Decoder.PrimeUntil` | internal/sse/prime.go:28-78 | the loop makes the priming decision and the body is the captured bytes followed by the unread ones |
| `SseRelay.Truncate` | internal/sse/proxy.go:126-137 | the data is cut right after the first terminal marker |
| `SseRelay.Handle` | internal/sse/proxy.go:112-221 | an event is held back before the first data, passed on, or ends the relay |
| `SseRelay.Proxy` | internal/sse/proxy.go:53-230 | the client gets the encodings of the events up to the first terminal marker and nothing after it; without a data event, or with an oversized preamble, it gets nothing |
| `SseRelay.ProxyBody` | internal/sse/proxy.go:53-230 | the same for a whole body, however its bytes arrive |
| `SseRelay.ClientSees` | internal/sse/proxy.go:126-223 | the client decodes the upstream events, normalised, up to the marker and nothing else |
| `SseRelay.BodyReachesClient` | internal/sse/proxy.go:53-230 | of any upstream body the client decodes exactly its events up to the marker, unless a field or comment ends in CR or an encoding exceeds the size limit |
| `Reasoning.AvailableMeans` | internal/compat/reasoning.go:535-554 | exactly the offered levels that are known and allowed, once each, in ascending budget order |
| `Reasoning.ComputeAvailable` | internal/compat/reasoning.go:535-554 | the filtering and sorting loop computes that list |
| `Reasoning.ScanFindsBest` | internal/compat/reasoning.go:575-604 | the scan finds an available level within the budget bounds at minimum distance, with ties going to the requested level, then away from auto, then to the cheaper level; or none is admissible |
| `Reasoning.Nearest` | internal/compat/reasoning.go:556-604 | the loop computes the nearest level |
| `Reasoning.LevelForBudgetMeans` | internal/compat/reasoning.go:619-635 | one known level is nearest to each budget, the cheaper of two |
| `Reasoning.ClampBudgetMeans` | internal/compat/reasoning.go:606-617 | clamping gives the budget within the bounds that is nearest to the value, and -1 for a negative one |
| `Reasoning.ComputeLevelForBudget` | internal/compat/reasoning.go:619-635 | whatever order the table is walked in, that level results |
| `Reasoning.AcceptableIsKept` | internal/compat/reasoning.go:556-604 | an admissible requested level without a budget is returned unchanged |
| `Reasoning.NearestAcceptable` | internal/compat/reasoning.go:556-604 | whatever is requested, the chosen level is one that the profile accepts |
| `Reasoning.ResolveTwice` | internal/compat/reasoning.go:227-285 | resolving the effective level again gives it back without a downgrade |
| `Reasoning.DowngradedExactly` | internal/compat/reasoning.go:227-285 | a decision is a downgrade exactly when the client does not get the level, or the explicit budget, that it asked for |
| `Reasoning.EffectiveBudgetMeans` | internal/compat/reasoning.go:265-280 | the budget that goes with the resolved level |
| `Reasoning.ResolveIsNearest` | internal/compat/reasoning.go:227-285 | the resolved level is the best admissible one for the requested level and budget |
| `EmbedCache.EvictedIsLongestFit` | internal/embedcache/cache.go:91-102 | eviction leaves the longest most-recent-first prefix that fits both bounds |
| `EmbedCache.PutReadable` | internal/embedcache/cache.go:70-89 | an accepted Put is readable at once if and only if the 32-bit bound is positive |
| `EmbedCache.PutKeepsOthers` | internal/embedcache/cache.go:70-89 | another key keeps its response or is evicted |
| `EmbedCache.HugeBoundDisablesCache` | internal/embedcache/cache.go:42-53 | a bound of 2^32 is stored as 0 and no Put is readable |
| `EmbedCache.GetKeeps` | internal/embedcache/cache.go:56-66 | a read changes no response and drops none |
| `EmbedCache.RecentFirst` | internal/embedcache/cache.go:56-122 | over every run of reads, writes and bound changes, of any two entries the one used later stands nearer to the front |
| `EmbedCache.OldestGoes` | internal/embedcache/cache.go:70-102 | what a write drops was last used before everything that it keeps |
| `EmbedCache.Cache.constructor` | internal/embedcache/cache.go:42-53 | an empty cache with the truncated bound |
| `EmbedCache.Cache.Get` | internal/embedcache/cache.go:56-66 | the stored response, and the key becomes the most recent |
| `EmbedCache.Cache.Put` | internal/embedcache/cache.go:70-89 | map and list hold the same distinct keys, the byte counter is exact, and the list is the evicted replacement |
| `EmbedCache.Cache.Evict` | internal/embedcache/cache.go:91-102 | the loop computes the longest fitting prefix |
| `EmbedCache.Cache.Resize` | internal/embedcache/cache.go:108-122 | the new bound holds at once |

## Left out

- Key objects, leases and waiters are rows of tables addressed by their allocation number, not heap objects; a replaced key object stays in its table, which is what its old leases point at.
- One clock reading stands for a whole locked section of the pool, and the set of cancelled waiters is given per dispatch.
- Latency averages, the probabilities of the weighted choice, `Summary`, `RecordLatency` and `ClearModelBlocks` of the pool; timers and the queue wait itself: a timeout is an `Abandon` at any time.
- KeyPool.Scheduler.LoadSnapshot: requires distinct ids, which the database's primary key gives; `PoolConservation.SnapshotRemovable` shows that the pool is sound exactly then.
- KeyPool.Scheduler.UpsertKey: takes the key with no leases, no grant times and no blocks, as newKeyState builds it.
- RequestWindow.RequestTimes.Compact: the scheduler keeps the times of its key objects as sequences and prunes them with `PruneTimes`; the array form is proved beside it.
- Failover.Attempt.Run: upstream, database, contexts, budgets, back-off and the calls of other goroutines answer through a world of functions; the delays themselves, `internal/router/budget.go` and latency feedback are not computed, and the key state that a persisted failure leaves is given by the world.
- FaultMatcher.ParseSpec: starts from tokenised ranges, not from text.
- ExitRuns.RunGood: covers runs under one normalised policy; `Replace` and `Clear` start a new run, as the source intends. Candidates come from ParseProxy, whose URL forms are not parsed here.
- Exit counters that only feed statistics and quality ordering, `ReportRequestFailure`, `ReportRequestLatency`, `orderByQuality` and sticky bindings; the manager's cached transport can outlive the pool's choice.
- ExitSelection.RotationFair: the cursor is unbounded, so the one wrap of the 64-bit counter is not covered.
- LogBuffer.Recorder.Run: the producers' calls and the wake-ups form finite scripts, of any length and in any interleaving; batches are all-or-nothing as one database transaction is.
- LogBuffer.Recorder.Drain: the drain timeout is a number of failed flushes that it leaves room for.
- SseReader.DecodeRefines: reads deliver at least one byte, so the buffered reader's no-progress error is not covered.
- SseRelay.Proxy: the terminal marker is recognised by any predicate on data values, in place of trimming white space and comparing; client writes succeed; write deadlines, the watchdog, headers and observer hooks are not modelled.
- Reasoning: JSON parsing, wire formats, automatic injection and advisory levels; budgets are unbounded integers.
- EmbedCache: list elements are addressed by key; fingerprints are any keys.
- Storage, cryptography, HTTP handlers, the admin surface, configuration loading and the access-key limiter.
