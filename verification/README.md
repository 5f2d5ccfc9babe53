# gcob verification model

gcob is a gRPC front end for a Core Lightning node. This project models, in Dafny, the
parts of it that other clients and the node itself rely on:

- **Stream admission** (`stream_limits.dfy`). `StreamLimits::acquire` clones a client's
  semaphore under the map lock, then tries a global permit, then a client permit;
  dropping a permit and `cleanup_idle` run concurrently. The model is a step system over
  explicit permit and reference counts. The class `StreamLimits` has the code's methods,
  each tied to those steps.
- **Event router** (`router.dfy`, `router_runs.dfy`, `router_history.dfy`,
  `router_deliveries.dfy`). Subscribe and unsubscribe are atomic; a dispatch is a snapshot,
  one send after another, and an eviction, with other steps in between.
- **Stream tasks** (`stream_tasks.dfy`, `stream_histories.dfy`, `stream_endings.dfy`). The streaming handlers:
  permit, backend call, subscriber id, channel and subscription, event loop, unsubscribe,
  permit returned. The admission model and the router model, dispatcher included, run side
  by side, and what the router guarantees to a subscriber is carried over to every stream.
- **Rate limiter** (`rate_limiter.dfy`, `rate_bounds.dfy`, `rate_service.dfy`). The
  in-memory token buckets: the most they let through over unbounded runs, and what they
  have to let through.
- **Request pipeline** (`auth_gate.dfy`, `pipeline.dfy`, `pipeline_budgets.dfy`,
  `quota_bounds.dfy`, `pipeline_isolation.dfy`). Identity, pre-auth admission, rune check, method quota,
  handler. Admission and quota share one limiter, and requests interleave freely.
- **Publication of files** (`atomic_publish.dfy`, `publish_proofs.dfy`,
  `repeated_targets.dfy`). `publish_files` and `rollback` on a file system whose renames and
  removals may fail at any step, for any plan, repeated targets and older backups included.
- **CA pinning** (`cert_renewal.dfy`, `provisioning.dfy`, `trust_changes.dfy`).
  `renew_certificates` and `provision_server` on top of the publication, and any sequence of
  runs of the two.
- **Amounts** (`decimal.dfy`, `amounts.dfy`, `amounts_exact.dfy`) and **ACL blobs** (`acl.dfy`). Exact parsers.

`wrappers.dfy` and `counting.dfy` hold shared helpers. Code that updates objects in place
is a class, or methods on one, proved against functions on values; whole runs are
sequences of actions applied to such values, and the theorems quantify over all of them.

## Assumptions

- Time is an integer number of nanoseconds. A refill is `elapsed * limit / window`
  rounded down; the code computes it in `f64`. The `u32` addition wraps as in a release build:
  the upper bounds and the absence of starvation hold for every limit all the same, and
  `RateBounds.WrapsExactly` says when a reachable refill wraps.
- Limits and windows are positive, as `Limits` demands at startup.
- Redis is absent, so that every check is made by the in-memory limiter.
- CLN's answer to `check_rune` is part of a request, and arbitrary. Fingerprints are
  opaque text; certificates carry a fingerprint, the fingerprint of their issuer and, in a
  concatenation, the key that follows; a key is that of the leaf it was made with.
- A fault oracle decides which renames and removals fail. It sees every operation,
  those of `rollback` included.
- One dispatcher (the event bridge) sends events. In `RouterHistory` subscriber ids and
  channels are new for each subscription: `StreamHistories.HandlersRunTheRouter` shows that the
  handlers keep to that in every run. `RouterRuns` does without the condition.
- In a sequence of runs no two overlap, because the pin is checked before the lock is
  taken. `CertRenewal.StalePin` says exactly when a run that decided on an older state still
  keeps its promise, and `CertRenewal.OverlapReplacesTheCa` shows one that does not. A staging
  directory is none of the directories published to. That no backup path of this second is
  taken is needed only where all other files, too, are said to be as before after a rollback.

## Where code and documentation differ

- `security/availability-invariants.md:15` allows `check_rune` attempts up to the limit
  per window. The limiter admits up to `2 * limit - 1` in a window, no smaller number is
  right while the window has a tick for each token, and the documented one holds only for
  a limit of 1 or a window of a single tick (`RateBounds.DocumentedWindowBound`).
- That bound is on admissions (`PipelineBudgets.RuneCallsAreBounded`). The calls themselves
  can bunch up without any bound, because a request whose body is slow to arrive is checked
  late (`PipelineBudgets.SlowBodiesBunchCalls`). A bound `d` on that delay would bound the
  calls in an interval by what the budget grants in one that is longer by `d`, and by nothing
  less (`PipelineBudgets.PromptCallsExactly`).
- `CHANGELOG.md:130` gives `invoice` and `xpay` budgets of 3 per hour. A certificate can get 5 of
  either through in an hour, and never more (`QuotaBounds.PaymentsExactly`).
- `src/cli/certs.rs:828` promises that changing an installed CA requires `rotate_ca`. A run
  with `init_ca` that saw no CA replaces one that another run installed and published before
  the first took the lock (`CertRenewal.OverlapReplacesTheCa`).
- `src/cli/atomic.rs:5` promises a backup for every replaced file. Nothing looks whether the
  backup name is free, so an older file of that name is lost unless it has the same content
  (`PublishProofs.OldBackupsAreKeptExactly`): two publications in one second destroy the
  first one's backup (`PublishProofs.SecondPublicationOverwritesBackup`). A rolled back
  publication loses it as well, because its own backup goes home over the target
  (`RepeatedTargets.RollbackKeepsExactly`).
- For the same reason a plan that names a target several times, each time with other content,
  loses the original of that target even when it completes
  (`RepeatedTargets.OriginalIsKeptExactly`, `RepeatedTargets.NamedOnceExactly`).
- `src/cli/provision.rs:9` promises that `gcob init` restores existing material on any
  failure. When the API directory is also the HAProxy CA directory, the plan names the CA file
  twice, and one fault late in the plan ends in a failed run with the new CA installed
  (`Provisioning.FailedRunReplacesTheCa`). That, and a backup path that is taken, are the only
  such cases (`Provisioning.SingleFaultsAreUndoneExactly`).

## Model

| member | source | states |
|---|---|---|
| StreamAdmission.StepInv | src/grpc/stream_limits.rs:50-69 | every step of every acquire, permit drop and cleanup keeps all permits and references accounted for and one semaphore per client |
| StreamAdmission.BudgetsHold | src/grpc/stream_limits.rs:46-49 | in every interleaving the live permits of a client stay within its budget and all live permits within the global one |
| StreamAdmission.PermitsConserved | src/grpc/stream_limits.rs:58-68 | free, in-flight and live slots always add up to the budget, globally and per client |
| StreamAdmission.OneBudgetPerClient | src/grpc/stream_limits.rs:99-103 | two clones or permits of one client never refer to different semaphores; a reference count of 1 means all permits are free |
| StreamAdmission.UnsharedIsFree | src/grpc/stream_limits.rs:112-116 | the first half of the idleness test implies the second, and that nothing uses the semaphore |
| StreamAdmission.CleanupNeverStrandsAPermit | src/grpc/stream_limits.rs:99-110 | a cleanup step leaves the entry of every client with an acquire under way or a live permit |
| StreamAdmission.ReturnsToBaseline | src/grpc/stream_limits.rs:104-110 | once all acquires and permits have ended, one cleanup pass, whatever order it visits entries in, empties the map, and all slots are free |
| StreamAdmission.AcquireAloneIsExact | src/grpc/stream_limits.rs:50-69 | an acquire succeeds exactly when both budgets have a free slot, checks the global one first, takes one of each, and a failed one takes nothing |
| StreamAdmission.DropAloneIsExact | src/grpc/stream_limits.rs:31-34 | a dropped permit gives back its global slot and its client slot and nothing else |
| StreamAdmission.DropUndoesAcquire | src/grpc/stream_limits.rs:29-69 | acquiring and dropping restores every client's free slots and the global ones |
| StreamAdmission.VisitAloneIsExact | src/grpc/stream_limits.rs:108-116 | the cleanup forgets an entry exactly when it is idle and leaves all others as they were |
| StreamAdmission.StreamLimits.Acquire | src/grpc/stream_limits.rs:50-69 | the method does what the three admission steps in a row do |
| StreamAdmission.StreamLimits.DropPermit | src/grpc/stream_limits.rs:31-34 | the method returns the global slot first, then the client slot and its reference |
| StreamAdmission.StreamLimits.ActiveStreams | src/grpc/stream_limits.rs:71-74 | the gauge counts the slots in use and does not underflow |
| StreamAdmission.StreamLimits.ActiveStreamsFor | src/grpc/stream_limits.rs:76-81 | the same for one client, zero when it has no entry |
| StreamAdmission.StreamLimits.IdleClients | src/grpc/stream_limits.rs:88-94 | the number of entries a cleanup would remove |
| StreamAdmission.StreamLimits.CleanupIdle | src/grpc/stream_limits.rs:96-110 | removes exactly the idle entries, changes no other, and returns how many went |
| Routing.SubscribeInv | src/events/router.rs:98-124 | a subscription is refused with the type limit exactly when the type is full, and with the global limit exactly when it is not but the router is; an accepted one keeps both caps, the counter and no empty list |
| Routing.KeepExact | src/events/router.rs:130-138 | a removal keeps exactly the subscribers with other ids |
| Routing.EventRouter.Subscribe | src/events/router.rs:98-124 | the new state is that of the specification function, and the router's invariant is kept: counter, caps, no empty list |
| Routing.EventRouter.Unsubscribe | src/events/router.rs:126-140 | the same for an unsubscription |
| Routing.EventRouter.Dispatch | src/events/router.rs:149-208 | run without interference, sends to the snapshot in order and evicts the condemned |
| Routing.EventRouter.TotalSubscribers | src/events/router.rs:223-234 | the recomputed total, which is the maintained counter |
| RouterDeliveries.SendsAreDecided | src/events/router.rs:168-186 | in every run each send is logged as closed if and only if the receiver had closed, as full if and only if `capacity` delivered events had not been taken out, and as delivered otherwise |
| RouterDeliveries.KeepingUpLosesNothing | src/events/router.rs:142-148 | a subscriber whose receiver is there and never has a full channel at a send stays registered with drop counter 0, and between dispatches has been given every event of its type since it subscribed, in order |
| RouterDeliveries.StreamsThatKeepUp | src/grpc/node_service.rs:131-189 | the same for the stream of a call |
| RouterDeliveries.QueuesAreBounded | src/events/router.rs:168-172 | no channel ever holds more than its capacity |
| RouterDeliveries.StatisticsAreRight | src/events/router.rs:164-182 | events_delivered is the number of sends logged as delivered, events_dropped of all others, events_dispatched of the dispatches that found a subscriber |
| RouterDeliveries.SendsInOrderOfSubscription | src/events/router.rs:150-167 | a dispatch sends to its subscribers in the order in which they subscribed |
| RouterDeliveries.DispatchIsRun | src/events/router.rs:149-208 | `dispatch` without interference does what its separate steps do in a row |
| RouterRuns.RouterBooksBalance | src/events/router.rs:105-140 | in every reachable state counter = recomputed total, both caps hold, no list is empty, accepted = current + removed + evicted, delivered + dropped + unsent = snapshot sizes |
| RouterHistory.DropCountersAreTrailingFailures | src/events/router.rs:168-180 | a drop counter is the number of full-channel failures since the last delivery, and below the threshold between dispatches |
| RouterHistory.EvictionIsExact | src/events/router.rs:181-208 | a dispatch evicts exactly the still registered subscribers of its snapshot whose channel was closed or who reached the threshold, although others came and went meanwhile |
| RouterHistory.SubscriberSeesItsType | src/events/router.rs:150-173 | a subscriber is offered every event of its type from its subscription on, once and in order, and its channel holds what was delivered |
| RouterHistory.SubscribersAreIsolated | src/events/router.rs:168-186 | two subscribers in two runs, with any ids and among any others, that saw the same events of their types and whose receivers acted after the same numbers of sends, received and failed alike |
| RouterHistory.HandlersAreDisciplined | src/grpc/node_service.rs:131-140 | a run in which each subscription brings an id and a channel of its own meets all that the results on subscribers ask for |
| StreamTasks.EverySubscriberHasATask | src/grpc/node_service.rs:75-189 | in every reachable state the router has at most as many subscribers as there are streaming tasks, and each belongs to a task that holds its permit |
| StreamTasks.HandlersUseOwnIds | src/grpc/node_service.rs:16-20 | no two subscriptions of a run use the same id |
| StreamHistories.HandlersRunTheRouter | src/grpc/node_service.rs:131-140 | in every run of the streaming calls the router's steps alone are a run of the router that ends in the same router state, and every subscription in it has an id and a channel of its own |
| StreamHistories.StreamsSeeTheirType | src/events/router.rs:149-208 | between dispatches a stream has lost its subscription if and only if a send found its channel closed or its drop counter is at the threshold; until then it has been offered every event of its type since it subscribed, in order, and its channel holds those delivered |
| StreamHistories.StreamsAreIsolated | src/events/router.rs:168-186 | two streams, in two servers with any other calls, that saw the same events and whose receivers acted after the same numbers of sends, received and failed alike |
| StreamTasks.NoRefusalWithinCaps | src/grpc/node_service.rs:34-40 | with the stream budget within both router caps no call that has its slot is refused by the router |
| StreamTasks.RefusalReachable | src/grpc/node_service.rs:193-272 | with a larger budget there is a run in which a call is refused after its backend call took effect |
| StreamTasks.CapsDecideRefusals | src/events/router.rs:99-113 | such refusals are impossible if and only if the stream budget is within both router caps |
| StreamTasks.DefaultsNeverRefuse | src/grpc/limits.rs:15-21 | the default limits are ordered that way |
| StreamTasks.NothingLeftBehind | src/grpc/node_service.rs:278-488 | when all calls have ended no subscriber is registered and every slot is free |
| StreamEndings.CallsCanEnd | src/grpc/node_service.rs:144-189 | in every reachable state every call can end by its own steps: it is unsubscribed, its global slot and its client slot are back, and no other call or subscriber has changed |
| StreamEndings.RefusedCallLeaves | src/grpc/node_service.rs:131-140 | a call that the router refuses has changed neither lists, counter nor statistics, and has only its permit left to give back |
| StreamEndings.StreamsBuffer64 | src/grpc/node_service.rs:131-133 | in every reachable state the channels of the streams have room for 64 events |
| Decimal.PrintInjective | src/grpc/node_service.rs:18-20 | different counter values give different subscriber ids |
| RateLimiter.InMemoryRateLimiter.Check | src/grpc/interceptors/rate_limiter.rs:117-153 | the method updates one bucket as the specification function says and no other |
| RateLimiter.InMemoryRateLimiter.Cleanup | src/grpc/interceptors/rate_limiter.rs:155-161 | the method keeps exactly the buckets used within two windows |
| RateLimiter.CleanupIsInvisible | src/grpc/interceptors/rate_limiter.rs:155-161 | in any run of checks, wherever cleanups happen, every decision is as without them |
| RateLimiter.KeyIsIsolated | src/grpc/interceptors/rate_limiter.rs:122-131 | the decisions on a key are those of a single bucket, whatever other keys and cleanups do |
| RateService.CleanupForgetsIdleKeys | src/grpc/interceptors/rate_limiter.rs:155-161 | after any run and a cleanup, a key used within the last window is still there, and one not used for two windows, or never, is not |
| RateBounds.CheckSpends | src/grpc/interceptors/rate_limiter.rs:133-152 | allowed requests plus tokens left grow by at most what the time used up pays for, for every limit |
| RateBounds.TotalBound | src/grpc/interceptors/rate_limiter.rs:133-152 | from the creation of a bucket at most limit + floor(limit * time / window) requests are allowed |
| RateBounds.IntervalBound | src/grpc/interceptors/rate_limiter.rs:117-153 | whatever came before, an interval of any length admits at most limit + floor(limit * (length - 1) / window) |
| RateBounds.LeastIntervalBound | src/grpc/interceptors/rate_limiter.rs:117-153 | for every policy and every length a number bounds what an interval of that length admits if and only if it is at least that |
| RateBounds.LeastTotalBound | src/grpc/interceptors/rate_limiter.rs:133-152 | and the same for what is admitted within any time after a bucket's creation |
| RateBounds.SlidingWindowBound | src/grpc/interceptors/rate_limiter.rs:117-153 | in particular at most 2 * limit - 1 in an interval as long as the window |
| RateBounds.SlidingWindowBoundIsLeast | src/grpc/interceptors/rate_limiter.rs:117-153 | for every policy a number bounds every window if and only if it is at least limit + floor(limit * (window - 1) / window) |
| RateBounds.LeastWindowBound | src/grpc/interceptors/rate_limiter.rs:117-153 | which is 2 * limit - 1 while the window has a tick for each token |
| RateBounds.DocumentedWindowBound | security/availability-invariants.md:15 | the documented bound, limit per window, holds if and only if the limit is 1 or the window a single tick |
| RateBounds.RefusedCheckChangesNothing | src/grpc/interceptors/rate_limiter.rs:138-152 | where refills do not wrap, a refused check leaves an existing bucket unchanged, and it was less than one token's time since the last refill |
| RateBounds.NoStarvation | src/grpc/interceptors/rate_limiter.rs:138-152 | however often a key is polled, an unbroken series of refusals is shorter than window / limit, wrapping refills included |
| RateBounds.WrapsExactly | src/grpc/interceptors/rate_limiter.rs:142 | no run of checks reaches a refill whose u32 sum wraps if and only if limit - 1 + floor(limit * (window - 1) / window) is below 2^32 |
| RateBounds.LimitsThatNeverWrap | src/grpc/interceptors/rate_limiter.rs:142 | while the window has a tick for each token, if and only if limit <= 2^31 |
| RateService.CheckIsExact | src/grpc/interceptors/rate_limiter.rs:133-152 | where refills do not wrap, a check is granted if and only if tokens left and time since the last refill pay for one, takes exactly one, and loses none |
| RateService.BurstIsExact | src/grpc/interceptors/rate_limiter.rs:133-152 | after any run, a burst gets exactly as many requests through as the bucket has tokens left and the time since its last refill pays for |
| RateService.FirstBurstIsExact | src/grpc/interceptors/rate_limiter.rs:122-131 | a new key gets its limit at once, and no more |
| RateService.IdleKeyIsFull | src/grpc/interceptors/rate_limiter.rs:133-140 | a key left alone for a window has its whole limit again, and no more |
| RateService.FirstRequestsPass | src/grpc/interceptors/rate_limiter.rs:122-152 | the first `limit` requests on a key are granted, whenever they come |
| RateService.LimitIsGrantedExactly | src/grpc/interceptors/rate_limiter.rs:142 | up to `limit` requests pass in every run if and only if no refill can wrap |
| RateService.KeyGetsItsLimit | src/grpc/interceptors/rate_limiter.rs:122-152 | in the shared map, whatever other keys and cleanups do, the first `limit` checks of a key are granted |
| AuthGate.ClaimsDoNotIdentify | src/grpc/interceptors/identity.rs:122-147 | the x-client-id header and any claimed id leave the fingerprint of a request alone |
| AuthGate.ServedAs | src/grpc/interceptors/identity.rs:52-66 | the fingerprint is that of an identity set by an outer layer, or else of the leaf of the TLS chain |
| AuthGate.ReadBodyExact | src/grpc/interceptors/auth_layer.rs:105-133 | a body is accepted if and only if it can be read and fits into the limit as a whole, and is passed on unchanged |
| AuthGate.ReadBodyLimited | src/grpc/interceptors/auth_layer.rs:105-133 | the loop that does so, never holding more than the limit |
| AuthGate.CheckRequest | src/grpc/interceptors/auth_layer.rs:190-254 | CLN is asked if and only if there is one well-formed rune header, a known path and a readable body within the limit; the checks and their errors come in the code's order |
| AuthGate.PathsNameMethods | src/grpc/interceptors/auth_layer.rs:37-51 | the known paths are those of the ten calls, and each stands for its own name in snake case, but for the two streams that stand for invoice and xpay |
| AuthGate.AskedExactly | src/grpc/interceptors/auth_layer.rs:190-254 | CLN is asked about a method if and only if there is one rune of 1 to 4096 letters, digits and the ten separators, the path is that of the call, and the body is readable and within the limit |
| AuthGate.RefusedExactly | src/grpc/interceptors/auth_layer.rs:105-254 | each of the six refusals is given under exactly one condition, in the order runes, rune, path, body |
| Pipeline.AdmissionService.Call | src/grpc/interceptors/admission_layer.rs:88-132 | spends one token of the fingerprint's pre-auth budget, or refuses a request without identity |
| Pipeline.RateLimitService.Call | src/grpc/interceptors/rate_limit_layer.rs:75-127 | spends one token of the method's budget of the fingerprint; passes requests without a policy through |
| Pipeline.Server.constructor | src/grpc/server.rs:188-190 | both layers work on one and the same limiter |
| Pipeline.Server.Receive | src/grpc/server.rs:193-209 | identity and admission in the pipeline's order, as one step of the run model |
| Pipeline.Server.CheckRune | src/grpc/interceptors/auth_layer.rs:190-274 | the rune check, as one step of the run model |
| Pipeline.Server.Serve | src/grpc/server.rs:208-215 | the quota check and the handler, as one step of the run model |
| PipelineBudgets.KeyInjective | src/grpc/interceptors/rate_limit_layer.rs:102-103 | keys of different budgets or fingerprints differ, whatever text a fingerprint is |
| PipelineBudgets.BudgetsOfPaths | src/grpc/interceptors/auth_layer.rs:37-51 | every path CLN is asked about has a limited method, and none is called like the pre-auth budget |
| PipelineBudgets.BudgetsAreSeparate | src/grpc/server.rs:188-190 | in the shared map each budget of each certificate decides as a bucket of its own would, in every interleaving and with cleanups |
| PipelineBudgets.BudgetInInterval | src/grpc/interceptors/admission_layer.rs:97-118 | what each budget of each certificate grants in an interval of any length, in any run |
| PipelineBudgets.AdmissionsExactly | src/grpc/interceptors/admission_layer.rs:97-118 | for the pre-auth budget that is exact: over all runs and for every interval length no smaller number is a bound |
| PipelineBudgets.BudgetCeiling | src/grpc/interceptors/admission_layer.rs:97-118 | in particular at most 2 * limit - 1 requests in any window |
| PipelineBudgets.NothingIsSkipped | src/grpc/server.rs:193-196 | in every run a rune check follows an admission, quota is spent only after a valid rune for that method, and no request reaches the handler unmetered |
| PipelineBudgets.RuneCallsAreBounded | src/grpc/interceptors/admission_layer.rs:1-6 | requests admitted in one pre-auth window cause at most 2 * limit - 1 check_rune calls |
| PipelineBudgets.PromptCallsAreBounded | src/grpc/interceptors/auth_layer.rs:245-264 | if every check follows its admission within d, the calls made in any interval of length t are at most what the pre-auth budget grants in t + d |
| PipelineBudgets.PromptCallsExactly | src/grpc/interceptors/auth_layer.rs:245-264 | and no smaller number bounds them: for every policy, t and d a number is a bound for all such runs if and only if it is at least what the budget grants in t + d |
| PipelineBudgets.SlowBodiesBunchCalls | src/grpc/interceptors/auth_layer.rs:245-264 | by the time of the call there is no bound: whatever the policy, and for every n, a run in which one certificate causes n check_rune calls within one tick |
| QuotaBounds.MethodCeiling | src/grpc/interceptors/rate_limiter.rs:16-47 | all paths of a method together reach the handler at most 2 * limit - 1 times in a window |
| QuotaBounds.MethodExactly | src/grpc/interceptors/rate_limit_layer.rs:75-127 | over all runs and for every interval length, a number bounds how often a certificate reaches the handler of a method, over all its paths, if and only if it is at least what the method's budget grants: the pre-auth budget lowers it for no length |
| QuotaBounds.PaymentsPerHour | src/grpc/interceptors/rate_limiter.rs:16-20 | in any hour a certificate gets at most 5 invoices and 5 payments through, over both paths of each |
| QuotaBounds.PaymentsExactly | src/grpc/interceptors/rate_limiter.rs:16-20 | and no number below 5 is a bound for either, under any pre-auth policy |
| QuotaBounds.CallsPerHourExactly | src/grpc/interceptors/rate_limiter.rs:16-47 | for each of the ten paths the least bound on the calls of a certificate in an hour: 119 for Getinfo, 5 for the payment paths, 23 for the other streams |
| QuotaBounds.FirstOfBudgetPass | src/grpc/interceptors/rate_limit_layer.rs:75-127 | the first `limit` requests of a certificate on a budget are granted, whoever else uses the server |
| PipelineIsolation.ServedAlone | src/grpc/interceptors/rate_limit_layer.rs:78-103 | everything done for a certificate is what a server with no other client, no claims and no cleanup would do |
| PipelineIsolation.NonInterference | src/grpc/interceptors/admission_layer.rs:97-98 | two runs with the same requests of a certificate decide the same for it, whatever others do |
| PipelineIsolation.ClaimsAreInvisible | src/grpc/interceptors/identity.rs:135-142 | changing the x-client-id headers of a whole run changes no decision |
| PipelineIsolation.OnlyLeavesMatter | src/grpc/interceptors/identity.rs:58-61 | other certificates behind the leaves of a whole run change nothing that is done |
| AtomicPublish.PublishFiles | src/cli/atomic.rs:34-61 | the method leaves the disk, the result and the list of backups that the specification function gives |
| AtomicPublish.RollbackFiles | src/cli/atomic.rs:71-78 | the two reverse loops, going on past failures |
| PublishProofs.BackupPathsDiffer | src/cli/atomic.rs:63-69 | different targets have different backup paths |
| PublishProofs.NothingIsEverLost | src/cli/atomic.rs:43-78 | after every single operation, whatever fails, the old content of each target is at the target or at its backup |
| PublishProofs.OtherPathsNeverChange | src/cli/atomic.rs:43-78 | no publication, not even one whose rollback fails, and no state on its way changes a path that is not a target, a staged file or a backup of the plan |
| PublishProofs.OldBackupsAreKeptExactly | src/cli/atomic.rs:44-50 | a completed publication leaves all other files alone if and only if each backup path it needs was free or held the same content |
| PublishProofs.PublishIsAllOrNothing | src/cli/atomic.rs:31-61 | on success all targets hold the staged content and the list names the backups in plan order; after a clean rollback everything is as before; other paths never change, clean or not |
| PublishProofs.OneFaultIsUndone | src/cli/atomic.rs:43-78 | a single failing operation, wherever it is, ends in one of those two states, and none at all in success |
| PublishProofs.SecondPublicationOverwritesBackup | src/cli/atomic.rs:35-50 | two publications in one second lose the first old content |
| RepeatedTargets.LastFileWins | src/cli/atomic.rs:43-58 | after a completed publication each target holds the file planned last for it, whatever was there and even if targets repeat |
| RepeatedTargets.FaultFreeCompletes | src/cli/atomic.rs:43-58 | without faults every plan whose staged files exist is published to its end, even if it names targets twice |
| RepeatedTargets.OriginalIsKeptExactly | src/cli/atomic.rs:43-58 | after a completed publication of any plan the original of a target is at the target or its backup if and only if the plan itself put it back or the last replacement of that target still found it |
| RepeatedTargets.NamedOnceExactly | src/cli/atomic.rs:43-58 | when each staged content is new to its target, the original is kept if and only if the plan names the target once |
| RepeatedTargets.ListNamesTheBackups | src/cli/atomic.rs:43-58 | the list that a completed publication of any plan returns names, in plan order, the backup of each file that found something to replace, and those backups hold what was replaced |
| RepeatedTargets.TargetsHoldNothingForeign | src/cli/atomic.rs:43-78 | whatever operations fail, those of the rollback included, each target ends with what it held, with what was staged for it or with nothing, even if backup paths were taken and targets repeat |
| RepeatedTargets.RollbackKeepsExactly | src/cli/atomic.rs:71-78 | a clean rollback, or one after a single fault, restores the targets if and only if each backup made still held the original, and keeps all other files if and only if no backup was made over one of them |
| RepeatedTargets.SingleFaultsKeepExactly | src/cli/atomic.rs:43-78 | in terms of plan and files alone: all single faults are undone at the targets if and only if no file brings something new to a target that is named again later, and leave all other files alone if and only if no backup path that is used was taken |
| RepeatedTargets.CleanRollbackRestoresTargets | src/cli/atomic.rs:71-78 | a rollback without a failing step restores every target, whatever the plan and whatever lay at the backup paths |
| CertRenewal.RenewCertificates | src/cli/certs.rs:832-992 | the method leaves the disk and the result that the specification function gives |
| CertRenewal.RenewalGoesAheadExactly | src/cli/certs.rs:868-977 | a run publishes, or says what it would publish, if and only if the checks, lock and staging succeed and the installed CA is the validated one, or another with rotate_ca, or missing with init_ca; without faults it then completes |
| CertRenewal.RenewedFiles | src/cli/certs.rs:896-977 | after a completed run each certificate and key file holds its own, and the CA file the validated CA, untouched if it was that already |
| CertRenewal.NothingStaysStaged | src/cli/certs.rs:896-899 | no run, however it ends, leaves a file in its staging directory |
| CertRenewal.RenewalIsPinned | src/cli/certs.rs:868-977 | whatever lies in the directory, a completed run leaves the validated CA and leaves it issued, having replaced a CA only with rotate_ca and installed a missing one only with init_ca; refused and dry runs change nothing outside staging; a clean rollback restores certificates, keys and CA, and all other files if no backup path was taken |
| CertRenewal.StalePin | src/cli/certs.rs:868-894 | a run that took its pinning decision on an older state keeps that promise if and only if it meets the validated CA, or its plan has the CA and the same decision would be allowed on what it meets |
| CertRenewal.OverlapReplacesTheCa | src/cli/certs.rs:868-977 | two overlapping runs with init_ca and different CAs, in any directory without a CA, both complete, and the second replaces the first one's CA without rotate_ca |
| Provisioning.ProvisionServer | src/cli/provision.rs:58-294 | the method leaves the disk and the result that the specification function gives |
| Provisioning.SetupGoesAheadExactly | src/cli/provision.rs:95-291 | a run publishes if and only if nothing stands in its way and it is confirmed, a dry run ends before the question, and without faults a run that goes ahead completes |
| Provisioning.CompletedRunPublishes | src/cli/provision.rs:116-236 | after a completed run all eight targets hold their own certificate, key or both: HAProxy's server and client leaves with their keys, the API's server leaf the same as HAProxy's, its client leaf one of its own |
| Provisioning.NothingStaysStaged | src/cli/provision.rs:116-121 | no run, however it ends, leaves a file in either staging directory |
| Provisioning.CompletedRunIsPinned | src/cli/provision.rs:95-291 | a completed run, whatever the directories held and even if two of them are one, leaves the validated CA in both places and its leaves beside it, replaced a CA only with rotate_ca and any file only with force |
| Provisioning.ProvisioningIsPinned | src/cli/provision.rs:95-291 | a completed run keeps the pin promise; refused, dry and unconfirmed runs change nothing outside the staging directories; a clean rollback restores all targets, and all other files if no backup path was taken; for any directories, two equal ones included |
| Provisioning.FailedRunReplacesTheCa | src/cli/provision.rs:191-291 | when the API directory is the HAProxy CA directory and holds another CA or none, one fault makes the run fail and leave the new CA there |
| Provisioning.SingleFaultsAreUndoneExactly | src/cli/provision.rs:191-291 | of a run that no gate refuses, every single fault that makes it fail leaves all files as they were if and only if the two directories differ or the CA file already holds the run's CA, and no backup path that the run may use is taken |
| TrustChanges.TrustChangesOnlyOnRequest | src/cli/certs.rs:825-831 | in any sequence of init and renew runs, on this directory and on others and under any number of faults, each change of the installed CA is the work of a run on it that was told to make it, and installs that run's CA or, if a rollback failed, loses the CA |
| TrustChanges.NoForeignCa | src/cli/certs.rs:825-831 | so the CA at the end is the one at the start or that of a run that was told to install it |
| TrustChanges.LeavesFollowTheCa | src/cli/certs.rs:896-977 | from the first completed run on the leaves match the CA, whatever was in the directory and whichever second each run fell into, as long as rollbacks on it succeed |
| Decimal.ParsePrint | src/bin/gcob/commands/invoice.rs:96 | every u64 is read back from its decimal text |
| Amounts.ParseBtcToMsat | src/bin/gcob/commands/invoice.rs:110-149 | the method with its padding loop computes the exact arithmetic of the specification function, errors included |
| Amounts.ParseBtcExact | src/bin/gcob/commands/invoice.rs:108-149 | the parser returns v if and only if the text is digits with an optional point, has at most 11 decimals and is exactly v * 10^-11, and v fits into u64 |
| AmountsExact.ParseAmountExact | src/bin/gcob/commands/invoice.rs:93-106 | the parser returns v if and only if the text is a number with a unit worth exactly v, v fits into u64, the unit is in any case, and there is white space at most around it and before the unit |
| Amounts.TrailingZero | src/bin/gcob/commands/invoice.rs:139-143 | one more zero at the end of the fraction changes nothing while it fits |
| Amounts.LeadingZero | src/bin/gcob/commands/invoice.rs:127-131 | a zero in front of any text but the empty one changes nothing |
| Amounts.RoundTrip | src/bin/gcob/commands/invoice.rs:93-106 | every u64 printed in msat, in BTC with 11 decimals or without a unit is read back; in sat it is multiplied by 1000 or too large |
| Amounts.SpaceAround | src/bin/gcob/commands/invoice.rs:94-103 | white space around an amount does not matter to either parser |
| Amounts.ParsersAgree | src/bin/gcob/commands/xpay.rs:86-97 | parse_msat rejects amounts in btc and equals parse_amount on all other text |
| Acl.AclHasBroadPermsFromBytes | src/certs/paths.rs:455-473 | the chunk loop decides whether any entry is broad, on exactly the well-formed blobs |
| Acl.SomeExactly | src/certs/paths.rs:455-462 | there is a verdict if and only if the blob has 4 + 8n bytes and starts with version 2, little-endian |
| Acl.AclBlob | src/certs/paths.rs:931-940 | the encoder's loop appends header and entries in order |
| Acl.DecodeEncode | src/certs/paths.rs:931-940 | decoding an encoded list gives the list back |
| Acl.VerdictOfEncoded | src/certs/paths.rs:464-472 | the verdict on an encoded list is true if and only if a base group, named group or other entry has a requested bit |
| Acl.VerdictInBytes | src/certs/paths.rs:455-473 | a blob is broad if and only if it is well formed and the first four bytes of one of its entries, low byte first, are a tag of 4, 8 or 32 and a requested bit |
| Acl.OwnerOnlyExactly | src/certs/paths.rs:523-528 | a file is owner-only if and only if its mode has none of the bits or it has a well-formed ACL without such an entry |
| Acl.OwnerOnlyIsAntitone | src/certs/paths.rs:523-528 | a file that is owner-only for some bits is owner-only for fewer |
| Acl.NamedUsersAreAccepted | src/certs/paths.rs:448-453 | dropping all named users and the mask from an ACL leaves the verdict as it is |

## Left out

- Transport: TLS, HTTP/2 settings, tower readiness and futures, and CLN calls other than the verdict of `check_rune`.
- The Redis script: its expiry lives in Redis, and `redis_cm` is taken to be `None`.
- Floating point in the refill and the resolution of `Instant`: see Assumptions.
- `extract_params_for_path` and protobuf decoding: they only choose what CLN is asked, which is inside the arbitrary answer.
- The streaming handlers as objects: they are steps of a state machine, because what matters is their interleaving; event conversion and response channels are not in it.
- A panic in a streaming task: it would return the permit by unwinding and leave the subscriber to the next eviction.
- Several dispatchers at once: the bridge has one, and per-subscriber order would not hold with more.
- Shutdown of the server, and requests cancelled inside a limiter check.
- X.509, key generation, signatures, SHA-256, host name and address checks: a run is given its CA, its leaves and the outcome of these checks.
- Modes, owners, symlinks, the lock with its file, and temporary directory names: the file system is a map from paths to contents, and a run is told whether these steps succeed.
- Publications with several faults, the rollback's own among them: `NothingIsEverLost`, `OtherPathsNeverChange`, `TargetsHoldNothingForeign` and `TrustChangesOnlyOnRequest` cover them, the statements that everything is restored do not.
- TrustChanges.LeavesFollowTheCa: leaves out an `init` run that uses the directory for HAProxy's CA alone, as it changes the CA there and publishes no leaves beside it.
- `gcob init` and `certs renew` on one API directory at the same time: the one locks the HAProxy directory and the other the API directory, so that no lock keeps them apart; such overlaps are not modelled.
- Changes to a certificate directory by other programs, or between the pin check and the lock.
- `to_lowercase` beyond ASCII: no other character becomes a digit or a letter of a unit.
- Printing, prompts, command-line parsing, environment variables, `certs list`, `show` and `verify`, and the conversion of events: no state of their own.
- StreamAdmission.StreamLimits.Acquire: states the effect without interference; interleavings are covered by `BudgetsHold` and the step invariant.
- Routing.EventRouter.Dispatch: states the effect without interference; interleavings are covered by `RouterRuns` and `RouterHistory`.
- PipelineBudgets.RuneCallsAreBounded: counts calls by the time of admission, because by the time of the call no such bound holds (`SlowBodiesBunchCalls`).
