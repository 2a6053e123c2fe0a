# Verified models of the Spacegate AI gateway and its wasm host

A Dafny 4.11 model of two parts of Spacegate: the Redis-backed queue service of the AI gateway
(`binary/ai-gateway-service`) and the proxy-wasm host (`crates/plugin-wasm`), with the path rewriting of
`crates/plugin`. `dafny verify dfyconfig.toml` checks everything.

What is modelled, and where:

- **Job delivery.** `JobQueue` is a step machine: entries of the job streams, the consumer group, leases,
  attempt counters, the dead-letter queue, and any number of tasks, each standing before its next await. A call
  succeeds, fails, or takes effect and loses its reply; tasks crash; keys expire; entries are reclaimed.
  `JobDelivery`, `JobLeases` and `JobAttempts` prove what holds in every run, and `JobOverrun` has a run in which
  an expired lease lets a job start too often. `JobCalls` takes the calls of one delivery out of any run and
  shows their script. `JobWorker` is the same code as methods, await by await, and is
  proved to do exactly what a task of the machine does.
- **Callbacks.** `CallbackRetry` has the backoff and the chains of requeued entries, `CallbackDelivery` the
  retry stream as a step machine with its own clock, `CallbackCalls` the script of one handling in any run,
  `CallbackWorker` the handler as code.
- **Rate limits.** `TokenBucket` has the Lua script against a bucket that never expires; `RuleKeys` the Redis
  keys of tenant rules and their resolution.
- **Request bodies and times.** `BodyStore` cuts a streamed body into multipart parts; `CivilDate` is the
  RFC 3339 timestamp of a finished job against a calendar stepped day by day.
- **The wasm host.** `HttpCalls` is the bookkeeping of outbound calls of one VM, `HookTrace` what a request's
  hook order means, `WasmVm` the VM as a class driven by an arbitrary guest. `PairCodec`, `PropertyPath` and
  `SharedData` are the header-pair codec of proxy-wasm ABI v0.2.1, property paths and the compare-and-swap store.
- **Path rewriting.** `PathRewrite` is prefix replacement.

`Options`, `Octets`, `Numbers`, `Counting`, `Splitting` and `Awaiting` hold shared definitions.

Where the code and its comments or the intended law disagree, the model follows the code, and the exact
condition is proved:

- Job leases are deleted without comparing the owner, so exclusion needs that no lease expires under a live
  holder (`JobLeases.OneProcessorPerJob`); every such expiry lets a second task in
  (`JobLeases.LiveExpiryBreaksExclusion`).
- Between two clears of its counter a job may start more often than the maximum: by as many times as tasks
  held a ticket from before the first clear (`JobAttempts.StartsSince`), which happens
  (`JobOverrun.ExpiredLeaseOverruns`) unless until then no lease expired under a live holder and no counter timed
  out (`JobAttempts.StartsBetweenClears`). The
  counter is compared after truncation to 32 bits (`JobAttempts.StartsIff`), so passing a multiple of 2^32 starts the
  allowance over (`JobAttempts.StartsAreBounded`).
- A stored due time survives exactly when it is below 2^63 (`CallbackRetry.DueSurvives`).
- Bucket keys that expire are invisible exactly when the TTL covers the refill, which one rule always does and
  two rules of a tenant need not (`TokenBucket.ExpiryIsInvisible`, `TokenBucket.UncoveredExpiryShows`).
- The script stores the clock it is given, so the admission bound holds for all costs and windows exactly on clocks
  that never go back (`TokenBucket.BoundIffNeverBack`); one that does earns the same time again without limit
  (`TokenBucket.RewindEarnsAgain`).
- Rule keys are trimmed and candidate keys are not, so for every request they agree exactly on tidy values
  (`RuleKeys.CandidateIsRuleKeyIff`).
- A call response reaches the context that made the call exactly when no request started in between, or that
  context is the one being driven (`HttpCalls.ReachesIssuerIff`). A late response is handed to the request being
  driven exactly when that request has something pending itself (`HttpCalls.StaleResultIff`): one call of its own
  suffices (`HttpCalls.LateResultReachesNextRequest`), and a request that makes none hears nothing
  (`HttpCalls.QuietRequestHearsNothing`). The comment in vm.rs about cleaning up between requests promises more.
- The drive loop is described as running until the guest continues the stream; the continue flag never decides
  it, an empty set of pending calls does (`WasmVm.Vm.Drive`).
- A local response sent in or after the response-body hook is not looked at (`WasmVm.Vm.ResponseHooks`).
- A request leaves its context behind if and only if its body was too large, its caller gave up, or the guest
  failed after the create hook and no new VM could be made (`WasmVm.ProcessWithVm`).
- proxy_http_call reports an error after the call was made when the token cannot be written back
  (`WasmVm.Vm.HttpCall`).
- A rejected compare-and-swap on an absent key creates an empty entry (`SharedData.ReadAfterRun`).

## Model

| member | source | states |
|---|---|---|
| JobDelivery.NoJobIsLost | binary/ai-gateway-service/src/app/queue.rs:168-328 | in every run with any workers, reclaims, crashes and lost replies, each appended entry is in exactly one of unread, pending, acked, and it is acked only by a task that had stored the result and then posted or queued the callback if there is one, or had appended a dead-letter copy |
| JobLeases.OneProcessorPerJob | binary/ai-gateway-service/src/app/queue.rs:168-203 | if no lease expires under a live holder, at most one task per job id is inside process_job and every release removes the releaser's own lease |
| JobLeases.LeasesStayHeld | binary/ai-gateway-service/src/app/queue.rs:270-287 | under the same condition every task past the lease step owns the lease key of its job, over whole runs |
| JobLeases.LiveExpiryBreaksExclusion | binary/ai-gateway-service/src/app/queue.rs:285-287 | the condition is needed in every state: expiry under a processing task with attempts left leads to two tasks in process_job |
| JobAttempts.StartsAreBounded | binary/ai-gateway-service/src/app/queue.rs:178-186 | within one life of the counter process_job starts at most job_max_delivery_attempts times, with distinct attempt numbers; for a counter that passes w multiples of 2^32, w times the maximum plus one more |
| JobAttempts.StartsSince | binary/ai-gateway-service/src/app/queue.rs:178-203 | over any stretch of any run without a removal of the counter, starts are at most the maximum plus the tasks that held a ticket of an earlier life when it began; nothing is assumed about leases or expiry |
| JobAttempts.StartsBetweenClears | binary/ai-gateway-service/src/app/queue.rs:178-203 | if up to then no lease expired under a live holder and no counter timed out there are no such tasks, so the maximum holds for the stretch |
| JobOverrun.ExpiredLeaseOverruns | binary/ai-gateway-service/src/app/queue.rs:270-287 | a run from the start, with a maximum of two, in which expired leases let a job start three times without a removal of its counter and leave two tasks inside process_job at once |
| JobAttempts.ExcessDeliveryNeverRuns | binary/ai-gateway-service/src/app/queue.rs:179-186 | a delivery whose attempt exceeds the maximum takes the dead-letter path: it never starts, calls upstream, stores, posts or queues a retry; each of its acknowledgements follows its copy of the entry; it releases the lease only after that copy |
| JobAttempts.StartsStayAllowed | binary/ai-gateway-service/src/app/queue.rs:289-298 | tickets drawn from the counter are distinct and in range, and every start and upstream call is backed by an allowed ticket, over whole runs |
| JobCalls.CallsKeepToTheScript | binary/ai-gateway-service/src/app/queue.rs:168-268 | in every run the calls of every delivery keep to one script: lease, attempt, expiry, then the dead-letter copy and its acknowledgement, or upstream, result, publish, callback, acknowledgement, counter; each only after the one before succeeded, a failed post leading to the retry and a failure inside process_job to the release alone |
| JobCalls.HistoryIsWhatCallsLeft | binary/ai-gateway-service/src/app/queue.rs:168-268 | in every run the history of a delivery, acknowledgements aside, is what its calls left, in their order, nothing twice |
| JobCalls.AnsweredIsNotRetried | binary/ai-gateway-service/src/app/queue.rs:258-265 | in every run, once the post of a callback was answered that delivery never queues it for retry |
| JobWorker.Service.ProcessStreamEntry | binary/ai-gateway-service/src/app/queue.rs:168-203 | the code's calls, interleaved with anything others do, form a run of the machine in which this task has returned; true comes after a whole dead-letter path or a whole service with the lease released, and then the entry is acknowledged; false after the lease call alone; an error after a call that failed, or for a missing job id |
| JobWorker.Service.ProcessJob | binary/ai-gateway-service/src/app/queue.rs:205-268 | it ends before the acknowledgement exactly when it succeeded, otherwise before the release of the lease, its last call being the one that failed |
| JobWorker.Service.NotifyCallback | binary/ai-gateway-service/src/app/queue.rs:258-265 | an answered post is the only call and event it adds; after any other post the callback is queued for retry, and the job fails only if that fails too |
| JobWorker.Service.StoreAndPublish | binary/ai-gateway-service/src/app/result_store.rs:1-9 | no callback and no acknowledgement before the result is stored and published; an error is one of the two calls failing |
| JobWorker.Service.AcquireJobLease | binary/ai-gateway-service/src/app/queue.rs:270-283 | true means the lease key is set by this task; false that somebody holds it; any answer but true ends the delivery |
| JobWorker.Service.ReleaseJobLease | binary/ai-gateway-service/src/app/queue.rs:285-287 | unless the call was lost nobody holds the lease afterwards, whoever set it, and the task ends |
| JobWorker.Service.IncrementJobDeliveryAttempt | binary/ai-gateway-service/src/app/queue.rs:289-294 | the attempt decides between the dead-letter path and processing |
| JobWorker.Service.ClearJobDeliveryAttempt | binary/ai-gateway-service/src/app/queue.rs:296-298 | unless the call was lost there is no counter afterwards; an error is ignored |
| JobWorker.Service.AckStreamEntry | binary/ai-gateway-service/src/app/queue.rs:300-303 | after a reply the entry is acknowledged, by this task or another |
| JobWorker.Service.EnqueueJobDlq | binary/ai-gateway-service/src/app/queue.rs:305-328 | no acknowledgement on the dead-letter path before the copy is appended |
| JobWorker.Service.DeliverEntry | binary/ai-gateway-service/src/app/queue.rs:362-381 | a read or reclaimed entry is handled by a new task; true means it is acknowledged |
| CallbackDelivery.NoCallbackIsForgotten | binary/ai-gateway-service/src/app/callback.rs:73-181 | in every run with crashes, reclaims and lost replies, a callback that entered retry is delivered, has an entry nobody acknowledged, or is in the dead-letter queue |
| CallbackDelivery.RetriesAreBounded | binary/ai-gateway-service/src/app/callback.rs:116-152 | in every run each entry ends a chain of entries of that run, each appended by handling the one before, at times that never decrease, and carries one more than the failed posts on it; no chain posts more than max(1, callback_max_retry_attempts) times, one whose times increase is no longer than its first entry allows, and nothing is posted before it is due |
| CallbackDelivery.HistoryIsUnique | binary/ai-gateway-service/src/app/callback.rs:116-152 | an entry has only one such chain |
| CallbackCalls.CallsKeepToTheScript | binary/ai-gateway-service/src/app/callback.rs:116-152 | in every run the steps of every handling keep to one script: an entry not due is appended again with its attempt and due time; a due one is posted; only a failed post leads to the next attempt below the maximum or to the dead-letter copy from it on; only one of these that succeeded is followed by the acknowledgement |
| CallbackCalls.AnsweredIsSettled | binary/ai-gateway-service/src/app/callback.rs:131-150 | in every run a handling whose post was answered appends no further attempt and no dead-letter copy |
| CallbackRetry.AttemptsCountPosts | binary/ai-gateway-service/src/app/callback.rs:132-150 | along any chain the attempt is one more than the failed posts, deferrals do not count, and the callback never changes |
| CallbackRetry.RequeueCounts | binary/ai-gateway-service/src/app/callback.rs:124-150 | a failed post raises the attempt by exactly one within the maximum; a deferral keeps attempt and due time |
| CallbackRetry.FirstRetryIsDue | binary/ai-gateway-service/src/app/callback.rs:16-28 | the first retry has attempt 1 and is due the whole initial delay after the failed post, not capped |
| CallbackRetry.ChainsEnd | binary/ai-gateway-service/src/app/callback.rs:124-150 | under an advancing clock a chain is no longer than a bound known from its first entry |
| CallbackRetry.DelaysGrow | binary/ai-gateway-service/src/app/callback.rs:183-187 | delays never shrink with the attempt and never exceed the cap |
| CallbackRetry.DelaysDouble | binary/ai-gateway-service/src/app/callback.rs:183-187 | the first delay is the initial one or the cap; below the cap the delay doubles with each attempt up to the seventeenth and is constant from there |
| CallbackRetry.DelaysAlongChain | binary/ai-gateway-service/src/app/callback.rs:143-146 | the due time written after a failed post is the time read plus the initial delay times two to the attempt, at most 16, or the cap; so delays never shrink along a chain |
| CallbackRetry.DueSurvives | binary/ai-gateway-service/src/app/callback.rs:51 | a due time written as i64 reads back exactly when it is below 2^63 |
| CallbackWorker.Service.ProcessCallbackRetryEntry | binary/ai-gateway-service/src/app/callback.rs:116-152 | the code's calls, interleaved with anything others do, form a run of the machine in which this task has returned, by the script; it reports success exactly if its last call succeeded, and then the entry is acknowledged |
| CallbackWorker.Service.AfterError | binary/ai-gateway-service/src/app/callback.rs:137-149 | a failed post is acknowledged only after the dead-letter copy or the next attempt was appended |
| CallbackWorker.Service.EnqueueRetry | binary/ai-gateway-service/src/app/callback.rs:30-60 | after a reply the last entry of the stream is unread and has exactly the given fields and origin; only then is the handled one acknowledged |
| CallbackWorker.Service.AckRetry | binary/ai-gateway-service/src/app/callback.rs:154-157 | after a reply the entry is acknowledged |
| CallbackWorker.Service.DeliverEntry | binary/ai-gateway-service/src/app/callback.rs:95-114 | a read or reclaimed entry is handled by a new task |
| TokenBucket.Script.Eval | binary/ai-gateway-service/src/app/types.rs:1-33 | the reply and both keys are those of a bucket that never expires; and in plain terms: tokens stored are tokens reported, the stored time is the clock, both keys live equally long, at least five minutes and ten refills, an allowed check waits 0 and a denied one exactly as long as the missing tokens take |
| TokenBucket.ReplyIsTruthful | binary/ai-gateway-service/src/app/types.rs:1-33 | the same of every step of the specification, with an invalid request changing nothing and answered with a refusal, no tokens and one second |
| TokenBucket.AdmissionBound | binary/ai-gateway-service/src/app/types.rs:9-32 | in every run with one rate and burst and a clock that does not go back, the cost admitted in any window is at most one burst plus rate times its length |
| TokenBucket.WindowBound | binary/ai-gateway-service/src/app/types.rs:12-17 | on any clock and with rules below a rate and a burst, a window admits at most one burst plus rate times the forward movement of the clock |
| TokenBucket.IdealConserves | binary/ai-gateway-service/src/app/types.rs:12-23 | one check hands out and keeps exactly what the bucket held and earned |
| TokenBucket.RewindEarnsAgain | binary/ai-gateway-service/src/app/types.rs:15-17 | for every rule, a clock that runs n times over one span is given n + 1 full bursts within that span |
| TokenBucket.BoundIffNeverBack | binary/ai-gateway-service/src/app/types.rs:15-17 | for every rule and clock, all windows of all runs at that clock, whatever the costs, stay within one burst plus rate times length if and only if the clock never goes back |
| TokenBucket.ForwardIsElapsedIff | binary/ai-gateway-service/src/app/types.rs:15-17 | the forward movement that bounds every window is the elapsed time exactly on clocks that do not go back |
| TokenBucket.SeveralRulesBound | binary/ai-gateway-service/src/app/types.rs:9-32 | for rules that differ from check to check, on any clock, if every TTL covers the next refill: the script admits in a window at most the largest burst plus the largest rate times forward movement |
| TokenBucket.ExpiryIsInvisible | binary/ai-gateway-service/src/app/types.rs:19-30 | keys that expire answer every run like keys that never do, if every writer's TTL covers the next reader's refill |
| TokenBucket.OneRuleNeverShowsExpiry | binary/ai-gateway-service/src/app/types.rs:19-30 | with one rate and burst the TTL always does |
| TokenBucket.UncoveredExpiryShows | binary/ai-gateway-service/src/app/types.rs:19-30 | wherever it does not, two checks tell the difference |
| TokenBucket.StoredTokensInRange | binary/ai-gateway-service/src/app/types.rs:12-30 | on any clock the stored tokens stay between 0 and burst times 1000 |
| TokenBucket.RetryHintIsExact | binary/ai-gateway-service/src/app/types.rs:27-30 | whatever wrote the bucket before, with cost at most burst and no other check, the same request is admitted at time t if and only if t is at least now plus the hint |
| TokenBucket.StaysNonNegative | binary/ai-gateway-service/src/app/types.rs:12-30 | after any run of any rules on any clock the keys are a bucket as the hint needs it: no negative tokens |
| TokenBucket.PollingKeepsTheHint | binary/ai-gateway-service/src/app/types.rs:27-30 | asking again meanwhile names the same instant |
| TokenBucket.OversizedNeverAdmitted | binary/ai-gateway-service/src/app/ratelimit.rs:251-253 | a cost above the burst is never admitted, although a hint is given: why the validator refuses it |
| RuleKeys.RuleKey | binary/ai-gateway-service/src/app/ratelimit.rs:190-206 | the key built step by step names the trimmed and sanitized dimensions |
| RuleKeys.CleanKeeps | binary/ai-gateway-service/src/app/util.rs:71-73 | the characters a key keeps, listed; every other becomes an underscore |
| RuleKeys.TrimIsExact | binary/ai-gateway-service/src/app/ratelimit.rs:190-206 | trimming takes whitespace off both ends, all of it and nothing else |
| RuleKeys.RuleFromKey | binary/ai-gateway-service/src/app/ratelimit.rs:208-238 | the loop over name and value pairs reads what the key names, with unknown names skipped and a zero cost raised to 1 |
| RuleKeys.KeyReadsBackIff | binary/ai-gateway-service/src/app/ratelimit.rs:190-238 | reading a built key gives its dimensions back exactly when there is a tenant and no dimension contains a colon |
| RuleKeys.KeysAreDistinct | binary/ai-gateway-service/src/app/ratelimit.rs:190-206 | different colon-free dimensions have different keys |
| RuleKeys.RuleKeyRoundTrip | binary/ai-gateway-service/src/app/ratelimit.rs:257-286 | for every rule the validator accepts, the key reads back as the rule's dimensions and the rule read back has the same key |
| RuleKeys.CandidateIsRuleKeyIff | binary/ai-gateway-service/src/app/ratelimit.rs:9-24 | for every request, candidate i is the key of the rule for the i-th selection of dimensions exactly when the selected values are not empty and neither they nor the tenant can be trimmed |
| RuleKeys.CandidatesAreDistinct | binary/ai-gateway-service/src/app/ratelimit.rs:9-24 | the eight candidates of a colon-free request differ |
| RuleKeys.PlaceOf | binary/ai-gateway-service/src/app/ratelimit.rs:14-23 | every selection of dimensions is among the eight |
| RuleKeys.ResolveRateLimit | binary/ai-gateway-service/src/app/ratelimit.rs:67-75 | the limit of the first candidate whose read parses, the global limit if there is none, an error if a read fails before that; rules may change between the reads |
| RuleKeys.MostSpecificWins | binary/ai-gateway-service/src/app/ratelimit.rs:67-75 | no rule for more dimensions of the request that its own read would find is passed over |
| CivilDate.CivilSteps | binary/ai-gateway-service/src/app/util.rs:152-166 | for every day number the conversion is a Gregorian date and the next number is the next day |
| CivilDate.CivilIsCalendar | binary/ai-gateway-service/src/app/util.rs:152-166 | day n is n calendar days after 1970-01-01 |
| CivilDate.CivilIsCalendarBefore | binary/ai-gateway-service/src/app/util.rs:152-166 | the same for negative day numbers |
| CivilDate.CivilIsInjective | binary/ai-gateway-service/src/app/util.rs:152-166 | different day numbers are different dates |
| CivilDate.FormatReadsBack | binary/ai-gateway-service/src/app/util.rs:139-150 | the string has the punctuation and digits of a date-time of section 5.6 of RFC 3339, and its fields read back |
| CivilDate.FormatDenotes | binary/ai-gateway-service/src/app/util.rs:139-166 | the string denotes exactly the given millisecond |
| CivilDate.FormatIsInjective | binary/ai-gateway-service/src/app/util.rs:139-150 | no two instants share a string |
| CivilDate.FourDigitYears | binary/ai-gateway-service/src/app/util.rs:143-149 | the string has its 24 characters exactly until the end of 9999 |
| BodyStore.StoreBody | binary/ai-gateway-service/src/app/object_store.rs:1-53 | where a streamed body is placed: kept whole, offloaded with what was read so far, or refused, for every chunking |
| BodyStore.FinishOffload | binary/ai-gateway-service/src/app/object_store.rs:55-96 | it succeeds exactly when the rest is readable, fits, and all parts and the completion are accepted; the parts are then the body cut at the part size, numbered from 1; otherwise the error is that of the first thing that went wrong, and the upload is aborted, twice where the size limit is exceeded |
| BodyStore.FaultIsUnique | binary/ai-gateway-service/src/app/object_store.rs:55-96 | there is only one first thing that goes wrong, so the error is determined |
| BodyStore.SendItem | binary/ai-gateway-service/src/app/object_store.rs:71-81 | one item of the stream: added with its full parts sent, or refused as unreadable, too large or rejected upstream |
| BodyStore.Drain | binary/ai-gateway-service/src/app/object_store.rs:66-69 | the inner loop sends exactly the full parts |
| BodyStore.SendLast | binary/ai-gateway-service/src/app/object_store.rs:83-96 | the last short part and the completion; an error is the upstream's and the upload is aborted once |
| BodyStore.StoreThenLoad | binary/ai-gateway-service/src/app/object_store.rs:98-114 | whatever was stored loads as the original bytes; inline bodies are within both limits; all parts but the last have the part size, at least 5 MiB, and the last is not empty and no larger; an error is the one of the step where the body fails |
| BodyStore.CutIsExact | binary/ai-gateway-service/src/app/object_store.rs:66-85 | cutting loses nothing and gives the sizes a multipart upload wants |
| HttpCalls.NeverStuck | crates/plugin-wasm/src/vm.rs:438-458 | in every run of calls, results, drive rounds and request starts, whatever is pending has a task or a queued result, however many tokens were used, and pending calls stay within max_pending_calls |
| HttpCalls.TokensFireOnce | crates/plugin-wasm/src/host_fn.rs:645-741 | while at most 2^32 - 1 calls were made, each pending token has exactly one task or result and has not been delivered, and no token is delivered twice |
| HttpCalls.ReachesIssuerIff | crates/plugin-wasm/src/vm.rs:459 | a response reaches the context that made the call exactly when no request started in between or that context is the one being driven; otherwise the latter gets it |
| HttpCalls.StaleResultIff | crates/plugin-wasm/src/vm.rs:448-459 | the result of an earlier request is handed to the request being driven exactly when that one has something pending itself |
| HttpCalls.QuietRequestHearsNothing | crates/plugin-wasm/src/vm.rs:452-454 | a request that makes no call receives no result, whatever is in flight from before |
| HttpCalls.LateResultReachesNextRequest | crates/plugin-wasm/src/vm.rs:203-207 | from every state, a call still in flight when a request starts is answered on that request if the request makes a call and the old result arrives first |
| HttpCalls.EveryRunKeeps | crates/plugin-wasm/src/host_state.rs:215-219 | tokens run through the non-zero u32 values, and every call made has exactly one of task, queued result, delivery, drained result, in every run |
| HookTrace.HooksAreDetermined | crates/plugin-wasm/src/vm.rs:202-434 | the exports and the ending determine the hooks and their order, whatever the guest does |
| HookTrace.HooksKeepToTheScript | crates/plugin-wasm/src/vm.rs:202-434 | the hooks of a request are exactly the script of its exports and its ending, written out hook by hook; of one that stopped, a beginning of it |
| HookTrace.HooksAtBody | crates/plugin-wasm/src/vm.rs:271-290 | a request that stopped where a body was to be read had run exactly the hooks before it |
| HookTrace.WhoMayPause | crates/plugin-wasm/src/vm.rs:244-407 | every hook from the request's headers to the response's body may pause, and a local response is looked for after each but the last |
| WasmVm.Vm.Process | crates/plugin-wasm/src/vm.rs:202-434 | for every guest, a request that ends well has a complete trace and leaves the contexts as they were without its own, which was fresh until ids wrap around, calls the inner service exactly if no local response was found before, and a local answer is the one last taken from its context; the response hooks in the trace are the results taken for it, in order; a failed one stops in that order and leaves its context behind exactly if its create hook had returned, as it has after a too large body or a caller that gave up; the invariant on calls is kept; they follow only hooks that returned Pause; the hooks are those of the script, or a beginning of it if the request fails; a request fails on a body only before a body hook the guest exports, when that body does not fit, and no hook is handed one that does not |
| WasmVm.Vm.Begin | crates/plugin-wasm/src/vm.rs:203-210 | queued results are drained, pending calls forgotten, and the id taken is fresh until ids wrap around |
| WasmVm.Vm.Open | crates/plugin-wasm/src/vm.rs:228-242 | nothing the create hook tried to set on a new context is there when the context is entered into the map; if the hook fails the map keeps its keys |
| WasmVm.Vm.Stage | crates/plugin-wasm/src/vm.rs:244-266 | one hook with its pause: without one nothing follows it and no result is taken; a pause is passed only with a local response or nothing pending, a local response is taken where one is looked for, and its response hooks are the results taken |
| WasmVm.Vm.CollectBody | crates/plugin-wasm/src/vm.rs:557-572 | without a limit every body is taken; with one, exactly those that can be read to the end and fit, unless the caller gives up |
| WasmVm.Vm.AfterHook | crates/plugin-wasm/src/vm.rs:256-260 | without a pause nothing happens; a pause is driven, in the request headers only with something pending |
| WasmVm.Vm.TakeLocal | crates/plugin-wasm/src/vm.rs:262-266 | the local response taken is the last one the guest sent for this context, and it leaves the context |
| WasmVm.Vm.Insert | crates/plugin-wasm/src/vm.rs:232-242 | the map changes at this id only: a new context, or the one left under the id with its continue flag cleared |
| WasmVm.Vm.RequestHooks | crates/plugin-wasm/src/vm.rs:244-323 | request hooks in order up to the first local response |
| WasmVm.Vm.ResponseHooks | crates/plugin-wasm/src/vm.rs:348-426 | response hooks in order; only the headers hook can answer locally |
| WasmVm.Vm.Drive | crates/plugin-wasm/src/vm.rs:438-483 | it ends only with a local response, nothing pending, a failing guest or a caller that gave up, never for a missing context; with a local response or nothing pending from the start it returns at once and changes nothing; it fires one response per result taken |
| WasmVm.Vm.AwaitResult | crates/plugin-wasm/src/vm.rs:456-458 | while something is pending the receive returns |
| WasmVm.Vm.TakeResult | crates/plugin-wasm/src/vm.rs:459-474 | the result goes to the pending call's context, or to the driven one if the call is no longer pending |
| WasmVm.Vm.Respond | crates/plugin-wasm/src/vm.rs:456-482 | one response hook for the oldest result, or none if the call cannot be prepared, although the result is taken |
| WasmVm.Vm.Finish | crates/plugin-wasm/src/vm.rs:485-519 | the closing hooks that are exported run once each in order, traps in them are ignored, and then the context is gone |
| WasmVm.Vm.HttpCall | crates/plugin-wasm/src/host_fn.rs:645-750 | a token, a pending entry for the effective context and a task, or a refusal at the limit; if the token cannot be written back the guest is told of an error although the call is made |
| WasmVm.Vm.SetEffectiveContext | crates/plugin-wasm/src/host_fn.rs:112-122 | only a known context or the root becomes effective |
| WasmVm.Vm.ProxyDone | crates/plugin-wasm/src/host_fn.rs:124-141 | Ok exactly when the host awaits it, and once per await |
| WasmVm.Vm.ContinueStream | crates/plugin-wasm/src/host_fn.rs:149-170 | sets the flag of the effective context only, for request and response streams |
| WasmVm.Vm.SendLocalResponse | crates/plugin-wasm/src/host_fn.rs:559-571 | the effective context, if known, holds the last response sent; the guest is told Ok either way |
| WasmVm.Vm.Guest | crates/plugin-wasm/src/host_fn.rs:111-185 | no guest can add or remove contexts, take an id, or fire a response |
| WasmVm.Vm.Tick | crates/plugin-wasm/src/vm.rs:533-541 | a tick keeps the invariant and the set of contexts |
| WasmVm.Boot | crates/plugin-wasm/src/vm.rs:110-188 | a new VM has the root context only, whatever _initialize or _start did before the context existed |
| WasmVm.ProcessWithVm | crates/plugin-wasm/src/shell.rs:193-236 | after a guest failure the VM is replaced if a new one can be made; a request leaves its context behind if and only if its body was too large, its caller gave up, or the guest failed after the create hook and no new VM could be made |
| PairCodec.EncodePairs | crates/plugin-wasm/src/abi.rs:314-337 | the loops write count, sizes and NUL-terminated keys and values |
| PairCodec.Le32Reads | crates/plugin-wasm/src/abi.rs:314-337 | four bytes, the first counting least, that read back as the number |
| PairCodec.DecodePairs | crates/plugin-wasm/src/abi.rs:339-382 | arbitrary bytes are never sliced out of range and give exactly the declared pairs or are rejected |
| PairCodec.RoundTrip | crates/plugin-wasm/src/abi.rs:314-382 | decoding an encoding gives the list back for all counts and sizes below 2^32 |
| PairCodec.ReencodesIffCanonical | crates/plugin-wasm/src/abi.rs:314-382 | for every buffer the decoder accepts, encoding what was decoded gives it back exactly when it is laid out in full, ends with its last pair and all terminators are NUL |
| PropertyPath.CanonicalizePath | crates/plugin-wasm/src/host_fn.rs:1051-1060 | the loop joins segments with NUL |
| PropertyPath.CanonicalForm | crates/plugin-wasm/src/abi.rs:384-393 | canonicalizing a decoded path only drops an optional final NUL |
| PropertyPath.SamePropertyIff | crates/plugin-wasm/src/abi.rs:384-393 | two byte strings name the same property exactly when they differ at most in one final NUL |
| PropertyPath.SegmentsSurviveIff | crates/plugin-wasm/src/host_fn.rs:1051-1060 | segments survive being written and read exactly when there are none or the last is not empty |
| SharedData.Store.Set | crates/plugin-wasm/src/shared.rs:52-63 | accepted exactly when the tag is 0 or current; the whole new store |
| SharedData.TagsCount | crates/plugin-wasm/src/shared.rs:52-63 | over any run tags count accepted writes on a cycle without 0 |
| SharedData.CasIff | crates/plugin-wasm/src/shared.rs:52-63 | a write with a tag read earlier is accepted if and only if the writes accepted in between are a multiple of 2^32 - 1 |
| SharedData.CasExcludesOthers | crates/plugin-wasm/src/shared.rs:52-63 | with fewer than that, success means nobody else wrote and the value is the one read |
| SharedData.ReadAfterRun | crates/plugin-wasm/src/shared.rs:40-63 | after any run a key holds the last accepted value, or the empty value under tag 0 if all its writes were rejected; tags are 0 only then |
| PathRewrite.ReplacePrefix | crates/plugin/src/model.rs:41-80 | it succeeds exactly when the path's non-empty segments start with the prefix's, ASCII case ignored, and the result's segments are the value's followed by the rest; when nothing remains it is a slash and the value without leading slashes |
| PathRewrite.Rebuild | crates/plugin/src/model.rs:60-76 | the value, the remaining segments and the final slash; two slashes in a row only if the trimmed value has them |
| PathRewrite.ReplaceThereAndBack | crates/plugin/src/model.rs:41-80 | replacing and replacing back restores the segments up to ASCII case, the rest exactly |

## Left out

- Redis, HTTP, S3, wasmtime and tokio: each call is one atomic step with the outcomes done, lost, or applied with the reply lost.
- Stream trimming: `stream_max_len` is taken as 0, so no entry is dropped by the server.
- Idle times and batch sizes of XREADGROUP and XAUTOCLAIM: any unread entry may be read and any pending one claimed at any time.
- The loops around process_stream_entry and process_callback_retry_entry (batches, sleeping, metrics): every delivered entry is a task of its own.
- enqueue_job: the append is a step; that the object of a queued body already exists is not claimed, since the upload runs beside it.
- Job ids are taken as unique; two jobs whose ids sanitize to the same Redis key are one job id here.
- The contents of results, headers, callbacks and responses; base64 of inline bodies; parsing of stored limits, which is a parameter.
- JobWorker.Service.ProcessStreamEntry: a crash of the task itself is a step of the machine, not of the method.
- TokenBucket.Script.Eval: Lua's doubles are integers here. Sums, products and the hint are exact below 2^53; the TTL, `(burst_milli / rate) * 10` in the script, rounds twice there and may differ slightly from the exact ceiling.
- TokenBucket.AdmissionBound: one rate and burst per bucket; checks of one tenant under several rules are covered by `TokenBucket.SeveralRulesBound`, and not bounded where a TTL does not cover the next refill.
- WasmVm.Vm.Process: headers, pseudo headers and the contents of bodies are not modelled, only which hooks run, on which context, which flags steer the host, and the size of each body as it arrives.
- WasmVm.Vm.Drive: the wait may go on as long as the guest keeps calling; the caller may give up at every await.
- Reading the arguments of proxy_http_call from guest memory, which may refuse a call before it is made; that the token cannot be written back is a parameter.
- Shared queues, metrics, gRPC calls, header-map host calls and WASI stubs: many members with one-branch claims.
- The other path modifiers (full path, regular expression).
- Wait mode: a result published between the check and the registration of a waiter is missed, so no wake-up law holds.
- Gateway routing, admin version control, configuration, plugin loading, TLS and listeners.
