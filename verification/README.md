# A verified model of the sandbox job service

The service runs untrusted programs as jobs. An API puts each job on a Redis stream; any number of
workers read, run, store, acknowledge, reclaim and dead-letter the entries. Two Redis scripts guard
admission, a circuit breaker guards Redis, and the executor captures a program's output and stops it
when it must. This project models those parts in Dafny and proves what they promise, for every
input, every interleaving and every reachable state.

`dafny verify dfyconfig.toml` checks the whole project.

## The parts

| files | what they hold |
|---|---|
| `RedisModel`, `JobProtocol` | the shared Redis state, one function per command, and the job protocol as a transition system: one step per `await`, with crashes, exceptions, cancellations and DELETE handlers anywhere in between |
| `WorkerProcess` | `_process` and its helpers as the program they are, with its own variables and Redis commands, among arbitrary other activity and failures; each command is proved to be the protocol step it stands for |
| `JobSafety`, `LeaseSafety`, `BoundedRetries`, `RecordLifecycle`, `CancelSafety` | what every run keeps |
| `Scenarios` | concrete runs that show which promises fail and that the timing bounds are tight |
| `ConsumeLoop` | the worker's pool: consume loop, dispatch, semaphore and done-callbacks |
| `SortedSet`, `RateLimiter`, `ConcurrencyQuota` | the two admission scripts against counting the full history |
| `CircuitBreaker` | the breaker under overlapping calls |
| `Utf8`, `OutputCaptures`, `OutputPumps` | incremental decoding, the byte-capped capture, live output |
| `KillLadder` | timeouts, the termination ladder and the outcome labels |
| `Seccomp`, `Filenames` | the two profile shapes and the two filename rules |

A job protocol run (`JobProtocol.IsRun`) starts from an empty Redis and takes any steps in any order:
there is no bound on workers, tasks, jobs, passes or steps, and time passes by arbitrary amounts. A
task may be abandoned at every `await`, which covers crashes, cancellations and the exceptions the
code does not catch; inside the `try` of `_process` every `await` may also raise, including the ones
after XACK (a lost reply). `WorkerProcess.Cluster.Process` is the program text. It builds its results
and records itself and issues the Redis commands itself; at each command it has to be shown that the
protocol step with that name is possible at this point and leaves the same Redis.

## Where the code does less than its comments say

* "A job in one of these will never transition again" (api/src/types/index.ts:43) does not hold.
  `RecordLifecycle.TerminalRewrite` and `RecordLifecycle.TerminalStays` say exactly when a terminal
  record changes: in three ways, of which `Scenarios.RaiseAfterAckRewrites` (COMPLETED to FAILED after
  the acknowledgement), `Scenarios.RedeliveryRewrites` (COMPLETED to RUNNING) and
  `Scenarios.StaleDeleteRewrites` (COMPLETED to KILLED) are runs. `RecordLifecycle.QuiescentAfterAck`
  gives conditions on one entry of a run, whatever happens to the others, under which its job is
  settled for good once it is acknowledged.
* `ack` is two commands. `Scenarios.CrashAfterAckLeaks` leaks an entry between them, and
  `JobSafety.LeakIsPermanent` shows that nothing ever removes it, so "the stream equals not yet
  finished work" (worker/queue/consumer.py:113-116) holds only up to such entries.
* The delivery count a worker acts on is the one XPENDING listed before the XCLAIM. It is the true
  one as long as a pass stays within the idle time (`BoundedRetries.TrueDeliveryCount`), and not
  beyond (`Scenarios.GapIsTight`).
* "The next call after cooldown is a half-open probe" (api/src/services/redis.ts:75-76): an open
  breaker lets through every call that starts after the cooldown until one completes
  (`CircuitBreakers.OpenAdmitsLate`), so there is a single probe exactly when at most one such call
  starts (`CircuitBreakers.SingleProbe`); `CircuitBreakers.TwoProbes` is a trace with two. The trace
  law needs a threshold of at least one (`CircuitBreakers.LawNeedsThreshold`).
* `clamp_timeout` promises a value of at least 1; that holds exactly for positive configured timeouts
  (`KillLadder.ClampRange`).
* The remaining count of the rate limiter is exact for windows of positive length; a window of zero
  length admits everything (`RateLimiter.EmptyWindowAdmitsAll`). The retry time is exact for positive
  limits; without one it is announced and never comes (`RateLimiter.RetryNeverComes`).
* On one and the same raw string the two filename rules differ in two ways: a trailing separator is
  dropped by the API's rule and refused by the worker's (`Filenames.ApiThenWorker`,
  `Filenames.TrailingSeparatorExample`), and letters outside ASCII are the other way round
  (`Filenames.WorkerThenApi`). In the service the worker sees what the API's rule returned
  (api/src/middleware/validator.ts:112), and accepts that unchanged (`Filenames.SanitizedIsFixed`).

## Model

| member | source | states |
|---|---|---|
| JobSafety.InvKept | worker/worker.py:127-170 | every step of every participant keeps the system invariant: stream, cursor and pending list fit together, whatever left the pending list has a stored result, every task's position is backed by what Redis holds |
| JobSafety.NoJobLost | worker/worker.py:127-170 | in every state of every run each job the API enqueued is undelivered, or pending, or has a terminal result stored under its id |
| JobSafety.StreamAccounting | worker/queue/consumer.py:110-119 | the stream is the disjoint union of undelivered, pending and half-acknowledged entries, its length is the sum of the three, and each half-acknowledged entry still has a task on its way to the XDEL unless that task was lost |
| JobSafety.QuietStreamLength | worker/queue/consumer.py:143-148 | XLEN is exactly undelivered plus pending if and only if no entry of the stream has been acknowledged and not yet deleted |
| JobSafety.LeakIsPermanent | worker/queue/consumer.py:118-119 | an entry acknowledged but not deleted whose task is gone stays in the stream in every later state, and the length exceeds undelivered plus pending from then on |
| LeaseSafety.ExclusiveKept | worker/queue/consumer.py:93-108 | while no processing of a pending entry is as old as the idle time, every step keeps "no two live processings of one entry" |
| LeaseSafety.NoDuplicateProcessing | worker/queue/consumer.py:93-108 | over every run in which each processing reaches its XACK or ends within claim_min_idle_ms, no state has two live processings of the same entry, however many workers claim at once |
| BoundedRetries.OrdinalCounts | worker/queue/consumer.py:96-107 | in every run each task stems from one XREADGROUP or XCLAIM step, and its ordinal is one plus the number of earlier steps of the run that delivered its entry |
| BoundedRetries.TrueDeliveryCount | worker/queue/consumer.py:100-107 | if each claim pass goes from XPENDING to XCLAIM within the idle time, the count a worker is told is 1 on the first delivery and afterwards the number of earlier deliveries counted over the run, and a task told more than max_retries never runs its job |
| BoundedRetries.BoundedExecutions | worker/worker.py:131-141 | under the same condition an entry is executed at most max_retries + 1 times in any run, and never when max_retries is below 1 |
| BoundedRetries.LateDeliveryParked | worker/queue/consumer.py:121-133 | a delivery past the limit has its payload in the dead-letter stream before it can acknowledge |
| RecordLifecycle.FirstIsPending | api/src/services/jobQueue.ts:100-123 | enqueuing creates the job's first record, PENDING, in the same step as exactly one new undelivered entry that carries its id |
| RecordLifecycle.PendingOnlyFirst | api/src/services/jobQueue.ts:104-113 | in every run, a job whose record has left PENDING never shows PENDING again |
| RecordLifecycle.RecordLifetime | worker/storage/result_store.py:68-76 | while a record does not expire, its expiry stays two hours after the submission, whatever is written to it |
| RecordLifecycle.DeleteAccepted | api/src/routes/jobs.ts:76-91 | a DELETE goes on to its transaction if and only if it reads a record that is PENDING or RUNNING |
| RecordLifecycle.DeleteMarksKilled | api/src/routes/jobs.ts:93-105 | the transaction writes KILLED over the record read, raises the flag for 120 s and touches neither stream, pending list nor results |
| RecordLifecycle.TerminalRewrite | worker/storage/result_store.py:68-76 | a step changes a live terminal record exactly when it is a second delivery marking it RUNNING, a finalisation writing another result, or a DELETE committing an older snapshot |
| RecordLifecycle.TerminalStays | worker/storage/result_store.py:68-106 | over any stretch of a run in which it does not expire, a terminal record stays the same if and only if none of those three steps happens to it |
| RecordLifecycle.QuiescentAfterAck | worker/worker.py:160-170 | if the entry is never processed twice at once, no exception reaches its task after the XACK and no DELETE of its job commits after its record was finalised, then from the acknowledgement on its result is terminal, its unexpired record agrees with it, and neither key changes, whatever happens to other entries and with DELETEs of the running job allowed |
| CancelSafety.FlagLives | api/src/routes/jobs.ts:101-105 | from the DELETE transaction on, the cancel flag is readable for 120 s in every continuation |
| CancelSafety.FlagExact | worker/storage/result_store.py:64-66 | in every run a job counts as cancelled if and only if a DELETE of it committed at most 120 s ago |
| CancelSafety.CancelBeforePickup | worker/worker.py:154-158 | a delivery whose cancel check comes after a DELETE of its job and within the flag's life stays on the cancelled branch as long as it lives: it never runs the job, and KILLED has been stored before it can acknowledge |
| Scenarios.CrashAfterAckLeaks | worker/queue/consumer.py:118-119 | for every configuration that runs jobs there is a run that leaks an entry between XACK and XDEL |
| Scenarios.RaiseAfterAckRewrites | worker/worker.py:160-170 | there is a run in which an acknowledged job, settled as COMPLETED, later has FAILED as its result and in its record |
| Scenarios.RedeliveryRewrites | worker/storage/result_store.py:91-93 | there is a run in which a second delivery writes RUNNING over a COMPLETED record |
| Scenarios.StaleDeleteRewrites | api/src/routes/jobs.ts:76-105 | there is a run in which a DELETE that read RUNNING writes KILLED over a COMPLETED record |
| Scenarios.LeaseIsTight | worker/queue/consumer.py:93-108 | a processing that lasts exactly the idle time can be duplicated, so the lease bound cannot be relaxed |
| Scenarios.GapIsTight | worker/queue/consumer.py:96-107 | there is a run whose gaps between XPENDING and XCLAIM are at most the idle time, not less, in which a third delivery is told that there has been one |
| WorkerProcess.Cluster.Others | worker/worker.py:127-170 | whatever the rest of the system does while a task waits is a continuation of the run and leaves that task where it stood |
| WorkerProcess.Cluster.Log | worker/worker.py:127-170 | a command of the program extends the run by the protocol step that leaves the same Redis, and the notes on each task stay a function of the run |
| WorkerProcess.Cluster.Pause | worker/worker.py:127-170 | one await: the others act and leave the task and its notes as they were; the command then takes effect or not, and the await ends with a reply or is recorded as broken, with where the task stood: by an exception, a reply lost after the effect, Docker unavailable (executor only), or never |
| WorkerProcess.Cluster.PutResult | worker/storage/result_store.py:99-103 | when it completes, the result key holds the given result and expires in an hour, and the run shows it as the last one this task stored |
| WorkerProcess.Cluster.PatchTerminal | worker/storage/result_store.py:68-76 | when it completes, the record, if there is one, has the status and the result, whatever others wrote since it was read |
| WorkerProcess.Cluster.StoreTerminal | worker/storage/result_store.py:95-106 | when it completes, this result is the last one the task stored, the job still has a result, and the record, if there is one, agrees with it; an exception leaves the task finalising for the same cause, and nothing is acknowledged |
| WorkerProcess.Cluster.SetRunningRecord | worker/storage/result_store.py:91-93 | when it completes, the record, if there is one, says RUNNING |
| WorkerProcess.Cluster.IsCancelled | worker/storage/result_store.py:64-66 | the answer is the state of the flag at that moment, and decides the branch |
| WorkerProcess.Cluster.ReleaseSlot | worker/storage/result_store.py:78-89 | asks for the release of the user's slot and swallows every exception |
| WorkerProcess.Cluster.Finalize | worker/worker.py:222-247 | store then publish, without ever acknowledging: the given result is the last one stored and has been announced, and the task goes on to the dead-letter stream or the acknowledgement, as its cause demands |
| WorkerProcess.Cluster.AckEntry | worker/queue/consumer.py:110-119 | when it completes, the entry is off the pending list and out of the stream |
| WorkerProcess.Cluster.DeadLetter | worker/queue/consumer.py:121-133 | when it completes, the payload is in the dead-letter stream and the entry is off the pending list and out of the stream |
| WorkerProcess.Cluster.RunJob | worker/worker.py:172-194 | completes with the executor's outcome stored last and announced and nothing acknowledged; whatever breaks it, the task stood inside the try |
| WorkerProcess.Cluster.HandleError | worker/worker.py:167-170 | an exception stores FAILED with the detail its kind calls for, over whatever was stored, and acknowledges |
| WorkerProcess.Cluster.TryJob | worker/worker.py:160-170 | if no await throws, it completes with the executor's outcome as the result; if one throws, it completes with FAILED and that exception's detail, unless an await of the handler breaks too; with Docker unavailable nothing has been acknowledged |
| WorkerProcess.Cluster.GiveUp | worker/worker.py:131-152 | completes with the entry gone, its payload dead-lettered and, if it has a job id, the failure stored |
| WorkerProcess.Cluster.Process | worker/worker.py:127-170 | under every schedule of interference, exceptions, lost replies and crashes the execution is a run of the protocol. A normal return leaves the entry off the pending list and the stream, the slot's release asked for, a poison or malformed payload dead-lettered, and as the last result stored and announced: the retry failure, the malformed failure, KILLED if the cancel check found the flag, the executor's outcome if no await of the try threw, else FAILED with that exception's detail. It ends otherwise only when an await breaks outside the try or in the handler, or Docker is unavailable, and then without having acknowledged |
| ConsumeLoop.RoundTakes | worker/worker.py:93-116 | for every state and round, what the loop starts and still holds grows by exactly what Redis returned to it: the replies of the first min(batch, listed) claims unless a call of the pass failed, then the first min(read_count, room) unread messages if there is room after the dispatches, in order |
| ConsumeLoop.RunTakes | worker/worker.py:86-116 | the same over any run of rounds |
| ConsumeLoop.PermitsSuffice | worker/worker.py:118-124 | when there are permits for all fetched messages, dispatching waits for nothing and starts them all, in order |
| ConsumeLoop.QuietRoundStarts | worker/worker.py:93-114 | a round in which every call replies and no callback runs starts exactly the claimed messages and then as many unread ones as room is left for, and leaves none waiting |
| ConsumeLoop.Pool.Suspend | worker/worker.py:118-124 | the done-callbacks that run while the loop waits only free room, one snapshot of the pool after each |
| ConsumeLoop.Pool.Dispatch | worker/worker.py:118-124 | schedules the oldest fetched message, or is still waiting for a permit, and then only on a release callback already queued |
| ConsumeLoop.Pool.ClaimStale | worker/queue/consumer.py:85-108 | the pool after one XPENDING and one XCLAIM per listed entry: the messages claimed, or none if a call failed, never more than the count asked for |
| ConsumeLoop.Pool.Iterate | worker/worker.py:93-116 | one iteration, with Redis failing at any call, ends in the state the round determines and keeps the pool bounded in every state it passes |
| ConsumeLoop.Pool.Run | worker/worker.py:86-124 | in every state of every run of the loop, tasks in flight plus fetched messages fit worker_concurrency, in flight <= held permits <= worker_concurrency and permits are conserved; what it started and still holds is exactly what Redis returned, in order; it is left suspended only on a queued release |
| RateLimiter.SlidingWindowRateLimiter.Check | api/src/middleware/rateLimiter.ts:26-46 | the in-place evict, count and admit on the sorted set is the step that the traces are made of |
| RateLimiter.LimiterRefines | api/src/middleware/rateLimiter.ts:26-46 | on every trace with a non-decreasing clock and unique members, the evicting, expiring set decides as counting all past admissions in the trailing window would, and reports what that count leaves, or 0 on a refusal |
| RateLimiter.WindowBound | api/src/middleware/rateLimiter.ts:68-87 | every half-open interval of length windowMs, wherever it starts, holds at most limit admissions |
| RateLimiter.RetryExact | api/src/middleware/rateLimiter.ts:39-45 | after a refusal every request before the announced instant is refused, however many are tried, and the first one from that instant on is admitted |
| RateLimiter.RetryNeverComes | api/src/middleware/rateLimiter.ts:69-71 | with a limit of zero or less every request is refused with the whole window as its retry time and the key is left alone |
| RateLimiter.RemainingExact | api/src/middleware/rateLimiter.ts:34-38 | a request told that r remain is followed at that instant by exactly r admissions |
| RateLimiter.EmptyWindowAdmitsAll | api/src/middleware/rateLimiter.ts:32-38 | with a window of zero length every request under a positive limit is admitted |
| ConcurrencyQuota.UserSlots.AcquireSlot | api/src/services/quota.ts:15-29 | grants exactly below the limit of live slots, and leaves the key the traces are made of |
| ConcurrencyQuota.UserSlots.ReleaseSlot | api/src/services/quota.ts:63-69 | removes one member and nothing else |
| ConcurrencyQuota.SlotConservation | api/src/services/quota.ts:15-29 | on every trace of acquires and releases the slots in Redis are exactly the job ids granted, unreleased and unexpired, and never more than the limit |
| ConcurrencyQuota.GrantExact | api/src/services/quota.ts:21-28 | a slot is granted if and only if the user has fewer granted, unreleased, unexpired jobs than the limit at that moment |
| ConcurrencyQuota.ReleaseIsLocal | worker/storage/result_store.py:78-89 | a release, repeated or late, takes away its own job's slot at every later instant and no other, and doing it twice is doing it once |
| CircuitBreakers.CircuitBreaker.Begin | api/src/services/redis.ts:91-98 | a start admits or refuses as the trace's state says |
| CircuitBreakers.CircuitBreaker.OnSuccess | api/src/services/redis.ts:109-112 | a success is the trace's success event |
| CircuitBreakers.CircuitBreaker.OnFailure | api/src/services/redis.ts:114-121 | a failure is the trace's failure event |
| CircuitBreakers.BreakerFollowsTrace | api/src/services/redis.ts:91-121 | under any overlap of calls the breaker is non-closed if and only if the completions end in at least threshold failures in a row |
| CircuitBreakers.LawNeedsThreshold | api/src/services/redis.ts:83-88 | that law holds on all traces if and only if the threshold is at least 1 |
| CircuitBreakers.OpenedAtLastFailure | api/src/services/redis.ts:114-121 | a breaker that is not closed was opened at the time of the last failure of the trace, and is half-open if and only if a call has started a cooldown or more after it |
| CircuitBreakers.AdmissionLaw | api/src/services/redis.ts:91-98 | a call is let through if and only if the completions do not end in threshold failures, or some call since the last failure, this one included, starts at least a cooldown after it |
| CircuitBreakers.OpenAdmitsLate | api/src/services/redis.ts:91-98 | of calls that start one after another with none completing, an open breaker admits exactly those that start after its cooldown |
| CircuitBreakers.SingleProbe | api/src/services/redis.ts:75-98 | at most one of them is admitted if and only if at most the last one starts after the cooldown |
| CircuitBreakers.TwoProbes | api/src/services/redis.ts:91-98 | for every threshold of at least one there is a trace from the fresh breaker in which two calls are let through after one trip |
| CircuitBreakers.InvocationBound | api/src/services/redis.ts:91-121 | of non-overlapping calls that all fail, at most threshold + floor(T / cooldownMs) reach Redis by time T after the first trip |
| Utf8.RoundTrip | worker/sandbox/executor.py:94-97 | decoding an encoded text gives the text back, with nothing kept over |
| Utf8.Rfc3629Example | worker/sandbox/executor.py:94-97 | the encodings given as examples in section 7 of RFC 3629 |
| Utf8.DecodeReads | worker/sandbox/executor.py:392-395 | any bytes fall into parts, one per decoded character: the character's encoding, or a maximal ill-formed stretch or unfinished tail read as U+FFFD |
| Utf8.OnlyDecodeReads | worker/sandbox/executor.py:392-395 | no other text reads the bytes that way: the reading determines the decoding of every byte string |
| Utf8.ScanCanonical | worker/sandbox/executor.py:392-395 | only the canonical encoding of a character is read as that character |
| Utf8.PartialExact | worker/sandbox/executor.py:392-395 | bytes are kept over if and only if they are a proper beginning of some character's encoding |
| Utf8.BrokenIsMaximal | worker/sandbox/executor.py:392-395 | an ill-formed subpart that is replaced is one byte or the beginning of some character, and with its next byte begins no character |
| Utf8.IncrementalDecoder.DecodeChunk | worker/sandbox/executor.py:392-395 | the decoder's loop computes the decoding of what was kept over followed by the chunk, and keeps over exactly the undecided tail |
| OutputCaptures.OutputCapture.AppendText | worker/sandbox/executor.py:89-103 | the new state of the shared capture and the text kept |
| OutputCaptures.CutIsFit | worker/sandbox/executor.py:96-97 | cutting the encoded bytes and ignoring the broken tail is cutting at the last whole character that fits |
| OutputCaptures.FitIsLongest | worker/sandbox/executor.py:96-97 | a prefix fits the room if and only if it is no longer than the one kept |
| OutputCaptures.FitAllIsLongest | worker/sandbox/executor.py:89-103 | the same for output of both streams mixed |
| OutputCaptures.CaptureExact | worker/sandbox/executor.py:79-111 | for any interleaving of non-empty texts, each stream holds its projection of the longest whole-character prefix, in arrival order, of at most max_bytes bytes, and truncated holds if and only if more was offered |
| OutputPumps.OutputPump.OnRead | worker/sandbox/executor.py:393-401 | one read of a pump: decoder, shared capture and published chunks after it |
| OutputPumps.RunPumps | worker/sandbox/executor.py:380-401 | two pumps over one capture, their reads in any order, end in the state the reads determine |
| OutputPumps.LiveAgreesWithResult | worker/sandbox/executor.py:396-401 | under every interleaving the published chunks of a stream concatenate to exactly the text the result holds for it |
| OutputPumps.LiveIsText | worker/sandbox/executor.py:398-399 | no empty chunk is published |
| OutputPumps.PumpsExact | worker/sandbox/executor.py:380-401 | the capture holds exactly what the pumps decoded, cut at the cap |
| OutputPumps.OfferedIsText | worker/sandbox/executor.py:390-401 | what each stream contributes depends on its bytes alone, not on the chunks or the other stream |
| OutputPumps.ChunkingIndependence | worker/sandbox/executor.py:380-401 | for one stream, captured text and truncated flag are functions of its bytes: the longest fitting prefix of their decoding, and whether that decoding exceeds the cap |
| OutputPumps.TruncationIndependence | worker/sandbox/executor.py:89-103 | with both streams at their end, truncation depends on their total size only, and if nothing was cut both texts are complete |
| KillLadder.ClampRange | worker/sandbox/resource_limits.py:40-45 | the clamped timeout lies in the documented range for every request if and only if the configured timeout is positive |
| KillLadder.ClampGreatest | worker/sandbox/resource_limits.py:40-45 | for positive configurations the clamped timeout is the greatest that the configuration, the maximum of 60 s and a positive request allow |
| KillLadder.ClampHonours | worker/sandbox/resource_limits.py:40-45 | a request inside the range is honoured as it is; an absent, non-positive or larger one gets the ceiling |
| KillLadder.Terminate | worker/sandbox/executor.py:349-365 | the ladder takes exactly as long as the process does to end, at most the grace period plus 5 s, sends SIGKILL exactly when SIGTERM did not end the process in time, and removes by force and kills the client exactly when SIGKILL did not either |
| KillLadder.AwaitCompletion | worker/sandbox/executor.py:320-347 | which of exit, cancellation and timeout labels the outcome, that only a completed run received no command, and how long the timed waits are |
| KillLadder.Execute | worker/sandbox/executor.py:403-436 | timed waits at most clamp_timeout + grace + 5 s; TIMEOUT exactly when neither exit nor cancellation came in time, KILLED exactly when the cancellation came first, FAILED exactly for an exit code 137 of a container the worker sent nothing, which is oom_killed; timed_out exactly for TIMEOUT |
| KillLadder.DefaultsFitLease | worker/config.py:89-91 | for every configured language and request the waits are at most 32 s with the default grace, below the 60 s lease |
| Seccomp.MaskIsFlags | worker/sandbox/seccomp.py:33-45 | for every 64-bit argument the namespace mask is clear if and only if none of the seven flags is set |
| Seccomp.NetworkGate | worker/sandbox/seccomp.py:412-455 | under every default-deny profile a network call passes if and only if the network is enabled, and otherwise gets EPERM |
| Seccomp.AllowedSyscalls | worker/sandbox/seccomp.py:441-455 | exactly the listed names for the language and network flag that are not dangerous |
| Seccomp.BuildAllowlistProfile | worker/sandbox/seccomp.py:458-484 | for every call the default-deny profile has one answer, whatever order rules are tried in: the meant one |
| Seccomp.BuildBlocklistProfile | worker/sandbox/seccomp.py:487-514 | the loop appends one deny rule per namespace flag after the two fixed rules |
| Seccomp.BlocklistAnswers | worker/sandbox/seccomp.py:487-514 | the default-allow profile has one answer for every call: EPERM for dangerous names and namespace-creating clone, ENOSYS for clone3, else allow |
| Seccomp.BuildProfile | worker/sandbox/seccomp.py:517-526 | for every language, network flag and call the profile has exactly one answer, the one its rule-free meaning gives |
| Seccomp.ProfileEquivalence | worker/sandbox/seccomp.py:441-526 | any two built profiles agree on clone, clone3 and dangerous calls: clone is allowed if and only if no namespace flag is set, clone3 gets ENOSYS, dangerous names get EPERM |
| Filenames.SanitizeExact | api/src/middleware/validator.ts:50-60 | the API returns b if and only if the name has no NUL and b is its final path segment and a plain, confined name |
| Filenames.WorkerConfined | worker/sandbox/executor.py:551-562 | whatever the worker returns has no separator or NUL, is not a dot name and fits 255 characters, also for names the API never saw |
| Filenames.ApiThenWorker | worker/sandbox/executor.py:551-562 | where the API accepts a raw name the worker's rule on the same string returns the same, unless the name ends in a separator, which it refuses |
| Filenames.TrailingSeparatorDiffers | worker/sandbox/executor.py:551-562 | for every plain name b, the API's rule turns b/ into b, the worker's refuses b/ and accepts b |
| Filenames.TrailingSeparatorExample | api/src/middleware/validator.ts:50-60 | the same at the name a/ |
| Filenames.WorkerThenApi | api/src/middleware/validator.ts:50-60 | where the worker accepts a name the API returns the same if and only if it is ASCII |
| Filenames.SanitizedIsFixed | worker/sandbox/executor.py:551-562 | what the API hands on is a fixed point of both rules |

## Assumptions

* Job ids are fresh and non-empty (ULIDs minted by the API); entries from elsewhere carry no job id.
* One clock, which does not go back, serves Redis, the API and the workers.
* Redis commands follow their documented semantics; expired keys read as missing.
* QUEUE_READ_COUNT is at least 1, as XREADGROUP requires.
* Unicode's `isalnum` agrees with the ASCII letters and digits below code point 128.
* Payloads are JSON objects, as the API writes them; whether the embedded request decodes is a flag.

## Left out

- Update in place of the stream and the keys: Redis is a value that steps replace; a client owns none of it.
- `read`'s loop over the reply in the protocol: each delivered entry is one step; `ConsumeLoop` has the reply as a whole.
- Trimming of the dead-letter stream to about 1000 entries: nothing reads it back.
- The Docker commands, subprocesses, cgroup sampling, work directory and cleanup of the executor: foreign effects; the ladder keeps their order and its timed waits.
- The last, untimed wait of the ladder after the local client was killed: assumed to return.
- MinIO archiving: best effort and never read back.
- Publishing to subscribers, other than that the final result has been announced: a step of the protocol that changes no modelled state; its failures are modelled.
- The effect of `release_slot` in the protocol: `WorkerProcess` records that it was asked for; the key it touches is the quota's, which `ConcurrencyQuota` models.
- The cancel watcher during execution: the executor's result is arbitrary, so KILLED is among its outcomes.
- Fail-open answers of the rate limiter and the quota on Redis errors: they void the bounds by design.
- The combination of the user and address verdicts in `evaluateRateLimit`: a minimum, a maximum and a disjunction.
- The environment variable filter of the API: a single easy loop.
- The architecture list and the JSON form of a seccomp profile, and the order of names inside a rule: they do not affect an answer.
- Draining at shutdown, the container reaper, WebSockets, authentication, metrics, configuration parsing.
