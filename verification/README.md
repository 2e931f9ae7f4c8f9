# Capital intelligence: verified model of the governed protocols

The repository runs a portfolio adviser behind a web interface.  Behind the pages are real
protocols: a fenced attempt register, a paper-execution gate chain over an approval log, a
lease and a status file, a single request slot shared by a primer and a runner, a
single-flight cache, a bounded memory reclaim loop, and a pipeline that selects and audits
one decision's records.  This project models them in Dafny and proves what each is for,
over all inputs, all runs and, where processes share files, all interleavings.

`dafny verify dfyconfig.toml` checks the whole project.

| file | subject |
|---|---|
| `AttemptRegister.dfy` | the latest-attempt file: begin, compare-and-replace finish, the wrapped preparer, every interleaving |
| `ReuseInvalidation.dfy` | invalidating the published context without losing it |
| `PaperLease.dfy` | the durable lease table and the thread that maintains a lease |
| `PaperApproval.dfy` | the append-only approval log, automatic authorization, the consent check |
| `PaperExecution.dfy` | one execution attempt as a gate chain; all sequences of whole attempts |
| `PaperInterleaving.dfy` | the same attempt in its atomic steps, arbitrarily interleaved, with crashes |
| `PaperRefinement.dfy` | undisturbed, the interleaved steps are the one-step attempt |
| `DiagnosticCoordination.dfy` | the request slot, the owner lease, primer, runner and guarded section |
| `DiagnosticInterleaving.dfy` | primers and runners of any releases interleaved, processes dying at any moment |
| `DiagnosticProgress.dfy` | the same with progress records read and written in two steps |
| `BenchmarkCache.dfy` | readers that never wait and one background refresher |
| `MemoryReclaim.dfy` | the reclaim loop and the fail-closed guard |
| `CioAudit.dfy` | select, build, enrich and refine one decision's export |
| `Redaction.dfy` | redaction of an exported tree |
| `TopicSelection.dfy` | the two-pass diversity selection |
| `ReportHistory.dfy` | pending-transaction reports and their content-addressed history |
| `Drawdown.dfy` | the running-peak drawdown |

Classes carry the state the program keeps in files, tables and module variables; each method
is tied to a function of the old state, and the lemmas are about those functions.  Sections
under a file lock or a mutex, and single database transactions, are single steps.  So are, as
assumptions listed under "Left out", a few sections the program does not protect.  Clocks,
fresh identifiers, configuration, the liveness of processes and the behaviour of called
programs are parameters, so the theorems hold for every environment.

## What turned out not to hold

The code was kept as it is; each of these has its exact condition, and most a concrete run or
input that shows the failure.

* A pair is not executed at most once in every interleaving: a lost lease does not stop the
  executor (`TakeoverExecutesTwice`).  It is exactly when every consent check is passed while
  the pair neither was nor is being executed (`ExecutedAtMostOnceIff`), and so when no lease runs
  out under a worker, none is interrupted before recording, and no approval comes after the
  record (`ExecutorCompletesAtMostOnce`).
* Automatic mode can override a human stop: a decline between the policy's reading of the log
  and its approval is followed by the approval (`DeclineIsOverridden`).  A stop holds in every
  continuation, and no consent check of the pair passes, exactly when no worker has already
  read the log and is about to approve (`HumanStopIsFinalIff`).
* `completed` is final for whole attempts, not under interleaving: the status is read before
  the lease is taken (`StaleReaderOverwritesCompletion`).  From a given state it is final
  exactly when no worker can still spoil it (`CompletionIsFinalIff`).
* A runner call whose lease was lost leaves no status, so the retry window cannot see it
  (`LostLeaseHidesTheCall`); a call is published exactly when the heartbeats are timely
  (`PublishedIffLeaseHeld`).
* Fences are not monotone when the attempt file is lost (`LostFileRestartsTheFence`); they count
  up exactly between losses (`FencesAndLinksReplayBegins`).  Ownership survives, because
  identifiers are fresh.
* Lease tokens restart after a release (`ReleaseRestartsTokens`); they rise exactly while no hash
  is granted again after its release (`TokensRiseIffNeverReacquired`).  The fresh owner, not the
  token, fences off the earlier grant.
* Between claiming a request and taking its lease a runner has no live owner and can lose the
  claim; its later success is rejected and its lease file stays (`ClaimCanBeLostBeforeItIsOwned`,
  `FinishAcceptedIffStillOpen`).  If the slot still holds the claim when
  the lease is taken, nobody else ever closes it; if not, it is closed for good
  (`OwnedClaimIsClosedByItsOwner`).
* A recorded verdict can be erased by a progress record read before it and written after it
  (`ProgressErasesVerdict`); it is final exactly when no process holds such a reading
  (`VerdictIsFinalIff`).
* A thread that fails to start leaves the cache refreshing for ever (`FailedStartWedges`); the
  flag means "one refresher lives" exactly while no start failed (`SingleFlight`).
* An empty last successful cycle key is filled in wrongly by a second invalidation
  (`EmptyKeyIsLost`); repeated invalidation keeps the key exactly when there was one
  (`KeyPreservedIffPresent`).
* "At or below the reclaim target" and "enough headroom" differ exactly when the limit cannot
  hold the thresholds and nothing is used (`TargetMatchesHeadroomIff`).
* A limit below 1 selects one topic, because the limit is tested after adding
  (`SelectionIsDiverseAndComplete`).
* A construction without a cycle of its own matches every cycle whose name occurs inside its
  journal's name (`JournalOfLongerNameMatches`); no construction is exported for two cycles
  exactly when no journal names two of them (`SelectionIsUnambiguousIff`).

## Model

| member | source | states |
|---|---|---|
| `AttemptRegister.Register.Begin` | production_context_state_resilience.py:184-221 | a begin replaces the file by a running record whose fence is one above the file's, or 1, linked to the record it supersedes; the whole record, field by field |
| `AttemptRegister.Register.FinishIfOwned` | production_context_state_resilience.py:224-249 | a finish takes effect exactly when the file still carries the caller's identifier and fence; otherwise the file is unchanged |
| `AttemptRegister.Register.RecordedCall` | production_context_state_resilience.py:258-349 | a wrapped call finishes exactly once when its preparer settles, and raises exactly on failure or a cycle mismatch; unless somebody began or the file was lost meanwhile, the file then tells how the call ended: failed with the error or the mismatch, else the returned state, detail and cycle, with the time; otherwise the call leaves no trace |
| `AttemptRegister.FinishEffectiveIffNotSuperseded` | production_context_state_resilience.py:224-249 | a call's own finish is effective exactly when nobody began and the file was not lost while it ran |
| `AttemptRegister.RunKeepsInvariant` | production_context_state_resilience.py:184-249 | every interleaving keeps identifiers distinct, payloads faithful to their begin, and the file equal to the last-begun worker's record |
| `AttemptRegister.FileIsLastBegunWorkers` | production_context_state_resilience.py:184-249 | in every run a readable file is exactly the last-begun worker's running or terminal record, and every record ever written keeps its begin's fence, link and cycle |
| `AttemptRegister.SupersededFinishIsInert` | production_context_state_resilience.py:224-249 | a worker that did not begin last changes nothing by finishing, in any reachable state |
| `AttemptRegister.FencesAndLinksReplayBegins` | production_context_state_resilience.py:193-220 | over every run, with losses: fences count up between two begins exactly if the file was not lost in between, and every record written for a begin links to the one before it, or to nothing exactly after a loss |
| `AttemptRegister.LostFileRestartsTheFence` | production_context_state_resilience.py:194-202 | a run in which a lost file makes two attempts share fence 1 |
| `ReuseInvalidation.SuccessState.Invalidate` | production_context_state_resilience.py:94-115 | invalidation keeps the scan and the last successful key (or takes the cycle for it), replaces the cycle by a marker naming that key, and does nothing without a file |
| `ReuseInvalidation.InvalidationKeepsScanAndBlocksReuse` | production_context_state_resilience.py:94-115 | any number of invalidations keeps the published scan and exposes no reusable cycle |
| `ReuseInvalidation.KeyPreservedIffPresent` | production_context_state_resilience.py:102-112 | repeated invalidation keeps the last successful key exactly when there was one, or when it happened once; otherwise the first call's marker takes its place |
| `ReuseInvalidation.EmptyKeyIsLost` | production_context_state_resilience.py:102-112 | two invalidations of a publication without any key leave a marker as its last successful key |
| `PaperLease.LeaseStore.Acquire` | operations/paper_execution_leases.py:55-109 | acquisition is rejected for a lease under 15 s, refused exactly while another owner's row is unexpired, and otherwise writes a row with the next token and the full duration |
| `PaperLease.LeaseStore.Renew` | operations/paper_execution_leases.py:111-149 | renewal succeeds exactly on the caller's own unexpired row and moves only its expiry |
| `PaperLease.LeaseStore.Release` | operations/paper_execution_leases.py:151-161 | release deletes exactly the caller's own row |
| `PaperLease.MaintainedLease.Maintain` | paper_execution_runtime.py:254-265 | one heartbeat renews, or gives the lease up for good |
| `PaperLease.MaintainedLease.AssertOwned` | paper_execution_runtime.py:267-274 | the assertion succeeds exactly while no heartbeat failed and the row is still the holder's |
| `PaperLease.ApplyAllKeepsRowNewest` | operations/paper_execution_leases.py:55-161 | over any operations, a hash's row names only the newest grant ever issued for it |
| `PaperLease.SupersededGrantNeverRenews` | operations/paper_execution_leases.py:111-149 | once a later grant exists an earlier one can never be renewed, whatever clocks, renewals, releases and acquisitions follow |
| `PaperLease.LeaseKeptIffTimely` | paper_execution_runtime.py:254-274 | left alone, a lease survives its heartbeats exactly when each comes within the lease duration after the one before |
| `PaperLease.TokensRiseIffNeverReacquired` | operations/paper_execution_leases.py:83-101 | over any operations, the tokens of one hash rise in the order of issue exactly if no hash is granted again after its own row was effectively released |
| `PaperLease.ReleaseRestartsTokens` | operations/paper_execution_leases.py:151-161 | after a release the token repeats, and the old grant is renewable exactly if the owner is reused |
| `PaperApproval.ApprovalStore.AppendEvent` | governance/paper_decision_approval.py:249-303 | the log only grows; the same identifier with other content is refused |
| `PaperApproval.AppendIsIdempotentById` | governance/paper_decision_approval.py:249-303 | identifiers stay distinct; appending adds a new identifier at the end, changes nothing for a taken one, and conflicts exactly when that names another event |
| `PaperApproval.ApprovalStore.AutomaticAuthorization` | paper_execution_runtime.py:378-419 | a mismatched hash, an execution, a stop or a lasting approval answers without an append; otherwise the system's own approval is appended, for exactly the configured lifetime |
| `PaperApproval.AuthorizationIsExact` | paper_execution_runtime.py:378-419 | a grant is in the log, for the exact hash, active or already executed; a stopped pair gets no new authorization |
| `PaperApproval.AuthorizationIsReused` | paper_execution_runtime.py:389-407 | asking again while an authorization lasts returns the same event and appends nothing |
| `PaperApproval.StopSurvivesOtherEvents` | governance/paper_decision_approval.py:305-333 | only an approval of the pair itself lifts a decline, revocation or execution |
| `PaperApproval.ApprovalStore.RequireApproved` | governance/paper_decision_approval.py:435-459 | the consent check answers with the latest event exactly if it is an approval of the exact hash, already given and unexpired, and else refuses |
| `PaperApproval.ApprovalStore.Conclude` | run_approved_paper_execution.py:200-226 | recording an execution appends the executor's own event for the approved pair and hash, exit 0, unless the identifier is taken by other content, exit 5 |
| `PaperApproval.Consent` | governance/paper_decision_approval.py:435-459 | a given consent is in the log, active, for the exact hash, and its pair is not stopped |
| `PaperApproval.RecordedExecutionStops` | run_approved_paper_execution.py:200-212 | the first recorded execution of a pair makes every later consent check fail, whatever is appended, until somebody approves the pair again |
| `PaperExecution.RetryWindow` | paper_execution_runtime.py:175-181 | the retry window is the configured one clamped to 5 to 3600 seconds, and 60 seconds when that cannot be read |
| `PaperExecution.PaperExecutionRuntime.AttemptPaperExecution` | paper_execution_runtime.py:422-708 | the whole attempt over mutable stores refines one atomic step: its result, the log, the status file, the lease rows and the runner call are those of that step, so the run theorems below are about this method |
| `PaperExecution.UnacceptableIsRefused` | paper_execution_runtime.py:430-540 | on the request's fields: an attempt that is disabled, lacks inputs, mixes cycles, has an invalid, future, too old or undatable construction, an incomplete identity or an unusable lane changes nothing; its answer in each case |
| `PaperExecution.UnauthorizedIsRefused` | paper_execution_runtime.py:532-584 | an acceptable attempt without an active approval of its exact hash, and which cannot issue its own, touches at most the log; its answer in each case |
| `PaperExecution.StatusAnswers` | paper_execution_runtime.py:586-620 | a completed status, or one whose retry window is not over, answers for the attempt, which changes nothing more |
| `PaperExecution.UnleasedIsRefused` | paper_execution_runtime.py:622-633 | without a lease of at least 15 s, or while another owner's is unexpired, nothing more happens; held or failed |
| `PaperExecution.ReadyAttemptRuns` | paper_execution_runtime.py:622-708 | past all gates: the runner is called unless inputs cannot be prepared, the log gets what it appended, the status by exit code is published exactly if the lease lasted, the lease row is gone in any case; the whole answer |
| `PaperExecution.RunnerIsCalledIff` | paper_execution_runtime.py:422-708 | the runner is called exactly for an acceptable, authorized request past an open status with a free lease and preparable inputs, all stated on request, log, status file and rows |
| `PaperExecution.PaperExecutionRuntime.ExecuteUnderLease` | paper_execution_runtime.py:622-708 | from acquisition to release: nothing changes when the lease is refused, the log gets the runner's events whatever happens, the status is written only after a successful assertion, and the lease is always closed |
| `PaperExecution.UncompletedAttemptIsRetriedIff` | paper_execution_runtime.py:600-660 | after a published attempt that did not complete, and while its authorization is still the pair's latest event and lasts, a further attempt, manual or automatic, calls the runner exactly when the retry window is over |
| `PaperExecution.AttemptFacts` | paper_execution_runtime.py:580-708 | an attempt never shortens the log, writes only its own hash's status, and only past a status that is not completed and whose window is over |
| `PaperExecution.CompletedIsFinal` | paper_execution_runtime.py:580-600 | over all sequences of whole attempts and decisions, a completed hash keeps its status and is never run again |
| `PaperExecution.RunnerCallsAreSpaced` | paper_execution_runtime.py:580-620 | of any two calls for one hash, the earlier published, the later is strictly later and by at least its own window, which is 5 to 3600 s, even under clocks that run backwards |
| `PaperExecution.PublishedIffLeaseHeld` | paper_execution_runtime.py:672-699 | a call publishes its status exactly when the run ends in a way that is caught and every heartbeat and the final assertion reach the store within the lease duration of the one before; otherwise the status file is unchanged |
| `PaperExecution.LostLeaseHidesTheCall` | paper_execution_runtime.py:672-686 | two identical calls at one instant, both with lost leases |
| `PaperExecution.ManualCallsNeedHumanApproval` | paper_execution_runtime.py:532-578 | in every run without automatic mode, each runner call is under an approval that somebody other than the system issued |
| `PaperExecution.AdmissionIsExact` | paper_execution_runtime.py:532-578 | every admitted attempt holds an active authorization of the exact hash, in the log |
| `PaperExecution.AdmissionAddsOwnApprovalOnly` | paper_execution_runtime.py:378-419 | before running an attempt appends nothing but the system's approval of its own pair |
| `PaperExecution.HumanStopHolds` | paper_execution_runtime.py:378-419 | after a decline, revocation or execution no attempt in any mode calls the runner for the pair or approves it, until somebody else approves |
| `PaperExecution.EveryCallIsAuthorized` | paper_execution_runtime.py:532-578 | every runner call of every run has its active authorization of the exact hash in the log |
| `PaperInterleaving.StatusWritesFollowGrants` | paper_execution_runtime.py:622-699 | in every interleaving, statuses of one hash are written in grant order, at most one per grant |
| `PaperInterleaving.WriterHoldsNewestGrant` | paper_execution_runtime.py:267-274 | whoever passes the assertion holds the newest grant of its hash |
| `PaperInterleaving.SupersededWorkerCannotWrite` | paper_execution_runtime.py:672-686 | a worker superseded by a later grant leaves status and lease untouched |
| `PaperInterleaving.AuthorizingInTwoSteps` | paper_execution_runtime.py:378-419 | undisturbed, reading the log and approving amount to the authorization of a whole attempt |
| `PaperRefinement.AttemptAloneIsOneStep` | paper_execution_runtime.py:422-708 | from every state, all moves of one undisturbed attempt, heartbeats, consent check, executor and record included, leave the log, status file and lease rows of the one-step attempt, and no worker |
| `PaperInterleaving.HumanStopIsFinalIff` | paper_execution_runtime.py:378-419 | a stopped pair stays stopped in every interleaving without another's approval exactly when no worker read the log before the stop and is about to approve; then no consent check of the pair ever passes either |
| `PaperInterleaving.DeclineIsOverridden` | paper_execution_runtime.py:387-419 | a run in which a decline is followed by the system's approval |
| `PaperInterleaving.ExecutedAtMostOnceIff` | run_approved_paper_execution.py:162-226 | in every interleaving a pair is executed at most once, whatever running executors return, exactly when each of its consent checks is passed while it neither was executed nor is being executed |
| `PaperInterleaving.FlyersKeepRows` | operations/paper_execution_leases.py:67-81 | while leases are asked for only before they expire, workers in flight keep their row, so a hash has at most one |
| `PaperInterleaving.ExecutorCompletesAtMostOnce` | run_approved_paper_execution.py:162-226 | lease, consent check and log together: at most one execution of a pair, as long as no lease runs out under a worker in flight, none is interrupted between executing and recording, and nobody, automatic policies included, approves after an execution was recorded |
| `PaperInterleaving.TakeoverExecutesTwice` | run_approved_paper_execution.py:162-226 | a run in which a lease expires under a working executor and the pair is executed twice |
| `PaperInterleaving.CompletionIsFinalIff` | paper_execution_runtime.py:580-699 | in any reachable state a completed hash stays completed in every continuation exactly when no worker past the status gate can still take its lease, or still holds its row without having finished successfully |
| `PaperInterleaving.BothClear` | paper_execution_runtime.py:580-622 | two workers of one hash can both pass the status gate |
| `PaperInterleaving.StaleReaderOverwritesCompletion` | paper_execution_runtime.py:580-699 | a run in which `blocked` replaces `completed` |
| `DiagnosticCoordination.DiagnosticStore.Request` | operations/manual_cio_diagnostic.py:723-743 | a request is created exactly when none is open; otherwise the open one is returned unchanged |
| `DiagnosticCoordination.DiagnosticStore.Claim` | operations/manual_cio_diagnostic.py:746-762 | exactly a pending request can be claimed |
| `DiagnosticCoordination.DiagnosticStore.Finish` | operations/manual_cio_diagnostic.py:765-798 | exactly the current in-progress request can be closed, without rebinding its cycle |
| `DiagnosticCoordination.OwnerLease.Acquire` | _manual_cio_diagnostic_core.py:227-257 | two tries obtain the lease exactly over nothing or over a removable file that no live process holds |
| `DiagnosticCoordination.OwnerLease.Release` | _manual_cio_diagnostic_core.py:260-272 | only the holder's own record is removed |
| `DiagnosticCoordination.Coordinator.Prime` | prime_release_cio_diagnostic.py:202-329 | an undisturbed primer always exits 0; off, with an own request, or with a request at work under its live owner it leaves the slot as it was, otherwise the slot holds a fresh pending request of its own |
| `DiagnosticCoordination.PrimingHandsOffAndIsIdempotent` | prime_release_cio_diagnostic.py:202-329 | afterwards the latest request is the release's own or runs under a live prior owner; priming again changes nothing; an own request is never replaced |
| `DiagnosticCoordination.Coordinator.Coordinate` | _manual_cio_diagnostic_core.py:391-489 | a runner that is off or finds its work done touches nothing and exits 0; one that finds a live owner at work or another release waiting touches nothing and exits 3; any other claims its own pending or a fresh request, an ownerless one at work giving way, and enters exactly if no live process holds the lease |
| `DiagnosticCoordination.SecondRunnerIsHeld` | _manual_cio_diagnostic_core.py:411-440 | while a runner that entered lives, a second one exits 3 and changes nothing |
| `DiagnosticCoordination.PrimerThenRunner` | prime_release_cio_diagnostic.py:202-329 | after a primer, a runner of the release enters its section, or finds its work done, or a live owner, or an unobtainable lease |
| `DiagnosticCoordination.Coordinator.GuardedSection` | _manual_cio_diagnostic_core.py:496-668 | however each call ends (returning, raising, interrupting): one finish on every path; an accepted one records a success, and exit 0 if any, exactly when preparation, memory record, initialization, cycle and dispatch all returned, the context was ready and the cycle completed; it binds their cycle and snapshot; only the holder's own lease is removed, only after an accepted finish; when the section is left by an exception, and the kind of detail |
| `DiagnosticCoordination.ThroughIsFirstFailure` | _manual_cio_diagnostic_core.py:500-646 | calls made one after the other end as the first one that does not return |
| `DiagnosticCoordination.NothingFlipsTheVerdict` | _manual_cio_diagnostic_core.py:557-657 | verdict, cycle and snapshot are the same however the calls after the dispatch end; a certified section gets an error's detail exactly from them |
| `DiagnosticCoordination.ImplementationErrorsStayInside` | _manual_cio_diagnostic_core.py:564-646 | a certified section whose other calls return is left normally unless the implementation is interrupted |
| `DiagnosticInterleaving.RunKeepsInvariant` | _manual_cio_diagnostic_core.py:391-668 | every interleaving keeps claims, lease and recorded verdicts consistent |
| `DiagnosticInterleaving.CoordinationIsSafe` | prime_release_cio_diagnostic.py:104-199 | two processes are never in the guarded section together, only terminal requests are replaced, and only the claimer records success |
| `DiagnosticInterleaving.LiveOwnerIsUndisturbed` | _manual_cio_diagnostic_core.py:411-440 | while a request runs under its live owner nobody else closes it, replaces it or takes the lease |
| `DiagnosticInterleaving.VerdictsAreFinal` | operations/manual_cio_diagnostic.py:765-798 | a recorded verdict is never changed in any continuation, store operations being single steps |
| `DiagnosticProgress.VerdictIsFinalIff` | operations/manual_cio_diagnostic.py:690-720 | in any reachable state, with progress records read and written in two steps: a verdict in the slot stands in every continuation exactly when no process holds a reading of its request from when it was in progress |
| `DiagnosticProgress.ProgressErasesVerdict` | operations/manual_cio_diagnostic.py:690-720 | a run in which a late progress record puts a closed request back in progress |
| `DiagnosticInterleaving.FinishAcceptedIffStillOpen` | operations/manual_cio_diagnostic.py:765-798 | a worker's finish is accepted exactly when nobody closed its claim and no other cycle was bound |
| `DiagnosticInterleaving.OwnedClaimIsClosedByItsOwner` | _manual_cio_diagnostic_core.py:460-489 | if the slot still held the claim when the runner took the lease, nobody else closes it in any continuation in which the runner lives, and its finish is rejected only for another bound cycle; if not, the claim is closed and its finish rejected in every continuation |
| `DiagnosticInterleaving.RunnerAloneTakesOver` | _manual_cio_diagnostic_core.py:411-489 | from any state, a lone runner closes a request without its own live owner and claims a fresh one; it owns the lease exactly if the file can be taken, and otherwise leaves its claim ownerless |
| `DiagnosticInterleaving.ClaimCanBeLostBeforeItIsOwned` | _manual_cio_diagnostic_core.py:460-489 | a run in which a primer closes a claim before the runner takes the lease |
| `DiagnosticInterleaving.PrimerExitsZeroHandedOff` | prime_release_cio_diagnostic.py:202-329 | in every interleaving, a primer that exits 0 leaves its own release's request as the latest, or one in progress under its live owner; any other exit is an exception |
| `DiagnosticInterleaving.PrimerAloneIsPrimed` | prime_release_cio_diagnostic.py:202-329 | undisturbed, the primer's steps amount to priming in one step and exit 0 |
| `DiagnosticInterleaving.RunnerAloneIsCoordinated` | _manual_cio_diagnostic_core.py:391-489 | undisturbed, the runner's steps up to its section amount to the one-step run: same exit, claim, slot and lease |
| `DiagnosticInterleaving.RunnerAloneFinishes` | _manual_cio_diagnostic_core.py:644-669 | undisturbed, a worker's closing and leaving do to slot, lease and exit what its guarded section does |
| `DiagnosticInterleaving.OnlyWorkersRecord` | operations/manual_cio_diagnostic.py:690-720 | progress is recorded by a working runner on the request in progress, and changes nothing else |
| `BenchmarkCache.ComparisonCache.Nonblocking` | benchmark_portfolio_comparison.py:250-271 | a reader never waits: a value at most 30 s old is shown and nothing happens; otherwise the flag goes up, a refresher is started exactly when none was marked running, and the stored value, or the placeholder, is shown |
| `BenchmarkCache.SingleFlight` | benchmark_portfolio_comparison.py:238-271 | at most one refresher lives, and the flag means exactly that if and only if no start failed |
| `BenchmarkCache.ReaderSeesNewest` | benchmark_portfolio_comparison.py:250-271 | a reader is shown the newest stored comparison, and the placeholder only if there is none |
| `BenchmarkCache.FailedStartWedges` | benchmark_portfolio_comparison.py:262-270 | after one failed start nothing is ever refreshed again |
| `MemoryReclaim.PolicyOf` | production_context_screening_resource_guard.py:67-75 | a configured threshold is always positive: a missing, malformed or non-positive one gives 640 or 64 MiB |
| `MemoryReclaim.UsageOf` | production_context_screening_resource_guard.py:111-122 | the current counters count whenever both are readable and limited, the legacy ones only otherwise and below 2^60, else there is no usage |
| `MemoryReclaim.ReclaimLoop` | production_context_screening_resource_guard.py:224-295 | at most 3 writes, each the least of 256 MiB, the inactive file bytes, and the last measured usage over the target plus 32 MiB; effective exactly when the last measured usage is at most the target; stops early only for a reason |
| `MemoryReclaim.ReclaimForScreening` | production_context_screening_resource_guard.py:177-295 | the target is what leaves reserve and minimum under the limit; writes only above it, where supported, with inactive cache; the whole answer otherwise |
| `MemoryReclaim.EnsureHeadroom` | production_context_screening_resource_guard.py:298-310 | admits exactly when the last reading, by its current or else its legacy counters, is unavailable or leaves reserve plus minimum |
| `MemoryReclaim.TargetMatchesHeadroomIff` | production_context_screening_resource_guard.py:125-151 | reclaim target and headroom agree exactly unless the limit is too small and nothing is used |
| `MemoryReclaim.AdmissibleIffLimitHoldsThresholds` | production_context_screening_resource_guard.py:125-151 | under a smaller finite limit the guard always raises, under a larger one some usage passes |
| `CioAudit.ForeignRecordsAreIgnored` | cio_decision_export.py:149-210 | a record of another lineage, inserted anywhere in a history, never changes the selection |
| `CioAudit.NewestIsSelected` | cio_decision_export.py:149-210 | the newest record that belongs is the one selected |
| `CioAudit.BriefingSelects` | cio_decision_export.py:156-210 | which records belong to a briefing: those of its decision, and constructions of its cycle |
| `CioAudit.NoBriefingSelectsNothing` | cio_decision_export.py:156-210 | without a briefing no record of any kind is selected |
| `CioAudit.JournalMatchIff` | cio_decision_export.py:108-121 | a construction is taken for its own cycle only; one without for exactly the cycles whose name occurs in its journal's name |
| `CioAudit.SelectionIsUnambiguousIff` | cio_decision_export.py:108-210 | no construction is ever exported by its cycle for briefings of two of the given cycles, whatever histories are drawn, exactly if no journal names two of the cycles |
| `CioAudit.JournalOfLongerNameMatches` | cio_decision_export.py:108-121 | a journal of cycle "c10" is taken for cycle "c1" |
| `CioAudit.SelectedRecordsRaiseNoObjection` | cio_decision_export.py:156-210 | exporting what was selected never drops a record |
| `CioAudit.SortRecords` | cio_decision_export.py:329-350 | the one-pass loop keeps exactly the records without an objection, and lists the objections in record order |
| `CioAudit.BuildExport` | cio_decision_export.py:293-476 | the exporter's bundle is the one whose issues and lineage are characterized below; auditable starts out as no issue |
| `CioAudit.TargetsAre` | cio_decision_export.py:305-328 | an export is of the briefing's decision and cycle, else the decision's own, else the evidence's cycle |
| `CioAudit.ExportIs` | cio_decision_export.py:329-476 | on the supplied records' fields: which records are kept, exactly which issues are reported, each once and in order, and that no issue means auditable |
| `CioAudit.AuditableIffOneLineage` | cio_decision_export.py:317-425 | the exact conditions on the supplied records under which an export is auditable |
| `CioAudit.AuditableExportIsOneLineage` | cio_decision_export.py:329-425 | an auditable export holds only the target decision's records, apart from a construction matched by cycle and a briefing without identifier |
| `CioAudit.VerdictStaysCoherent` | cio_report_completeness_enrichment.py:325-356 | auditable stays equivalent to an empty issue list through build, enrich and refine, and ends equal to the record consistency |
| `CioAudit.RefineReport` | cio_report_governance_refinement.py:177-281 | the step-by-step update of the copied bundle refines the one-step refinement the results below are about |
| `CioAudit.RefinedEvaluationIs` | cio_report_governance_refinement.py:247-262 | exactly a cycle-level report with no recorded evaluation and no due date gets one: the earliest eligible review, else thirty days after the decision, else none, with its source and status; any other keeps its evaluation |
| `CioAudit.RefinedVerdictIs` | cio_report_governance_refinement.py:167-281 | the funnel is judged on its own counts, each imbalance is an issue reported once, and everything else stays |
| `CioAudit.RefineKeepsCoherence` | cio_report_governance_refinement.py:167-281 | refinement keeps the verdict exactly when the funnel balances on candidates and on packets |
| `CioAudit.RefineIsIdempotent` | cio_report_governance_refinement.py:177-281 | refining twice is refining once |
| `CioAudit.MatchingQueue` | cio_report_completeness_enrichment.py:110-120 | the queue found has exactly the briefing's time, and none is found only if none has |
| `CioAudit.NewestQueueIsFound` | cio_report_completeness_enrichment.py:110-120 | of several queues of the briefing's time the newest is found |
| `CioAudit.EnrichedIs` | cio_report_completeness_enrichment.py:192-356 | the counts and candidates enriching adds, and exactly which issues a cycle-level no-action report has afterwards, in order; any other audit stays |
| `CioAudit.RelevantAre` | cio_report_completeness_enrichment.py:428-448 | the considered candidates are the newest record of each candidate of the queue, in journal order |
| `CioAudit.EnrichedFunnelBalances` | cio_report_completeness_enrichment.py:192-216 | an enriched funnel balances on candidates always, on packets exactly when every ranked candidate has one |
| `CioAudit.CycleVerdictIs` | cio_report_completeness_enrichment.py:325-356 | the refined verdict of a cycle-level report, end to end, as one condition on the supplied records, queues and packets |
| `CioAudit.DueDateIsEarliestReview` | cio_report_governance_refinement.py:149-164 | the evaluation is due at the earliest considered review not before the decision; without one, thirty days after the decision; without a decision time, never; and the source says which |
| `Redaction.RedactedIsClean` | cio_decision_export.py:63-76 | after redaction no value is left under a sensitive key, at any depth |
| `Redaction.RedactKeepsIffClean` | cio_decision_export.py:63-76 | redaction changes nothing exactly when the tree is already clean |
| `Redaction.RedactIsIdempotent` | cio_decision_export.py:63-76 | redacting twice is redacting once |
| `Redaction.SensitiveIff` | cio_decision_export.py:28-66 | a key is sensitive exactly when one of eight words occurs in it, in any case |
| `Redaction.ExposedStays` | cio_decision_export.py:63-76 | everything that no sensitive key leads to stays in its place: same texts, same keys, as many parts, tuples as lists |
| `TopicSelection.SelectRecords` | educational_market_briefing_ui.py:323-349 | the two loops with early exits, topic set and provider counters refine the two-pass selection characterized below |
| `TopicSelection.SelectionIsDiverseAndComplete` | educational_market_briefing_ui.py:323-349 | exactly min(max(limit, 1), distinct topics) records, pairwise distinct topics; first picks have distinct providers; a provider repeats only when every topic left is of a provider already shown |
| `TopicSelection.SelectionFollowsRanking` | educational_market_briefing_ui.py:323-349 | by positions in the ranking: the first picks are whatever has a new topic and a new provider, the second picks whatever put-aside item has a topic not yet shown, both in ranking order and up to the limit, which leaves no choice |
| `ReportHistory.Transactions` | cio_pending_transactions.py:118-158 | the row loop with its skips, then the in-place status update, yields the rows characterized below, all with the one status their execution state means |
| `ReportHistory.RowsAreNumbered` | cio_pending_transactions.py:128-158 | rows keep increasing numbers within the trades' positions |
| `ReportHistory.RowsFitTrades` | cio_pending_transactions.py:118-158 | every row tells the usable trade at its number: symbol, side or review, weights with their fallbacks; all with one status |
| `ReportHistory.UsableTradesHaveRows` | cio_pending_transactions.py:118-158 | every usable trade has its row |
| `ReportHistory.ReportSays` | cio_pending_transactions.py:220-300 | launch and execution state, report state, the status of every row, and the abstention, for every construction, briefing and time |
| `ReportHistory.ReportIdentifies` | cio_pending_transactions.py:195-204 | which decision and construction a report is of, with their fallbacks |
| `ReportHistory.AbstainsIff` | cio_pending_transactions.py:161-192 | exactly which briefings are a recorded abstention |
| `ReportHistory.RunnerNoActionIsRecorded` | cio_pending_transactions.py:161-192 | a briefing that takes the runner's no-action path is reported as a recorded abstention without transactions |
| `ReportHistory.ReportDirectory.Write` | cio_pending_transactions.py:446-461 | the latest file is replaced, a history entry is added only if absent |
| `ReportHistory.ReportDirectory.Publish` | cio_pending_transactions.py:490-508 | publishing writes the report it builds |
| `ReportHistory.ReportDirectory.Resolve` | cio_pending_transactions.py:464-487 | resolve returns the latest report exactly if it is of the asked decision and construction, and else one built for now |
| `ReportHistory.HistoryIsAppendOnly` | cio_pending_transactions.py:446-461 | over any publications, some cut short, entries hash to their names, none is replaced, and the latest report agrees with its entry up to its time |
| `ReportHistory.ForeignFingerprintIff` | cio_pending_transactions.py:446-461 | a supplied fingerprint keeps the history content-addressed exactly when it is the content's or its entry exists |
| `ReportHistory.ResolveReturnsPublished` | cio_pending_transactions.py:464-508 | resolving after publishing returns exactly what was published for the same identities |
| `Drawdown.ByTimeSorts` | portfolio_only_runtime.py:39-44 | the series is a time-ordered permutation of the snapshots |
| `Drawdown.ArrivalOrderIsIrrelevant` | portfolio_only_runtime.py:39-44 | unless different snapshots share a time, arrival order does not matter |
| `Drawdown.PositiveJoins` | portfolio_only_runtime.py:40-44 | the positive values are taken snapshot by snapshot, in order |
| `Drawdown.PositiveOfOne` | portfolio_only_runtime.py:40-44 | a snapshot contributes its value exactly if it has a positive one |
| `Drawdown.MaximumDrawdown` | portfolio_only_runtime.py:39-53 | the one pass returns the least loss over all pairs in time order, in (-1, 0] |
| `Drawdown.DrawdownIsUnique` | portfolio_only_runtime.py:39-53 | the least pairwise loss is one value, so the contract above fixes the result |
| `Drawdown.ZeroIffNeverFalls` | portfolio_only_runtime.py:39-53 | the drawdown is zero exactly when the series never falls |
| `Drawdown.ScaleInvariant` | portfolio_only_runtime.py:39-53 | a change of currency unit does not change it |
| `Drawdown.MoreHistoryNeverImproves` | portfolio_only_runtime.py:39-53 | later observations can only deepen it |

## Left out

Assumptions and abstractions:

- Floating point and dates: amounts are reals, instants are integers, a failed parse is `None`; ISO texts are taken to order as the times they denote.
- SHA-256 and the identifiers joined from several parts: taken to be injective; fresh identifiers (`uuid4`) are taken to be new.
- Text cleaning (trimming, upper and lower case of symbols): texts arrive cleaned, "" is an absent text.
- File systems and databases: a lock section or transaction is one step; write errors are modelled only where the code branches on them (a lost attempt file, a failed lease operation, an unremovable lease file, an interrupted publication).
- Lease file of the diagnostic runner: creating the file and writing its process id are one step; in between the program itself treats the file as ownerless.
- Store operations of the diagnostic request file (`operations/manual_cio_diagnostic.py:653-798`): each is a reading and a replacement without a lock, taken as one step; `DiagnosticInterleaving.VerdictsAreFinal`, `DiagnosticInterleaving.CoordinationIsSafe` and the other results on interleavings rest on it, and `DiagnosticProgress.VerdictIsFinalIff` says when verdicts are final with progress records in two steps. Request, claim and finish stay single steps (in two, two claims of one request could both succeed).
- Check-owner-then-close of the diagnostic programs: one step, since the two files are read one after the other without a lock.
- Assert-owned-then-write of an execution status: one step of `PaperInterleaving`; the program renews the lease and then replaces the file.
- Settings loading between lease acquisition and the guarded block (`_manual_cio_diagnostic_core.py:491-494`) and redaction of the detail before the finish (line 647): taken not to fail; if they did, request and lease would stay until the process is gone.

Parts of the repository not modelled:

- The reader of the attempt register in `opportunity_scan_resilience.py`, `validate_manifest` in `capital_intelligence_cli.py`, attribution rows and the equity curve: would add only easy members.
- `reset_benchmark_portfolio_comparison_cache`: a test helper that clears the in-flight flag by design.
- Loading market returns and building comparison rows: provider calls and row formatting.
- Scoring, clustering and displayability before the topic selection: the model starts from the ranked candidates.
- Specialist summaries, top rejected alternatives, upstream lineage, reader summaries and scenario texts of the export: prose and copied fields.
- Cost, reason and funding fields of transaction rows, the markdown twins of report files, report summaries: copied through unchanged.
- Result facts and memory figures recorded beside an attempt or a diagnostic: copied fields with no effect on the protocol.
- Credential redaction of log texts by string replacement: outside the protocols.
- HTML, styling and navigation.

Contracts stated on purpose within limits:

- PaperExecution.HumanStopHolds: holds for whole attempts as single steps; `PaperInterleaving.HumanStopIsFinalIff` says when for finer ones.
- PaperExecution.CompletedIsFinal: holds for whole attempts as single steps; `PaperInterleaving.CompletionIsFinalIff` says when for finer ones.
- PaperExecution.RunnerCallsAreSpaced: needs the earlier call's status to have been published; `PaperExecution.LostLeaseHidesTheCall` shows why, `PaperExecution.PublishedIffLeaseHeld` when it is.
- PaperExecution.UncompletedAttemptIsRetriedIff: while the authorization of the call is still the pair's latest event; a runner that recorded an execution or another stop is not retried (`PaperExecution.HumanStopHolds`).
- PaperInterleaving.ExecutorCompletesAtMostOnce: sufficient conditions a caller can keep; the exact condition is `PaperInterleaving.ExecutedAtMostOnceIff`. A new approval after an execution is meant to allow another one.
- PaperRefinement.AttemptAloneIsOneStep: for the consent-gated runner, whose execution identifier the published status of `PaperInterleaving` leaves out.
- CioAudit.RefineIsIdempotent: covers funnel, evaluation, audit and consistency; the candidate metadata and upstream lineage the refinement also fills in are copied fields and not modelled.
- DiagnosticInterleaving.CoordinationIsSafe: starts from files in which no lease names a request that is still pending.
