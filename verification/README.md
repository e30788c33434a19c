# A verified model of an AI developer worker

The repository runs workers that take issues from a tracker, let Codex write code in a checkout, validate and
publish it, and react to review; a fleet picks the issues, leases kept as tracker comments keep workers apart, a
project manager proposes and replans goals, and metrics and alerts watch all of it. This project models the
decisions of those components in Dafny and proves what they keep over every run. `dafny verify dfyconfig.toml`
checks all of it.

Whatever the outside world answers is arbitrary: Codex, gates, git, GitLab, the tracker and the clock are
nondeterministic values or parameters, every call may throw a temporary or permanent error, and a failing tracker,
commit or push call may nevertheless have landed.

| module | what it holds |
|---|---|
| `TaskRun`, `TaskTrace`, `CommentLog`, `QualityGates`, `Decomposition`, `ReviewFeedback` | one worker's run over an issue and its cycle, as a class |
| `TaskRules`, `CycleRules`, `TaskHistory` | what a run and a cycle come to, given the answers they get; histories of many workers and people |
| `LeaseProtocol`, `LeaseExclusion`, `LeaseAcquisition`, `LeaseHeartbeat` | leases by comment: read, append, verify, renew, release; two-phase acquisition; heartbeat |
| `TaskIntake` | the fingerprint of an issue's source, and the worker that reviews each version |
| `ProjectTypes`, `GoalPolicy`, `AnalysisPolicy`, `GoalStore`, `ReplanSnapshot`, `ProjectManager` | goals: duplicates, policy, store, snapshot, replanning |
| `Alerts`, `Metrics` | sliding windows and suppression; histograms, series keys, label escaping |
| `PriorityQueue`, `Fleet` | scores, ranking, collecting candidates, one fleet cycle |
| `Common`, `Text`, `Sorting` | results, words and separators, stable sorting and when its result is canonical |

## What was found

Four promises fail in the code as it is; each has a proved exact condition and an input that shows it.

- Two workers can hold the same task lease. `findActiveLease` looks at the latest comment only
  (src/integrations/tracker/commentProtocol.ts:1032-1067), so a second worker that read before the first one
  appended hides the first lease and verifies its own (`LeaseExclusion.StaleReadBreaksExclusion`), and a late release
  hides the lease of the next holder (`LeaseExclusion.LateReleaseBreaksExclusion`). An append is safe exactly when the
  same lookup, made again at the append, still reports nothing (`LeaseExclusion.AppendIsSafeIff`), a release exactly
  when it reports nobody but the two workers concerned (`LeaseExclusion.ReleaseIsSafeIff`).
  `LeaseExclusion.FirstLiveLookupExcludes` shows that reporting the first live lease instead would exclude on every
  interleaving.
- The two-phase acquisition is not all or nothing when a tracker call throws: a task lease that was appended stays
  active until it expires, with nobody to give it back. `LeaseAcquisition.AllOrNothingIff` says for every call at
  which it can be cut, by what the log showed before, when the worker ends with both leases or with none,
  `LeaseAcquisition.AllOrNothingWhateverOthersDo` what is left under every interleaving with other workers and time,
  and `LeaseAcquisition.LeftLeaseTurnsAway` what a left lease does to the others.
- With review metadata that names processed discussions but no notes, the pending set is not the set of unanswered
  notes (`ReviewFeedback.PendingIsUnansweredIffNotLegacy`, `ReviewFeedback.LegacyCycleLeavesPending`).
- A replan that passes the policy and marks a finished goal completed twice completes the goal and then fails the
  run (`ProjectManager.FinishedGoalCompletedTwiceFails`); nothing else makes an accepted replan fail
  (`ProjectManager.LoopFailsIff`).

Two remarks on the heartbeat. The wrapper would release nothing with an interval of zero or less
(`LeaseHeartbeat.EveryExitReleasesIff`), but the configuration lets no such interval through
(`LeaseHeartbeat.ConfiguredExitReleases`). Its exit does not wait for renewals: one that was left over from a failed
batch can still be running when its lease is released (`LeaseHeartbeat.LeftoverOutlivesRelease`), and if its comment
comes after the release the lease is active again (`LeaseAcquisition.LateRenewalRevives`).

`confidencePriorityWeight` may be negative, and then more confidence ranks an issue lower
(`PriorityQueue.ConfidenceMonotoneIff`).

The window of repeated validation failures is kept under repository and gate joined by a colon: two repositories can
share one, if a name has a colon in it (`Alerts.ColonSharesFailureKey`), and no others (`Alerts.SameFailureKeyIff`).

## Model

| member | source | states |
|---|---|---|
| `QualityGates.RunQualityGates` | src/domain/qualityGates.ts:267-330 | One result per gate in order; commands run exactly up to the first that does not succeed; no result is failed exactly when every gate with a command exits with 0 and that of the coverage gate leaves a readable report not below the threshold |
| `Decomposition.AcceptedPlanIsWellFormed` | src/domain/decomposition.ts:88-144 | An accepted plan has every subtask of the payload in order, each field the text of the raw one, and exactly its complete dependencies in order, blocked and blocking as the payload says; ids are distinct and every dependency joins two subtasks |
| `Decomposition.PlanAcceptedIff` | src/domain/decomposition.ts:88-144 | Over the raw fields: a payload is accepted exactly when it names this parent or none, has one to max complete subtasks with distinct ids, and every complete dependency joins two of them |
| `CommentLog.FindLatestAppend` | src/integrations/tracker/commentProtocol.ts:870-957 | Appending a comment changes what a latest-comment lookup finds only when it matches |
| `CommentLog.ResumeFindsTheQuestion` | src/domain/orchestrator.ts:1647-1696 | A `/resume` on a questioned issue resumes on the thread of the latest question, and the owner's scan sees it |
| `CommentLog.CommandDecides` | src/domain/orchestrator.ts:1647-1696 | What one more comment does to the resumption: only a `/resume` by a person, after a question of this worker, resumes; `/skip` and `/cancel` end one that was given; a new question starts over; nothing else matters |
| `CommentLog.ResumableMeans` | src/domain/orchestrator.ts:784-860 | An issue is resumable by the worker whose status comment is the latest, and busy for every other, when that comment says in progress or waiting and leaves it to no person |
| `CommentLog.ReviewOwnedMeans` | src/domain/orchestrator.ts:807-815 | Which comments make a review a worker's own |
| `ReviewFeedback.PendingIdsExactly` | src/domain/reviewFeedback.ts:27-96 | Exactly which note ids the filters hand over, legacy metadata included |
| `ReviewFeedback.PendingIsUnansweredIffNotLegacy` | src/domain/reviewFeedback.ts:57-96 | For all discussions the pending notes are the unanswered notes, if and only if the metadata is not legacy |
| `ReviewFeedback.StepKeepsInvariant` | src/domain/reviewFeedback.ts:98-118 | Every edit or cycle keeps: processed ids are those handed over, handed once, and only grow as prefixes |
| `ReviewFeedback.ReviewNotesHandedExactlyOnce` | src/domain/orchestrator.ts:1215-1439 | From no metadata, over any edits and completed cycles of any workers: no note is handed over twice, and the next cycle gets exactly the unanswered notes |
| `ReviewFeedback.NothingPendingAfterCycle` | src/domain/reviewFeedback.ts:98-118 | Without legacy metadata a cycle empties its own pending set |
| `ReviewFeedback.LegacyCycleLeavesPending` | src/domain/reviewFeedback.ts:63-75 | For any legacy metadata there are discussions of which a cycle leaves notes pending |
| `TaskTrace.VouchedMeansLastValidation` | src/domain/orchestrator.ts:163-164 | A tree is vouched for exactly when the last validation accepted it and nothing wrote since |
| `TaskTrace.ApprovedMeansLastReview` | src/domain/orchestrator.ts:2364-2510 | A tree is approved exactly when the last self-review passed it and nothing wrote since |
| `TaskTrace.EveryPushIsLastValidated` | src/domain/orchestrator.ts:1111-1213 | In a backed trace every push, wherever it is, goes to the branch of the last checkout and publishes the tree of the last validation before it, in which every gate with a command succeeded; on a path with self-review, also the tree the last self-review passed |
| `TaskRun.WorkerOrchestrator.RunResumeOrInitial` | src/domain/orchestrator.ts:2054-2077 | One Codex run, and a fresh one exactly when a resumed session fails without a question |
| `TaskRun.WorkerOrchestrator.ValidateRepositoryState` | src/domain/orchestrator.ts:2512-2551 | Validates the working tree, changed or not; a successful validation vouches for it; it throws only what a call throws |
| `TaskRun.WorkerOrchestrator.FixUntilValid` | src/domain/orchestrator.ts:1124-1180 | At most maxAttempts Codex runs; goes on only with a vouched tree and an untouched issue; pauses exactly on the question the last run asked, on its session; fails by itself only when the validation has failed once more than there are attempts; anything else it throws a call threw |
| `TaskRun.WorkerOrchestrator.RunSelfReviewGate` | src/domain/orchestrator.ts:2364-2510 | The unbounded-looking loop ends within 2·max + 1 calls, goes on only with a tree both vouched for and, when enabled, approved, and fails by itself only on an unreadable review, on one more negative review than there are attempts, or on a fix that does not validate |
| `TaskRun.WorkerOrchestrator.PauseForClarification` | src/domain/orchestrator.ts:2079-2115 | Leaves the issue waiting on this worker's question, on the session that asked, status and log agreeing |
| `TaskRun.WorkerOrchestrator.PauseForManualHold` | src/domain/orchestrator.ts:2117-2145 | Leaves the issue held |
| `TaskRun.WorkerOrchestrator.CreateSubtasks` | src/domain/orchestrator.ts:2271-2339 | An uninterrupted run creates exactly one new issue per subtask, under its title, asks for every link of the plan and no other, each in its direction, and warns about exactly those that failed, a link that failed having been made or not |
| `TaskRun.WorkerOrchestrator.CreateAndRecord` | src/domain/orchestrator.ts:2271-2362 | The issues created are exactly those on record, and the parent is held |
| `TaskRun.WorkerOrchestrator.RunDecomposition` | src/domain/orchestrator.ts:2147-2362 | Every normal exit leaves the parent held, with at most one Codex run; issues are created exactly when a plan is accepted, creating is on, it is no dry run and the tracker can; those it created are on record, and a parent with created issues on record is not decomposed again |
| `TaskRun.WorkerOrchestrator.RunAnalysis` | src/domain/orchestrator.ts:1698-1811 | A stored decision is reused without a Codex run or a comment; a new one says what Codex answered and is on record |
| `TaskRun.WorkerOrchestrator.PrepareTask` | src/domain/orchestrator.ts:915-1015 | Up to the checkout: a waiting issue goes on exactly after a `/resume` for this worker, on the session of its question; any other is paused, held, decomposed or implemented exactly as its decision and the task mode say; at most two calls |
| `TaskRules.ModeMeans` | src/domain/orchestrator.ts:1813-1843 | When the task mode is each of its values, thresholds and missing context included |
| `TaskRun.WorkerOrchestrator.Publish` | src/domain/orchestrator.ts:2563-2614 | Pushes only the vouched (and approved) working tree, to the branch checked out, and leaves the issue in review with the merge request there was, or a new one |
| `TaskRun.WorkerOrchestrator.ImplementTask` | src/domain/orchestrator.ts:1017-1213 | Checks out the issue's branch; Codex runs first exactly when nothing is on it, and always while the issue is in progress; ends paused on the first question asked, on the last session named, or in review with the push last or a merge request that was there; gives up by itself only when nothing changed or its gates or reviews fail as often as allowed; within the Codex budget, every push backed |
| `TaskRun.WorkerOrchestrator.HandleReviewFeedback` | src/domain/orchestrator.ts:1215-1439 | By what GitLab answers: a merge is noted once, without an open merge request a person takes over, without pending discussions nothing happens, else exactly the pending ones are fixed, replied to and put on record with the commit pushed; it gives up by itself only when validation keeps failing or there is no new commit |
| `TaskRun.WorkerOrchestrator.FixReview` | src/domain/orchestrator.ts:1255-1439 | A processed cycle has pushed a new commit of the merge request's branch last, replied to every pending discussion with it, and stands in review with the merged metadata as the latest record |
| `TaskRules.RecordMeans` | src/domain/orchestrator.ts:1471-1497 | The merge request on record is that of the latest comment in which this worker names a branch with it |
| `TaskRun.WorkerOrchestrator.FinalizeMergedReview` | src/domain/orchestrator.ts:1511-1569 | Idle exactly when the merge was already noted for human testing |
| `TaskRun.WorkerOrchestrator.FinalizeFailure` | src/domain/orchestrator.ts:2658-2693 | Failed on record; or, when a call threw on the way, waiting with failure recovery, or what it threw |
| `TaskRun.WorkerOrchestrator.HandleIssue` | src/domain/orchestrator.ts:862-895 | What every run comes to: with nothing thrown, exactly what its path and the answers ask for; it answers waiting early only when the exception that ended it is a temporary one that a call threw; any other failure is put on record as failed; log and tracker agree; the review metadata grows only by what Codex was shown; the Codex budget holds; every push is backed |
| `TaskRules.CutShortMeansThrown` | src/domain/orchestrator.ts:862-895 | A run is cut short only by a temporary exception that an outside call threw, and then waits with everything left as it was; if no call throws one, none is; any other exception puts the failure on record |
| `TaskRun.WorkerOrchestrator.ResumeOwnedTask` | src/domain/orchestrator.ts:784-815 | The first listed issue this worker owns, none exactly when it owns none |
| `TaskRun.WorkerOrchestrator.PickNextTask` | src/domain/orchestrator.ts:817-860 | The first open issue with its dependencies done that no other worker is busy with |
| `TaskRun.WorkerOrchestrator.PickTaskIntakeReviewCandidate` | src/domain/orchestrator.ts:515-547 | The first listed issue whose latest review saw another version of it, none exactly when there is none |
| `TaskRun.WorkerOrchestrator.RunTaskIntakeReviewOnce` | src/domain/orchestrator.ts:574-766 | By the answers: exactly the first open listed issue whose latest review saw another version is reviewed, if its lease is granted; idle only if there is none or nothing was to be posted; whatever people do to the issue meanwhile, a review carries a fingerprint its latest review does not have, and no other issue is touched |
| `TaskRun.WorkerOrchestrator.RunOnce` | src/domain/orchestrator.ts:294-341 | By the answers: the first listed issue it owns is processed before anything else; without one, or after an idle review, the intake review, and when that is idle the first issue that can be picked; idle only if there is none, waiting when a lease is refused, else what processing that issue returned. However it ends, it picks only selectable issues, leaves all others as they were, and adds to the reviews on record only what Codex was shown |
| `TaskHistory.CycleKeepsHeld` | src/domain/orchestrator.ts:166-173 | A held issue is neither picked nor changed by a cycle |
| `TaskHistory.HeldIsNeverPickedAgain` | src/domain/orchestrator.ts:784-860 | Over any history of workers' cycles and people's edits: until somebody lifts its hold, a task left in manual hold or failure recovery is neither picked nor changed by any cycle |
| `TaskHistory.RecordIsCycle` | src/domain/orchestrator.ts:1402-1422 | What a cycle adds to the review metadata of an issue is one step of the review-fix model, on the comments it read |
| `TaskHistory.ReviewsHandedOnceOverHistory` | src/domain/orchestrator.ts:1215-1439 | Over the same histories, for every merge request without metadata at the start: no note is handed to Codex by two recorded cycles of any workers, the metadata in the log names exactly the notes handed over, and the next cycle is handed exactly the unanswered ones |
| `TaskHistory.TaskReviewsSawDifferentSources` | src/domain/orchestrator.ts:574-766 | Over the same histories, for every issue without reviews at the start: each review on record carries the fingerprint of what Codex was shown, and two in a row saw sources that differ in more than order and service comments |
| `LeaseProtocol.StepKeepsSound` | src/domain/lockBackend.ts:79-152 | Every step keeps: comments, pending and held leases carry the token drawn for their worker and slot |
| `LeaseProtocol.StepAppendsProtocolEntry` | src/domain/lockBackend.ts:125-152 | Every comment a step appends has a new token, or releases, or renews the reported lease |
| `LeaseProtocol.StepKeepsReported` | src/domain/lockBackend.ts:79-152 | With undisturbed lookups every step keeps every held lease the reported one |
| `LeaseProtocol.ReportedIsExclusive` | src/domain/lockBackend.ts:113-123 | If held leases are the reported ones, no two workers hold one slot |
| `LeaseProtocol.KeepingLookupExcludes` | src/domain/lockBackend.ts:125-152 | With any lookup that reports only live leases and keeps them until release or expiry, every interleaving of any number of workers is exclusive |
| `LeaseExclusion.StaleReadBreaksExclusion` | src/domain/lockBackend.ts:125-152 | With the repository's lookup, two interleaved acquisitions both succeed, for any two workers, slot and lifetime |
| `LeaseExclusion.UncontestedAcquire` | src/domain/lockBackend.ts:125-152 | What an acquisition nobody interferes with leaves behind |
| `LeaseExclusion.LateReleaseAdmitsAnother` | src/domain/lockBackend.ts:100-111 | In any state, releasing a claim on a slot someone else holds lets a further worker acquire it |
| `LeaseExclusion.LateReleaseBreaksExclusion` | src/domain/lockBackend.ts:100-111 | Such a state is reached without any interleaved acquisition |
| `LeaseExclusion.AppendIsSafeIff` | src/domain/lockBackend.ts:125-152 | After any clean run, whatever verification is still to come: appending a built lease, expired or not, and verifying it keeps exclusion, also for the next idle worker that asks, if and only if the lookup, made at the append, reports nothing |
| `LeaseExclusion.ReleaseIsSafeIff` | src/domain/lockBackend.ts:100-111 | After any clean run: a release followed by another worker's acquisition keeps exclusion if and only if the lookup, made at the release, reports nobody but the two |
| `LeaseExclusion.DisciplinedRunIsExclusive` | src/integrations/tracker/commentProtocol.ts:1032-1067 | Appending only while the log shows no active lease, and releasing only the active one, would exclude |
| `LeaseExclusion.FirstLiveLookupExcludes` | src/integrations/tracker/commentProtocol.ts:1032-1067 | Reporting the first live lease instead of the latest would exclude on every interleaving |
| `LeaseExclusion.ActiveLeaseIsNotKept` | src/integrations/tracker/commentProtocol.ts:1053-1067 | The repository's lookup does not keep what it reports |
| `LeaseAcquisition.OneAcquisition` | src/domain/lockBackend.ts:125-152 | Cut at any call, an acquisition ends with the standing and result that follow from how the slot stood before, and leaves the other slot as it stood |
| `LeaseAcquisition.AllOrNothingIff` | src/domain/fleetOrchestrator.ts:330-376 | From any log, undisturbed, cut at any tracker call: the worker has both leases, or the log shows neither slot as its own, if and only if the cut is one of those listed for how the slots stood |
| `LeaseAcquisition.BothIsARun` | src/domain/fleetOrchestrator.ts:330-376 | The undisturbed acquisition, cut anywhere, is one of the interleavings of the next rows, with the others doing nothing |
| `LeaseAcquisition.AllOrNothingWhateverOthersDo` | src/domain/fleetOrchestrator.ts:330-376 | For every interleaving with any steps of others and any time, for a worker that starts with neither lease: a refusal leaves nothing on either slot; a grant claims both, and the log shows both exactly while both are left undisturbed; an exception leaves nothing exactly when no lease was left |
| `LeaseAcquisition.MineIffLeft` | src/integrations/tracker/commentProtocol.ts:1032-1067 | At any time of any interleaving the log shows a slot as the worker's if and only if some move of the run left its lease there: live, and nobody has commented on the slot since |
| `LeaseAcquisition.LeftByItself` | src/domain/lockBackend.ts:125-152 | That move is the worker's own append or renewal on that slot, landed, whether or not its call returned |
| `LeaseAcquisition.FreshAcquisitionLeaksIff` | src/domain/orchestrator.ts:444-513 | A worker that found the task free keeps it without a way to give it back exactly when it is cut after the task append landed and before it has the repository lease or its release landed |
| `LeaseAcquisition.LeftLeaseTurnsAway` | src/domain/lockBackend.ts:130-139 | Until it expires, a lease left behind turns every other worker away |
| `LeaseAcquisition.LateRenewalRevives` | src/domain/lockBackend.ts:79-111 | A renewal in flight at the release leaves the slot free exactly when its comment comes first |
| `LeaseHeartbeat.RunIsOrderly` | src/domain/lockBackend.ts:206-221 | Over every list of events: only the last batch can be unsettled, the two flags say how it stands, and every batch renews the tokens the wrapper was given |
| `LeaseHeartbeat.OneRenewalPerLease` | src/domain/lockBackend.ts:206-221 | At any time at most one renewal of a lease is unsettled, the leftovers of a rejected batch included |
| `LeaseHeartbeat.ErrorIffFailed` | src/domain/lockBackend.ts:211-217 | The error is set exactly when a renewal in flight has failed |
| `LeaseHeartbeat.NoneStartsAfterFailure` | src/domain/lockBackend.ts:206-209 | Once a renewal has failed, no later event starts another batch |
| `LeaseHeartbeat.ReturnsValueIff` | src/domain/lockBackend.ts:226-232 | For every list of events: the wrapper returns a value exactly when the callback's first word is that value and no renewal in flight failed before it |
| `LeaseHeartbeat.EveryTokenReleasedOnce` | src/domain/lockBackend.ts:226-235 | Nothing is released while the callback runs; afterwards every token was, once, in order, whatever became of its renewals |
| `LeaseHeartbeat.LeftoverOutlivesRelease` | src/domain/lockBackend.ts:211-235 | With two leases or more, a failed renewal leaves another running while both leases are released |
| `LeaseHeartbeat.EveryExitReleasesIff` | src/domain/lockBackend.ts:192-204 | The wrapper by itself: every exit releases every lease if and only if the interval is positive or there is nothing to release |
| `LeaseHeartbeat.HeartbeatIff` | src/config.ts:2476-2489 | The accepted intervals are exactly the positive whole seconds of the environment, or else of the file, or else a minute |
| `LeaseHeartbeat.ConfiguredExitReleases` | src/config.ts:2476-2489 | With every interval the configuration accepts, every exit releases every lease |
| `TaskIntake.SamePayloadIff` | src/domain/taskIntakeReview.ts:181-206 | Two sources have the same payload exactly when they agree up to the order of tags, components and human comments |
| `TaskIntake.ServiceCommentsDoNotCount` | src/domain/taskIntakeReview.ts:193-201 | A service or system comment inserted anywhere changes nothing |
| `TaskIntake.WrittenCommentCounts` | src/domain/taskIntakeReview.ts:193-201 | Whatever a person writes, a command included, is one more comment of the source |
| `TaskIntake.PermutedCommentsDoNotCount` | src/domain/taskIntakeReview.ts:193-205 | Permuting comments with distinct ids changes nothing |
| `TaskIntake.FindLatestTaskIntakeReview` | src/integrations/tracker/commentProtocol.ts:959-970 | The fingerprint of the newest review of the issue |
| `TaskIntake.IntakeReviewer.ReviewPicked` | src/domain/orchestrator.ts:614-740 | With arbitrary edits at any time: nothing goes on record, or a review with the fingerprint of what Codex was shown, differing from the one before |
| `TaskIntake.IntakeReviewer.ReviewOnce` | src/domain/orchestrator.ts:515-766 | The same from picking the issue on; undisturbed, a review is posted exactly when the source changed since the last |
| `TaskIntake.IntakeReviewer.ReviewRepeatedly` | src/domain/orchestrator.ts:515-766 | Over any number of cycles every review carries the fingerprint of what Codex was shown, and no two in a row are equal |
| `TaskIntake.ConsecutiveReviewsSawDifferentSources` | src/domain/orchestrator.ts:614-740 | Two consecutive reviews saw sources that differ in more than order and service comments |
| `GoalPolicy.SameTitleIff` | src/domain/projectManager/goalPolicy.ts:11-12 | Titles normalise alike exactly when their words agree, case aside |
| `GoalPolicy.CitesAllIff` | src/domain/projectManager/goalPolicy.ts:17-25 | Identity sets are included exactly when evidence is, whatever its order, repetition, case and padding |
| `GoalPolicy.SamePayloadIff` | src/domain/projectManager/goalPolicy.ts:14-35 | Two goals have the same signed payload exactly when repository, title words and evidence sets agree |
| `ProjectTypes.SameIdentityIff` | src/domain/projectManager/analysisPolicy.ts:40-41 | Two identities are equal exactly when kind and normalised reference are |
| `AnalysisPolicy.ValidateGoal` | src/domain/projectManager/analysisPolicy.ts:161-208 | Appends violations, none exactly when the goal is within all bounds |
| `AnalysisPolicy.AssertProjectAnalysisWithinPolicy` | src/domain/projectManager/analysisPolicy.ts:242-292 | Accepts exactly the analyses within the declared policy |
| `AnalysisPolicy.CountMaterializableGoals` | src/domain/projectManager/analysisPolicy.ts:356-361 | Counts every goal a replan would create |
| `AnalysisPolicy.AssertProjectReplanWithinPolicy` | src/domain/projectManager/analysisPolicy.ts:344-386 | Accepts exactly the replans within the declared policy, against the goals under way |
| `AnalysisPolicy.ValidateStrategyOpportunity` | src/domain/projectManager/analysisPolicy.ts:393-462 | Appends violations, none exactly when the opportunity is within bounds, has evidence, and supports its next step |
| `AnalysisPolicy.ValidateOpportunities` | src/domain/projectManager/analysisPolicy.ts:533-541 | None exactly when all are sound and ids are unique; the map finds an opportunity for every id |
| `AnalysisPolicy.HasEvidenceOverlap` | src/domain/projectManager/analysisPolicy.ts:43-49 | True exactly when some evidence is the same |
| `AnalysisPolicy.ValidateTrace` | src/domain/projectManager/analysisPolicy.ts:581-628 | The checks with effective risk and priority accept exactly what the policy says of the goal's own risk and priority |
| `AnalysisPolicy.AssertProjectStrategyWithinPolicy` | src/domain/projectManager/analysisPolicy.ts:487-636 | The collecting loops accept exactly the declarative policy: unique ids, every goal traced to a pursued opportunity with overlapping evidence and no lower risk or priority, high-risk limits, all bounds |
| `GoalStore.RunKeepsValid` | src/domain/projectManager/store.ts:206-464 | Any run of operations keeps the store valid, histories only grow, and no completed, rejected or stale goal changes status |
| `GoalStore.ReachableStore` | src/domain/projectManager/store.ts:527-544 | In every reachable store, replaying a goal's audit events gives its status |
| `GoalStore.MoveAcceptedIff` | src/domain/projectManager/store.ts:285-411 | The status guards accept a move exactly when the audit history can be continued by it |
| `GoalStore.HistoryContinuesIff` | src/domain/projectManager/store.ts:503-513 | A history continues with a move exactly from the statuses the guard names |
| `GoalStore.CreateGoalsKeepsValid` | src/domain/projectManager/store.ts:206-253 | A batch keeps the store valid: no two open goals of a repository share a signature |
| `GoalStore.DraftIsSuppressedIff` | src/domain/projectManager/store.ts:515-525 | An open goal with the same words and evidence suppresses a draft; with a digest that does not collide, nothing else does |
| `GoalStore.RepeatedBatchCreatesNothing` | src/domain/projectManager/store.ts:206-253 | Repeating a batch creates nothing, even reworded in case, spacing, evidence order, repetition and padding |
| `GoalStore.InMemoryProjectManagerStore.CreateGoalsFromAnalysis` | src/domain/projectManager/store.ts:206-253 | The loop does what the specification does, duplicates within the batch included |
| `GoalStore.InMemoryProjectManagerStore.TransitionGoal` | src/domain/projectManager/store.ts:285-411 | Succeeds exactly from an allowed status, with one event; otherwise changes nothing |
| `GoalStore.InMemoryProjectManagerStore.RecordGoalReplanClassification` | src/domain/projectManager/store.ts:420-439 | One event on an existing goal, no status change |
| `GoalStore.InMemoryProjectManagerStore.LinkGoalTask` | src/domain/projectManager/store.ts:441-464 | Linking again returns the link there is |
| `GoalStore.InMemoryProjectManagerStore.ListGoals` | src/domain/projectManager/store.ts:255-279 | Exactly the matching goals, each once |
| `ReplanSnapshot.LatestByTimeIsLast` | src/domain/projectManager/replanSnapshot.ts:71-80 | The only record with the greatest time that no later record equals |
| `ReplanSnapshot.TaskIdsFromLinks` | src/domain/projectManager/replanSnapshot.ts:160-174 | Every linked task id once |
| `ReplanSnapshot.CollectLinkedTasks` | src/domain/projectManager/replanSnapshot.ts:212-228 | For a linked task the result is the direct lookup, whatever was listed and however little |
| `ReplanSnapshot.CollectProjectReplanSnapshot` | src/domain/projectManager/replanSnapshot.ts:190-262 | Exactly the goals under way, each with all its links, the tasks they lead to and its whole history; and the repository's newest analysis |
| `ReplanSnapshot.PreviousIsLatest` | src/domain/projectManager/replanSnapshot.ts:144-158 | The previous analysis is the repository's, none of the repository is newer and none after it as new; there is none exactly when the repository has none |
| `ProjectManager.FinishedIffLooksFinished` | src/domain/projectManager/orchestrator.ts:468-492 | What the snapshot calls finished is finished: a missing task or one of another repository keeps the goal open |
| `ProjectManager.LoopEffect` | src/domain/projectManager/orchestrator.ts:407-418 | Wherever the loop stops, a goal is untouched, classified, or completed when finished and told to |
| `ProjectManager.LoopRecordsAll` | src/domain/projectManager/orchestrator.ts:407-418 | A loop that does not fail leaves exactly the classifications of a goal in its history, in order |
| `ProjectManager.NewGoalsAreDrafts` | src/domain/projectManager/store.ts:206-253 | A goal a batch created holds one of its drafts |
| `ProjectManager.LoopFailsIff` | src/domain/projectManager/orchestrator.ts:407-418 | An accepted replan fails in the loop exactly when it completes a finished goal twice |
| `ProjectManager.FinishedGoalCompletedTwiceFails` | src/domain/projectManager/orchestrator.ts:407-418 | For every finished goal with an id the policy allows, the plan that says twice it is completed is accepted, completes the goal, and fails |
| `ProjectManager.AcceptedPlanIsBounded` | src/domain/projectManager/orchestrator.ts:370-426 | An accepted plan creates at most maxGoalsPerRun goals and changes others only as allowed |
| `ProjectManager.OutcomeIsBounded` | src/domain/projectManager/orchestrator.ts:327-452 | The same for every outcome, failures included |
| `ProjectManager.ProjectManagerOrchestrator.CompleteGoalWhenSafe` | src/domain/projectManager/orchestrator.ts:468-492 | Completes exactly a goal that is told to be and finished |
| `ProjectManager.ProjectManagerOrchestrator.ApplyClassifications` | src/domain/projectManager/orchestrator.ts:407-418 | The loop does what the specification does, up to the call that throws |
| `ProjectManager.ProjectManagerOrchestrator.RunReplanOnce` | src/domain/projectManager/orchestrator.ts:327-452 | Succeeds exactly when everything answers, the policy accepts, and no finished goal is completed twice; stays within the bounds either way; its record never stays started |
| `Alerts.RecentKeeps` | src/observability/alerts.ts:223 | The recent times are all those inside the window, each as often as it occurs |
| `Alerts.PrunedWindowIsEnough` | src/observability/alerts.ts:216-227 | With a clock that does not go back, pruning the pruned window is pruning the whole history |
| `Alerts.FailuresStep` | src/observability/alerts.ts:216-227 | Pushing a failure keeps every window what the history says |
| `Alerts.SameFailureKeyIff` | src/observability/alerts.ts:170-182 | For repositories without a colon in their names: failures share a window exactly when repository and gate are the same, a missing gate counting as "unknown" |
| `Alerts.ColonSharesFailureKey` | src/observability/alerts.ts:170-182 | With a colon in a name, the failures of two repositories can share a window |
| `Alerts.LastAcceptedDecides` | src/observability/alerts.ts:265-279 | The last accepted time of a key decides about all accepted alerts of it |
| `Alerts.AcceptKeepsSpaced` | src/observability/alerts.ts:265-279 | Accepting an alert that is no repeat keeps equal keys a window apart |
| `Alerts.BasicAlertService.Evaluate` | src/observability/alerts.ts:144-214 | The alerts of an event are those due on counts over all earlier events |
| `Alerts.BasicAlertService.SendWithDedup` | src/observability/alerts.ts:265-306 | Filtered exactly when less severe than the minimum; deduped exactly when an alert with the key was accepted less than the window ago; accepted ones stay a window apart |
| `Alerts.BasicAlertService.RecordEvent` | src/observability/alerts.ts:129-138 | Raises exactly the due alerts, in order, and keeps all of the above |
| `Alerts.BasicAlertService.ListRecent` | src/observability/alerts.ts:140-142 | The latest alerts ever raised, newest first, between one and fifty |
| `Metrics.SameSeriesIff` | src/observability/metrics.ts:31-49 | For all labels handed in, values without NUL: two points share a series exactly when their sanitised names agree and every sanitised label name has the same last value |
| `Metrics.NulInValueCollides` | src/observability/metrics.ts:42-46 | A value containing NUL makes two label sets share a key |
| `Metrics.SanitizeMetricName` | src/observability/metrics.ts:28-29 | Every character that is not allowed becomes an underscore, and every other stays |
| `Metrics.NormalizeLabels` | src/observability/metrics.ts:31-40 | Names that sanitise alike share one label |
| `Metrics.NormalizedLabelIff` | src/observability/metrics.ts:31-40 | A label is there exactly when it is the last defined value of its sanitised name |
| `Metrics.NameOfSeriesKey` | src/observability/metrics.ts:148-150 | The sanitised name can be read off a key |
| `Metrics.ThreePassesAreOne` | src/observability/metrics.ts:51-52 | The three replacements are one single-pass escape |
| `Metrics.QuotedValueReadsBack` | src/observability/metrics.ts:54-60 | A rendered label value is read back up to its closing quote, wherever it stands |
| `Metrics.BucketsAreCumulative` | src/observability/metrics.ts:110-119 | Buckets are nondecreasing and at most the count |
| `Metrics.BucketsByName` | src/observability/metrics.ts:62-73 | Which buckets a series has, by the part of its name that decides |
| `Metrics.InMemoryMetricsRegistry.Observe` | src/observability/metrics.ts:110-119 | One more value: every bucket again counts all values at or below its bound, and sum and count follow |
| `Metrics.InMemoryMetricsRegistry.ObserveHistogram` | src/observability/metrics.ts:92-119 | Every series summarises exactly its observations, and other series are untouched |
| `PriorityQueue.DeadlineByMidnight` | src/domain/priorityQueue.ts:33-60 | Overdue exactly when a midnight has passed since the deadline, due today exactly within one day, else nothing |
| `PriorityQueue.PriorityAdds` | src/domain/priorityQueue.ts:96-128 | A priority adds exactly its configured weight, whatever its case and padding, an unknown one nothing |
| `PriorityQueue.DeadlineAdds` | src/domain/priorityQueue.ts:36-60 | A deadline adds exactly the boost for overdue, the boost for due today, or nothing |
| `PriorityQueue.TagAdds` | src/domain/priorityQueue.ts:62-66 | One more tag, wherever it stands, adds exactly its boost |
| `PriorityQueue.ComponentAdds` | src/domain/priorityQueue.ts:62-66 | One more component adds exactly its boost |
| `PriorityQueue.OverrideTagAdds` | src/domain/priorityQueue.ts:68-111 | The first tag that overrides by hand adds ten thousand on top, and gives back what a low confidence had cost |
| `PriorityQueue.ConfidenceAdds` | src/domain/priorityQueue.ts:76-94 | An analysis adds its confidence by weight, less its distance to 50 when below and not overridden |
| `PriorityQueue.OverrideOutranks` | src/domain/priorityQueue.ts:68-128 | With a weight that is not negative, an issue overridden by hand outranks any other that scores less than ten thousand more on the rest |
| `PriorityQueue.ConfidenceMonotoneIff` | src/domain/priorityQueue.ts:76-94 | The confidence term never falls with confidence, exactly when the weight is not negative |
| `PriorityQueue.RankingIsTotal` | src/domain/priorityQueue.ts:133-156 | The comparator is a total order |
| `PriorityQueue.RankingForgetsOrder` | src/domain/priorityQueue.ts:133-156 | The ranking is a permutation in which whoever comes earlier has the higher total, at equal totals the earlier creation (the later if the newest go first), then the smaller key, then the smaller repository; the same for every input order when issue and repository identify a candidate |
| `Fleet.Collector.CollectCandidates` | src/domain/fleetOrchestrator.ts:218-315 | The nested loops look at exactly the listed issues, each where it is first listed, and keep exactly those that can be taken, each once; of the repository leases shown under one key the last counts |
| `Fleet.InListed` | src/domain/fleetOrchestrator.ts:223-232 | The order in which the loops list issues has exactly the issues some queue and tag of a repository shows |
| `Fleet.MatchesIffServes` | src/domain/fleetOrchestrator.ts:49-70 | A repository is asked about an issue exactly when it serves the issue's queue (the one given, or what the key has before the first dash) and one of its tags, if it has any |
| `Fleet.AvailableIffFree` | src/domain/fleetOrchestrator.ts:317-328 | A repository is available exactly when another worker holds it, if anybody does, only for the very issue |
| `Fleet.LastShownDecides` | src/domain/fleetOrchestrator.ts:241-252 | A key has the lease of the last issue that shows one under it, and none exactly when no issue does |
| `Fleet.ContendersAreDistinct` | src/domain/fleetOrchestrator.ts:233-238 | No two collected candidates are the same issue for the same repository |
| `Fleet.ContenderRankingIsCanonical` | src/domain/fleetOrchestrator.ts:149-154 | So they are ranked the same way in whatever order they were found |
| `Fleet.RunOnce` | src/domain/fleetOrchestrator.ts:128-183 | Idle exactly when nothing can be taken; else the candidate that runs has its leases and a total at least that of every one not refused, ties going to the earlier creation (or later), then the smaller key, then the smaller repository; or all were refused. Availability goes by the lease last shown under each key |

## Left out

- HTTP clients, Codex and git processes, the filesystem, Postgres, timers and signals: their answers are arbitrary.
- Codex is taken to edit and commit only on the branch it was put on, and a review or a gate command not to edit the tree.
- The tracker is taken to answer `createIssue` with a key not in use; a repeated key counts as a failure.
- Comment text, its formatting and its parsing: comments are values, and a log's order stands for creation times.
- Target-issue mode, shutdown, sleeping, telemetry, terminal outcomes, memory files, prompts, images and merge request texts.
- `src/domain/internalWorkerOrchestrator.ts`: mirrors the direct worker over a different tracker.
- Repository exclusion across issues: repository leases are looked up per issue, so the backend alone does not give it.
- Renewals that race with expiry: in the lease protocol a renewal is one step.
- `LeaseAcquisition.AllOrNothingIff`: nobody else writes to the two slots and no lease expires during the acquisition; `LeaseAcquisition.AllOrNothingWhateverOthersDo` drops that.
- `TaskRun.WorkerOrchestrator.RunOnce`: the leases of a cycle are arbitrary answers, so what is proved of it holds whatever the lease protocol answers; and during a cycle people edit only the issue under intake review, without moving it to another status.
- The lease backend and the heartbeat wrapper are steps on values, since their calls interleave; the update of fields in place is not modelled there.
- `LeaseHeartbeat.EveryTokenReleasedOnce`: a release is one attempt; whether the tracker kept it is not modelled.
- The other values of the configuration; of the heartbeat setting, what `Number.parseInt` makes of a text.
- `TaskHistory.ReviewsHandedOnceOverHistory`: cycles of different workers follow one another; two at once on one issue are what the leases are for.
- Interference with a replanning run by other users of the store: the run is taken as one sequence of store calls.
- `runAnalysisOnce` and `runStrategyOnce`: the same steps as the replanning run without its loop.
- Actors, reasons and times on goals, events and links; run and analysis ids are positions, goal ids any unused text.
- `ReplanSnapshot.CollectProjectReplanSnapshot`: project signals and the texts and counts of linked tasks (summaries, blockers, failures) are not part of the snapshot; only id, repository and status decide.
- Violations are named by rule; their texts and paths are not modelled.
- SHA-256 is an arbitrary function of the payload; where collisions matter the lemma says so.
- ISO times are integers or ordered text, scores and sums exact reals, and `localeCompare` any total order.
- Case folding and whitespace are those of ASCII.
- Counters, gauges and the rendering of whole metric pages: a map assignment and concatenation.
- Alert texts, redaction and the delivery by sinks; a sink's failure is an arbitrary answer.
- Candidate identity `name:key` is the pair; alert keys are records instead of joined text.
- Dependency resolution of issues: whether an issue's dependencies are done is an arbitrary answer.
