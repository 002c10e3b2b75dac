# osq watcher: verified model

osq keeps the whole state of its watcher in files: approval seals, task locks, done, dead and
regressed markers, append-only event logs. An async loop reads them, starts agents, and can be
killed and restarted at any moment. This project models the parts of that loop whose promises are
about whole runs, and proves the promises for every input and every interleaving of steps; where the
source writes in several steps, a kill may fall between any two of them.

| file | what it models |
|---|---|
| `ArchiveTransaction.dfy` | archiving a change: the undo record, the spec and sidecar writes, the gates, restore; a crash is a write budget that runs out |
| `SpecText.dfy`, `SpecReader.dfy` | a capability spec as lines: code fences, blank runs, how it is read into blocks and written back; the loops that do it |
| `DeltaMerge.dfy` | merging one capability's delta: renames, removals, modifications, additions, each of which may refuse it |
| `MergeAgain.dfy`, `OpenFences.dfy` | what merging the same delta again comes to, where the written text reads back as its blocks and where a fence hides some |
| `TreeGuard.dfy`, `SteerRun.dfy` | rebuilding a working tree from two status listings and HEAD; the planner run on top of it |
| `RetryBudgets.dfy` | automatic retry of dead tasks, its two budgets, the stuck rule and the provider wait, with the retry transition cut at any write |
| `CommitCatchUp.dfy` | retrying refused commits of a worktree change and of an archived one |
| `WatcherOnce.dfy` | the single run with its archiving, which ends whatever the agents do |
| `ChangeLanes.dfy`, `ContinuousMode.dfy` | the lane table as an object; the continuous watcher as a transition system over it |
| `ScopeAudit.dfy` | the scope audit and recertification over chains of measured hashes |
| `TaskPipeline.dfy` | task attempts that may throw or be killed at any step: change-level verify reruns, lock and records |
| `RepoCounts.dfy` | line totals from git's listing and a stored blob index, or from a walk |
| `Heartbeat.dfy`, `LineReaders.dfy` | incremental counters, three line readers, and the promise chains behind them |
| `ScenarioHelper.dfy` | the scenario test helper |
| `OwnFolderGate.dfy`, `Checkboxes.dfy`, `ChangeIds.dfy` | the comment blanker, checkbox ticking, change ids |
| `Supervisor.dfy` | the restart state machine of the background service |
| `Wrappers.dfy`, `Text.dfy`, `Order.dfy`, `Sums.dfy` | optional values, splitting and joining text, sorted path lists, sums |

Objects the source updates in place are classes here and its loops are loops; expressions are
functions. What comes from outside (an agent's edits, a verify's result, git, the clock, the order in
which promises settle) is a parameter, so every theorem holds for all of it.

## Where the code promises less than it seems to

The code is modelled as it is. Where a natural promise fails, the exact condition is proved.

- Archive undo: the record covers the capabilities in the change's own `specs/`, while created
  sidecars are named by the proposal. A restore gets every file back exactly when no create names
  another capability that has a spec and no sidecar (`UndoneIffNoStray`, `StrayCreateLeaks`).
- Archive commit: between dropping the record and the rename nothing can be undone, and each attempt
  that dies there applies the change once more (`RunHistory`). The second application starts from the
  text the first one wrote, and that text reads back as its blocks exactly when no part of it but the
  very last leaves a code fence open (`SpecText.ReadsBackIff`). A change that renames no requirement and
  whose merged specs are all like that is in the archived tree exactly once: merging it again changes
  nothing, or throws exactly when its own text says so (`AppliedAgain`, `AcceptedAgainIff`,
  `MergeAgain.MergedAgain`); closed fences in the specs and the delta are enough (`ClosedTextsSettle`).
- Open fences: where one stays open, the next merge takes everything after it for the open block's text.
  An accepted one gives the same file exactly when the delta gives that block afresh and all that follows
  it is text the delta adds, in its order (`OpenFences.OpenMergedTwiceIff`). Otherwise requirements are
  dropped or taken into another without an error, so that a lost attempt can cost a requirement the
  change never mentions (`OpenFenceLoses`, `OpenFenceIsNotOnce`). A fence open before the requirements
  can empty a capability that the next merge writes (`EmptiedThenWritten`). An open fence that later text
  closes need not change anything (`OpenYetTheSame`).
- Renames: a second merge can be accepted and differ, as three renames that swap two names do
  (`TwiceIsNotOnce`); for settled files it is exact when an accepted one gives the same file
  (`MergeAgain.MergedTwiceIff`) and the same tree (`AppliedTwiceIff`). A death between the archive's
  rename and its event leaves an archived change without that event for good (`Relocate`).
- Tree guard: putting back a path that was clean needs `discard`, which refuses outside a linked
  worktree. The guard fails exactly when such a path exists there (`RestoreTreeExcept`).
- Planner report: a file under a nested `.run` folder is kept and never reported
  (`NestedRunFolderGoesUnreported`).
- Retry budgets: the retry renames the dead marker several writes before it appends the event both
  budgets are counted from. A kill in between retries the task and counts nothing, though a comment
  calls the rename the commit point that loses no retry (src/watcher/loop.ts:201-202). Within one log
  the budgets hold; the retries made are at most both budgets plus those lost to such kills, which
  nothing bounds (`TaskRun.Run`, `KillsBeatTheBudgets`), and the log counts a retry exactly when the
  last write was made (`CountedIffRecorded`).
- Commit catch-up: the same holds for a halt marker and its event (`KillsBeatTheBudget`). Apart from
  such kills, reaping a stopped lock of a change already halted is the one way past the budget plus one
  (`CommitCatchUp.WorktreeChange.Run`), and nothing bounds it (`ReapingBeatsTheBudget`). A catch-up leaves
  an archive's commit undone under every later catch-up exactly when a kill falls between the rename of
  its marker and the commit, or the commit's refusal spends the budget (`KilledBeforeTheCommit`).
- Pipeline: failures returned inside the `try` without being awaited race with the lock's release. The
  record precedes the release in every order exactly when it is awaited or comes before the lock
  (`DeadBeforeFreeIff`); otherwise a kill can leave neither lock nor record (`VanishesIff`,
  `RedVerifyVanishes`).
- Stream parser: a handler that throws before it returns a promise rejects the chain, and no later line
  is handled (`PromiseChain`); a rejected promise stops nothing.
- Supervisor: the doubling formula holds for every restart exactly when the first delay is at most the
  longest one (`WaitIsCappedIff`). A stop is final exactly when no handler is between its awaits as it
  lands; otherwise, and even from a crash handler that sets its timer after the old one was cancelled,
  one more worker can start (`StopIsFinalIff`).

## Model

| member | source | states |
|---|---|---|
| `ArchiveTransaction.UndoneIffNoStray` | src/watcher/archive-specs.ts:38-102 | putting the recorded files back after a whole accepted application gives the original living files if and only if no create strays outside the record |
| `ArchiveTransaction.DeltasAreUndone` | src/watcher/archive-specs.ts:38-102 | whatever delta throws, putting the recorded files back after the ones before it gives the original files |
| `ArchiveTransaction.StrayCreateLeaks` | src/watcher/archive-sidecars.ts:37-51 | a proposal can create a sidecar the record does not cover, and it survives the restore |
| `ArchiveTransaction.TwiceIsNotOnce` | src/watcher/archiver.ts:66-92 | a change that swaps two requirement names is accepted every time, and a second application gives the original tree back |
| `ArchiveTransaction.OpenFenceIsNotOnce` | src/watcher/archiver.ts:66-92 | a change without renames that leaves a fence open is accepted twice, and twice is not once |
| `ArchiveTransaction.AcceptedAgainIff` | src/core/spec/apply-deltas.ts:43-81 | applied to its own result, a settled change without renames throws exactly when the delta of a spec that is still there refuses itself |
| `ArchiveTransaction.AppliedAgain` | src/core/spec/apply-deltas.ts:43-81 | such a change leaves its own result, specs and sidecars, exactly as it is |
| `ArchiveTransaction.AppliedTwiceIff` | src/core/spec/apply-deltas.ts:43-81 | any settled change accepted twice leaves its own result as it is exactly when every spec it left comes out with the same names, each that moves moving onto the text it had |
| `ArchiveTransaction.KillsCostNothing` | src/watcher/archiver.ts:66-92 | any number of lost attempts of such a change come to one application |
| `ArchiveTransaction.AppliedStaysInside` | src/watcher/archive-sidecars.ts:29-67 | without a stray create, deltas and sidecars touch recorded files only, and stay so on the result |
| `ArchiveTransaction.Workspace.Restore` | src/watcher/archive-specs.ts:72-102 | a restore cut at any write touches recorded files only and keeps the record; a finished one gives exactly the recorded content and drops it |
| `ArchiveTransaction.Workspace.ApplyDeltas` | src/core/spec/apply-deltas.ts:43-81 | every delta is merged in order up to the first that throws; stopped anywhere, only spec files and sidecars of the change's capabilities were touched |
| `ArchiveTransaction.Workspace.ApplySidecars` | src/watcher/archive-sidecars.ts:29-67 | creates then replacements, as the functions over living files say, stopping anywhere inside the recorded files |
| `ArchiveTransaction.Workspace.ApplyArchiveSpecs` | src/watcher/archive-specs.ts:38-60 | wherever it dies or throws, the original stays recoverable; otherwise the change is applied and both files of every capability recorded |
| `ArchiveTransaction.Workspace.Relocate` | src/watcher/archiver.ts:61-113 | archives only after the record is gone and tells every death apart; a whole archive has its event, and a task list that is ticked and still has the approved form |
| `ArchiveTransaction.Workspace.CheckAndArchive` | src/watcher/archiver.ts:139-216 | archived means every gate was green in this attempt and the change is applied once to the base; refused means the base is back untouched; thrown means some delta refuses, with the base recoverable |
| `ArchiveTransaction.Workspace.RunHistory` | src/watcher/archiver.ts:139-216 | over any history of attempts, red gates, refused deltas, restores and crashes the original stays recoverable until archived; the archived tree has the change applied once plus once per attempt lost after the record, all accepted, and just once when it renames nothing and settles |
| `ArchiveTransaction.Workspace.RecoverAfter` | src/watcher/archive-specs.ts:67-102 | after any number of interrupted restores one whole restore brings the original back |
| `SpecText.TidyKeeps` | src/core/spec/delta.ts:615-636 | collapsing blank runs keeps the fences, hides and shows no heading, and keeps the scenarios |
| `SpecText.TidyTwice` | src/core/spec/delta.ts:615-636 | collapsing twice is collapsing once |
| `SpecText.ReadFormed` | src/core/spec/delta.ts:315-362 | any text reads as blocks without headings outside their fences; with a requirements section, no part but the last leaves a fence open |
| `SpecText.PrintsClosed` | src/core/spec/delta.ts:793-822 | a file whose fences are closed between its parts is written as its parts, each collapsed on its own |
| `SpecText.ReadsBackIff` | src/core/spec/delta.ts:793-822 | a merged file reads back as the parts that were written if and only if no part but its very last leaves a fence open |
| `SpecText.ReadsOpen` | src/core/spec/delta.ts:127-148 | when a block's fence stays open, the file reads back with all that follows as that block's text |
| `SpecText.FirstBlockSeen` | src/core/spec/apply-deltas.ts:20-27 | a file with blocks whose text before them is closed never reads as empty |
| `SpecReader.BuildCodeFenceMask` | src/core/spec/delta.ts:127-148 | the mask is true exactly on lines that open a fence or stand in an open one |
| `SpecReader.CollapseBlankRuns` | src/core/spec/delta.ts:615-636 | the loop over that mask is the collapse the lemmas are about |
| `SpecReader.ParseBlocks` | src/core/spec/delta.ts:381-419 | the cursor finds exactly the blocks of the section, each trimmed at its end |
| `SpecReader.ExtractRequirementsSection` | src/core/spec/delta.ts:315-362 | the indexed search over one mask gives the parts the lemmas are about |
| `SpecReader.MissingScenarioNames` | src/core/spec/delta.ts:639-667 | the names listed, with their number, are the current scenarios less the incoming ones |
| `DeltaMerge.MergeLivingSpec` | src/core/spec/apply-deltas.ts:20-27 | reading, the four loops in their order, writing and reading again give the merge the lemmas below are about |
| `DeltaMerge.MergeContext.ApplyRenames` | src/core/spec/delta.ts:697-721 | each rename moves one block in place, and throws without its source or with its target there |
| `DeltaMerge.MergeContext.ApplyModifications` | src/core/spec/delta.ts:735-757 | each modification replaces one block, and throws when it is missing or would lose a scenario |
| `DeltaMerge.MergeContext.ApplyAdditions` | src/core/spec/delta.ts:759-785 | each addition is new, or skipped when equal, and throws on a different block or a near miss of a name |
| `DeltaMerge.MergeContext.Recompose` | src/core/spec/delta.ts:793-822 | the blocks in the file's order, then the new ones in theirs |
| `DeltaMerge.MergeAcceptsIff` | src/core/spec/delta.ts:828-864 | a merge throws exactly when the delta is unreadable, its renames do not fit the names, or some guard fails on the blocks it started from |
| `MergeAgain.ClosedTextsSettle` | src/core/spec/delta.ts:828-864 | a spec and a delta that leave no fence open merge to a settled file |
| `MergeAgain.MergedAgain` | src/core/spec/delta.ts:828-864 | without renames a second merge of a settled file gives the same file, or throws exactly when the delta removes a name it does not add again, removes one twice, modifies one requirement with different scenario lists, or adds an untidy block it neither removes nor modifies |
| `MergeAgain.EmptiedAgain` | src/core/spec/apply-deltas.ts:20-27 | on a capability it emptied a delta throws exactly when it renames, modifies or adds names that differ in case or spacing alone; with a closed purpose it leaves the capability empty exactly when it adds nothing, as a settled one does |
| `MergeAgain.MergedTwiceIff` | src/core/spec/delta.ts:793-864 | for any delta and settled files a second merge that is accepted gives the same file exactly when the names, computed from the names alone, come out the same and every name the renames move, whose text the delta does not give, moves onto the text it had |
| `MergeAgain.RenamedAgain` | src/core/spec/delta.ts:697-721 | a second merge that is accepted and drops no name gives the same settled file exactly when the renames take every name back to itself |
| `MergeAgain.RenamedOnce` | src/core/spec/delta.ts:697-721 | a second merge of a settled file throws unless the delta itself brings back the first name it renames away |
| `MergeAgain.SwapTwice` | src/core/spec/delta.ts:697-721 | three renames that swap two names are accepted twice, and twice gives the first file back |
| `OpenFences.OpenMergedTwiceIff` | src/core/spec/delta.ts:793-864 | where a fence stays open, an accepted second merge gives the same file exactly when the delta gives the open block afresh and only its additions follow; the names and the open block it writes instead are stated |
| `OpenFences.OpenFenceLoses` | src/core/spec/delta.ts:735-757 | a requirement the delta never mentions is dropped by the second merge, with nothing refused |
| `OpenFences.EmptiedThenWritten` | src/core/spec/apply-deltas.ts:20-27 | a fence open before the requirements empties the capability first and lets the next merge write it |
| `OpenFences.OpenYetTheSame` | src/core/spec/delta.ts:127-148 | a merge that does not read back as its blocks, and still gives the same file twice |
| `TreeGuard.StatusSuffices` | src/watcher/validator-guard.ts:54-68 | two status listings against one HEAD disagree on exactly the paths whose content changed |
| `TreeGuard.Compare` | src/watcher/validator-guard.ts:93-109 | lists the changed paths outside `keep` in order, each once, split into those to rewrite and those to discard |
| `TreeGuard.Repo.TreeState` | src/watcher/validator-guard.ts:54-61 | every path that differs from HEAD with its bytes, or none when missing |
| `TreeGuard.Repo.RestoreTreeExcept` | src/watcher/validator-guard.ts:87-114 | every path not kept holds its earlier bytes and the result is exactly the changed ones; refused exactly when a formerly clean path needs a discard that is not allowed |
| `SteerRun.PlanPathsAreKept` | src/watcher/auto-steer-run.ts:34-44 | every file the plan report can name is one the guard leaves alone, and none is a run file |
| `SteerRun.KeptUnreported` | src/watcher/auto-steer-plan.ts:14-39 | corollary of the two predicates: a kept path goes unreported exactly when a `.run` segment lies below the top or comes last |
| `SteerRun.NestedRunFolderGoesUnreported` | src/watcher/auto-steer-plan.ts:14-27 | every file under a nested `.run` folder is such a path |
| `SteerRun.PlannerRun.SnapshotPlanFiles` | src/watcher/auto-steer-plan.ts:35-39 | the walk finds exactly the folder's files with no `.run` segment |
| `SteerRun.PlannerRun.DiffPlanFiles` | src/watcher/auto-steer-plan.ts:48-64 | lists exactly the plan files added, removed or changed, sorted |
| `SteerRun.PlannerRun.SpawnGuarded` | src/watcher/auto-steer-run.ts:54-70 | whatever the planner does, only kept paths keep its edits, and both lists are exact |
| `SteerRun.PlannerRun.ExecuteRun` | src/watcher/auto-steer-run.ts:54-100 | the tree ends as before except plan files, planner events, the record and one appended change event |
| `RetryBudgets.LaterOf` | src/watcher/provider-retry.ts:50-54 | one of the two times, no earlier than either, tolerating either being absent |
| `RetryBudgets.LastManualRetryAt` | src/watcher/provider-retry.ts:57-65 | the loop finds the latest manual retry of the log |
| `RetryBudgets.LatestManualIsGreatest` | src/watcher/provider-retry.ts:57-65 | that time is attained by a manual retry, exceeded by none, and absent only when there is none |
| `RetryBudgets.LatestDeadAt` | src/watcher/provider-retry.ts:83-91 | the loop finds the latest death |
| `RetryBudgets.LatestDeadIsGreatest` | src/watcher/provider-retry.ts:83-91 | no timed death of the log is later |
| `RetryBudgets.AutomaticRetriesSince` | src/watcher/provider-retry.ts:68-80 | counts the non-provider automatic retries not before the cutoff |
| `RetryBudgets.ProviderRetriesSince` | src/watcher/provider-retry.ts:94-107 | counts the provider automatic retries not before the cutoff |
| `RetryBudgets.HighestRetained` | src/watcher/auto-retry.ts:52-72 | the loop keeps the first entry of the highest ordinal |
| `RetryBudgets.NewestIsHighest` | src/watcher/auto-retry.ts:58-68 | that entry is one of the retained ones and none has a higher ordinal |
| `RetryBudgets.DecideProviderRetry` | src/watcher/provider-retry.ts:128-137 | yes exactly when the provider budget has something left and the wait since the latest death has passed |
| `RetryBudgets.DecideDeadTask` | src/watcher/auto-retry.ts:112-164 | retried, stuck or left exactly under the stated conditions, with the whole new state of markers and log |
| `RetryBudgets.RunAutomaticRetries` | src/watcher/auto-retry.ts:171-202 | every dead task is decided on its own files and the count is exact; a limit of zero changes nothing |
| `RetryBudgets.WhoIsNeverRetried` | src/watcher/auto-retry.ts:130-138 | a provider death is never stuck and never retried before its wait; another death that repeats the newest retained failure is never retried |
| `RetryBudgets.RetriedDeathIsNewest` | src/core/lifecycle/retry.ts:155-159 | a retried failure takes a fresh highest ordinal, so the same failure again is stuck |
| `RetryBudgets.BudgetsStayApart` | src/core/lifecycle/retry.ts:151-154 | a retry raises its own budget's count by one and not the other's, or the reverse exactly when a regression of the other kind is active; the cutoff does not move |
| `RetryBudgets.NeverCrosses` | src/watcher/regression.ts:76-78 | on a task that has only been attempted, reaped, audited, archived and retried, no such regression is ever active |
| `RetryBudgets.SufferedStaysSound` | src/watcher/archive-verify.ts:40-93 | whatever happens to a task, and however it is cut short, only a done task is regressed and a task dead of an outage is not done |
| `RetryBudgets.CountedIffRecorded` | src/core/lifecycle/retry-transition.ts:32-71 | cut at any write, a retry has happened once the dead marker is renamed, and the log counts it exactly when the event was appended as well |
| `RetryBudgets.RetryStaysWithin` | src/watcher/auto-retry.ts:139-152 | a permitted retry keeps both counts covered by the log and within their budgets |
| `RetryBudgets.TaskRun.Pass` | src/watcher/auto-retry.ts:171-202 | one automatic pass over a task, cut at any write: its new files, which budget it spent, and whether it was lost to the log |
| `RetryBudgets.TaskRun.Answer` | src/core/lifecycle/retry.ts:140-240 | a human retry whose event is in the log opens both budgets again; a recertification or one that was cut short opens neither |
| `RetryBudgets.TaskRun.Run` | src/watcher/auto-retry.ts:112-164 | from a task's creation on, between two human acts each kind of retry the log counts is within its own budget, and all retries are at most both budgets plus those lost to a kill between rename and event |
| `RetryBudgets.KillsBeatTheBudgets` | src/core/lifecycle/retry.ts:210-239 | for any number there is a run under budgets of one that loses that many retries |
| `CommitCatchUp.CommitFailedCount` | src/watcher/commit-catch-up.ts:34-56 | two passes count exactly the refused commits after the last human retry of the change |
| `CommitCatchUp.WorktreeChange.Halt` | src/watcher/worktree-run.ts:85-101 | the marker, then the event; a kill between them halts the change unlogged |
| `CommitCatchUp.WorktreeChange.CommitPendingDead` | src/watcher/commit-catch-up.ts:81-102 | commits in order; the first refusal halts the change with one event, as far as the process lives |
| `CommitCatchUp.WorktreeChange.CatchUpWorktreeCommits` | src/watcher/commit-catch-up.ts:109-138 | its three cases with the whole new state, killed at any write: another halt or a spent budget changes nothing |
| `CommitCatchUp.WorktreeChange.CatchUpArchiveCommit` | src/watcher/archive-catch-up.ts:128-152 | clears the halt, tries the commit, and halts again when it is refused; killed at any write, it leaves the state the lemmas below are about |
| `CommitCatchUp.StaysUndoneIff` | src/watcher/archive-catch-up.ts:137-142 | no sequence of catch-ups commits an archive exactly when its halt is gone or its budget spent |
| `CommitCatchUp.KilledBeforeTheCommit` | src/watcher/archive-catch-up.ts:137-145 | a catch-up that tries the commit leaves it undone for good exactly when a kill falls between the marker's rename and the commit, or the refusal spends the budget |
| `CommitCatchUp.WorktreeChange.Run` | src/watcher/commit-catch-up.ts:109-138 | over any run the halts for a refused commit since the last human retry are at most the budget plus one, those of locks reaped while halted, and those a kill kept out of the log |
| `CommitCatchUp.WorktreeChange.Act` | src/watcher/worktree-run.ts:85-101 | a halt is counted past the budget exactly when a reaped lock halts a change already halted and its event is written |
| `CommitCatchUp.KillsBeatTheBudget` | src/watcher/worktree-run.ts:94-98 | for any number there is a run, under any budget, with that many halts and none of them logged |
| `CommitCatchUp.ReapingBeatsTheBudget` | src/watcher/worktree-run.ts:85-101 | for any number there is a run with that many logged halts past the first, each of a lock reaped while halted |
| `WatcherOnce.RetryPays` | src/watcher/auto-retry.ts:171-202 | a retry costs more weight than the attempt it hands back |
| `WatcherOnce.RetryPassPays` | src/watcher/auto-retry.ts:171-202 | a whole pass loses at least one unit of weight per retry it counts |
| `WatcherOnce.ReapLocks` | src/watcher/loop.ts:161-185 | each reaped lock, and nothing else, becomes a dead record |
| `WatcherOnce.NextTask` | src/core/status/state.ts:141-144 | the first task that is not done, none when all are |
| `WatcherOnce.MarkRegressed` | src/watcher/regression.ts:117-174 | exactly the stale tasks before the next one become regressed, one unit of weight each |
| `WatcherOnce.ArchiveCompletedSpec` | src/watcher/archive-change.ts:70-129 | what each result of an archive attempt leaves of the change, only a complete one being archived, and that its regressions only lower the weight |
| `WatcherOnce.RunLane` | src/watcher/change-lane.ts:187-223 | what each result leaves of the change, a pass being followed by an archive attempt, and that running a task always spends weight |
| `WatcherOnce.StartNextTask` | src/watcher/loop.ts:259-300 | a lane starts exactly when no task of the change is regressed, dead or running and one is left, and then on the first one left |
| `WatcherOnce.AdvanceChange` | src/watcher/loop.ts:303-335 | reap, decide, then start or archive: each stage's state, which retries are counted, and that counts are paid for in weight |
| `WatcherOnce.Watcher.RunWatcherCycle` | src/watcher/loop.ts:364-390 | every change not yet archived is visited once, the counts are the sums over the visits, and they are paid for in weight |
| `WatcherOnce.Watcher.RunWatcherOnce` | src/watcher/loop.ts:497-512 | for any outcomes, archiving included, and any clock that does not run backwards the run ends with its first idle cycle, having run and retried at most the initial weight; every change it archived is complete |
| `WatcherOnce.FreshWeight` | src/watcher/loop.ts:497-512 | a newly approved change weighs two per task plus three per automatic retry its budgets allow |
| `ChangeLanes.ChangeLanes.constructor` | src/watcher/lanes.ts:45-48 | the cap is the configured number rounded down, one when that is smaller or not finite |
| `ChangeLanes.MarkedWhileItRan` | src/watcher/lanes.ts:61-103 | after any run of starts, marks and ends a folder is marked exactly when it was marked while its lane ran and that very lane still runs |
| `ChangeLanes.ChangeLanes.AllSpawned` | src/watcher/lanes.ts:66-71 | yes exactly when every running lane is marked |
| `ChangeLanes.ChangeLanes.Start` | src/watcher/lanes.ts:88-103 | a folder whose lane runs keeps it; otherwise one unmarked lane is added |
| `ChangeLanes.FirstErrorKept` | src/watcher/lanes.ts:91-129 | after any run the kept error is the first one left since the last was taken |
| `ChangeLanes.ChangeLanes.Remove` | src/watcher/lanes.ts:97-101 | the lane and its mark go together, and idleness is reported exactly when none is left |
| `ChangeLanes.ChangeLanes.TakeOutcomes` | src/watcher/lanes.ts:120-122 | hands over every queued outcome and leaves none |
| `ChangeLanes.ChangeLanes.TakeError` | src/watcher/lanes.ts:125-129 | hands over the kept error and forgets it |
| `ChangeLanes.CollectLaneOutcomes` | src/watcher/loop.ts:338-344 | after each drain the summary is the total of every outcome drained so far |
| `ContinuousMode.StepKeeps` | src/watcher/loop.ts:653-691 | every step of the handler, of a lane body or of a signal keeps the table, conservation and protocol invariants |
| `ContinuousMode.OutcomeKeepsConserved` | src/watcher/lanes.ts:91-96 | an ending lane's outcome moves into the queue and nowhere else |
| `ContinuousMode.DrainKeepsConserved` | src/watcher/lanes.ts:120-122 | a drain moves every queued outcome into the summary, once |
| `ContinuousMode.ReachableStates` | src/watcher/lanes.ts:45-129 | in every reachable state the cap holds, each lane has its own folder, each result is in exactly one place, and an exit for a build found no lane running |
| `ContinuousMode.ClosedLanesSpawnNothing` | src/watcher/change-lane.ts:196-214 | once the lanes are closed only a lane past its last closed check can still spawn |
| `ContinuousMode.TopStopSpawnsNothing` | src/watcher/loop.ts:657-677 | a stop found by the check at the top of a cycle is followed by no spawn in any continuation |
| `ContinuousMode.RefusedLaneSpawnsNothing` | src/watcher/change-lane.ts:196-198 | in any run from the first state, a lane launched while the lanes are closed never spawns |
| `ScopeAudit.ReadEndSegments` | src/core/run/scope-segments.ts:20-67 | the loop applies the discarded-attempt rule to one path's measures |
| `ScopeAudit.KeptStartsDiffer` | src/core/run/scope-segments.ts:44-51 | no two neighbouring kept segments start at the same hash and the newest measure is kept |
| `ScopeAudit.PathCarriedWithoutGap` | src/watcher/auto-recertify.ts:47-65 | yes exactly when the later covering tasks' segments form an unbroken chain from the first that starts at the recorded hash to the current one |
| `ScopeAudit.ChainsCompose` | src/watcher/auto-recertify.ts:54-64 | two stretches chain end to end if and only if they meet at one hash |
| `ScopeAudit.ChangeFolder.ListLaterTasks` | src/watcher/auto-recertify.ts:36-44 | the later task files in number order |
| `ScopeAudit.ChangeFolder.AutoRecertify` | src/watcher/auto-recertify.ts:80-128 | refreshes the done record and says so exactly when some path differs and all that do were carried |
| `ScopeAudit.ChangeFolder.AuditTask` | src/watcher/regression.ts:76-175 | one task's verdict with the whole new state: record, marker, event, verify run |
| `ScopeAudit.ChangeFolder.AuditScopeRegressions` | src/watcher/regression.ts:64-177 | over distinct tasks in order: both lists, markers, events and verify runs follow from each task's verdict at the start |
| `ScopeAudit.ChangeFolder.GuardScopeRegression` | src/watcher/regression.ts:217-242 | refuses exactly when some earlier done task is stale, and names one whose marker is active |
| `ScopeAudit.EachTaskInOnePlace` | src/watcher/regression.ts:86-174 | each audited done task is current, recertified or stale, exactly one; recertified if and only if verified and carried forward |
| `ScopeAudit.UpgradeIsNeverRecertified` | src/watcher/regression.ts:90-95 | corollary: a task whose aggregate hash is equal, under another resolver version, has no differing path and is never recertified |
| `ScopeAudit.Settles` | src/watcher/regression.ts:110-151 | an audited task needs no verify the next time |
| `ScopeAudit.ChangeFolder.AuditTwice` | src/watcher/regression.ts:64-177 | a second audit of the same tree runs no verify, writes nothing and recertifies none |
| `TaskPipeline.RunChangeVerifyGate` | src/watcher/change-verify.ts:78-145 | green exactly when off or some run within the bound is green with every earlier red run unrelated; a plan conflict exactly when the last red run is one |
| `TaskPipeline.GateEndsOnce` | src/watcher/change-verify.ts:107-123 | only one run can end the gate |
| `TaskPipeline.NothingStopsTheVerified` | src/watcher/runner.ts:89-192 | no phase stops an attempt exactly when seal, lock, agent and both verifies hold and nothing throws; otherwise some phase is the first to |
| `TaskPipeline.TaskFiles.CheckBeforeLock` | src/watcher/runner.ts:89-117 | the first phase before the lock to fail or throw decides the record; a stale earlier task, found by the scope guard, or a held lock leaves none |
| `TaskPipeline.TaskFiles.PrepareSpawn` | src/watcher/runner.ts:141-150 | the baseline, the pre-spawn verify and what may throw before the agent, under the lock |
| `TaskPipeline.TaskFiles.AcceptAgent` | src/watcher/runner.ts:151-166 | the checks on the agent's work in order, a git violation only once the run itself counts |
| `TaskPipeline.TaskFiles.Leave` | src/watcher/runner.ts:73-87 | an ending under the lock: record and release in either order when the record is not awaited, each of them possibly throwing, cut by a kill anywhere |
| `TaskPipeline.TaskFiles.VerifyWork` | src/watcher/runner.ts:168-186 | success means both verifies were green under the lock, in this attempt |
| `TaskPipeline.TaskFiles.RunTask` | src/watcher/runner.ts:38-198 | success exactly when everything the done marker vouches for holds and nothing throws; killed after any step, the disk holds a prefix of the plan of the first phase to stop it, and the lock only if that prefix took it and did not free it |
| `TaskPipeline.TaskFiles.Run` | src/watcher/runner.ts:38-198 | in any run of attempts, throws, kills and reapings every done marker follows, under one uninterrupted hold of the lock, the agent and both green verifies; no lock is taken while held and no agent runs without it |
| `TaskPipeline.DoneIsVouched` | src/watcher/runner.ts:168-197 | in a trail of allowed steps each done marker has its own lock, agent and green verifies with no release in between |
| `TaskPipeline.PlanKeepsTheLock` | src/watcher/runner.ts:141-197 | an attempt leaves at most one record, takes the lock at most once and first, and frees it unless that write throws |
| `TaskPipeline.ThrowLeavesNoRecord` | src/watcher/runner.ts:141-197 | a phase that throws leaves no record and frees the lock it ran under |
| `TaskPipeline.KillLeavesAtMostTheLock` | src/watcher/runner.ts:141-197 | killed after any number of steps, an attempt leaves at most a lock it took itself, and a done marker only for a verified task |
| `TaskPipeline.DeadBeforeFreeIff` | src/watcher/runner.ts:141-197 | the record precedes the lock's release in every order of unawaited writes exactly when the check comes before the lock, is awaited, or one of the two writes throws |
| `TaskPipeline.VanishesIff` | src/watcher/runner.ts:141-197 | some order and some kill leave neither lock nor record of a failing attempt exactly when its check is under the lock and its record is not awaited or cannot be written |
| `TaskPipeline.RedVerifyVanishes` | src/watcher/runner.ts:175-177 | a red task verify is such a case |
| `RepoCounts.ParseTracked` | src/watcher/repo-counts.ts:46-62 | the loop keeps exactly the records that parse to a file entry |
| `RepoCounts.ParseTrackedRoundTrip` | src/watcher/repo-counts.ts:46-62 | parsing a written listing gives back every entry but symlinks and submodules |
| `RepoCounts.UniqueTracked` | src/watcher/repo-counts.ts:65-73 | one entry per path, the first one's blob, at stage zero exactly when all its entries are |
| `RepoCounts.CountTracked` | src/watcher/repo-counts.ts:124-151 | over the kept entries the totals are those of reading each file, and the index gains exactly the blobs it read |
| `RepoCounts.CountIndexed` | src/watcher/repo-counts.ts:134-146 | an indexed entry adds what reading its file would, reading a blob at most once |
| `RepoCounts.WalkRepoCounts` | src/watcher/repo-counts.ts:81-97 | the recursive walk adds up exactly the readable text files outside the ignored directories |
| `RepoCounts.GatherRepoCounts` | src/watcher/repo-counts.ts:114-153 | from git's two listings: with a sound index the totals are those of reading every listed path once, no blob is read again after a successful read, and the index stays sound; without a listing they are the walk's |
| `RepoCounts.Series` | src/watcher/repo-counts.ts:114-153 | over any series of runs sharing one index every run agrees with reading everything |
| `Heartbeat.PartialLineWaits` | src/watcher/heartbeat.ts:67-71 | a partial last line changes no counter |
| `Heartbeat.PartialLineCounts` | src/watcher/heartbeat.ts:67-77 | once its newline arrives the whole line counts, once |
| `Heartbeat.FreshLines` | src/watcher/heartbeat.ts:67-73 | the lines between the offset and the last newline are the new complete lines |
| `Heartbeat.Monitor.DoPoll` | src/watcher/heartbeat.ts:45-124 | a poll shows the fold over every complete line of the stream |
| `Heartbeat.Monitor.Run` | src/watcher/heartbeat.ts:45-130 | so does every poll of any interleaving of appends, polls, failed reads, clears and streams emptied |
| `LineReaders.PromiseChain.OneAtATime` | src/harness/stream.ts:74-79 | at most one handler runs, calls follow arrival order, and a drained chain without a thrown fault called them all |
| `LineReaders.EventStreamParser.DoFeed` | src/harness/stream.ts:56-64 | after any chunk the chain holds the non-blank complete lines of all text fed |
| `LineReaders.EventStreamParser.DoFlush` | src/harness/stream.ts:66-72 | a flush ends the partial line |
| `LineReaders.EventStreamParser.Run` | src/harness/stream.ts:50-80 | for any cutting and any event-loop order a drained parser handled exactly the non-blank lines in order, even when handlers reject |
| `LineReaders.ReadLines` | src/cli/mcp.ts:83-98 | for any cutting the lines delivered are those of the whole text, without an empty tail |
| `LineReaders.DeliveredLinesRebuildText` | src/cli/mcp.ts:83-98 | no character is lost between lines |
| `LineReaders.McpSession.Serve` | src/cli/mcp.ts:46-77 | tool calls run one at a time in arrival order whatever each does; other messages are answered as they come |
| `LineReaders.ReadEnd` | src/cli/remote-transport.ts:161-190 | for any cutting the output and the end are those of the whole text's lines |
| `LineReaders.LastEndWins` | src/cli/remote-transport.ts:178-188 | the reported end is that of the last line carrying one |
| `ScenarioHelper.Scenario.Complete` | src/testing/scenario.ts:68-72 | an assertion is recorded exactly when some call had settled |
| `ScenarioHelper.Scenario.ThenCheck` | src/testing/scenario.ts:83-113 | when it throws into the body, and what it records or tracks otherwise |
| `ScenarioHelper.Scenario.EachCheck` | src/testing/scenario.ts:115-143 | throws only for an unknown text or one without a table |
| `ScenarioHelper.Scenario.RowEnds` | src/testing/scenario.ts:125-139 | rows are checked in table order and a failed one rejects the check |
| `ScenarioHelper.Scenario.Reject` | src/testing/scenario.ts:75-81 | the first rejection is kept |
| `ScenarioHelper.Scenario.DrainLooks` | src/testing/scenario.ts:145-150 | the drain ends only when no tracked check is still running |
| `ScenarioHelper.Scenario.Finish` | src/testing/scenario.ts:152-158 | the verdict in its order: body error, first rejection, never ran, missing assertion, pass |
| `ScenarioHelper.Scenario.Run` | src/testing/scenario.ts:182-224 | over any interleaving a pass means the function ran, every THEN has a completed check with all its rows after a call settled, and none was rejected |
| `OwnFolderGate.BlockExtent` | src/watcher/own-folder-gate.ts:23-31 | the jump over a block comment skips exactly what the automaton calls a comment |
| `OwnFolderGate.LineExtent` | src/watcher/own-folder-gate.ts:32-38 | so does the jump over a line comment |
| `OwnFolderGate.BlankComments` | src/watcher/own-folder-gate.ts:19-42 | each character becomes what a one-character-at-a-time automaton shows of it |
| `OwnFolderGate.NewlinesStay` | src/watcher/own-folder-gate.ts:18-42 | newlines keep their positions |
| `OwnFolderGate.FindOwnFolderLines` | src/watcher/own-folder-gate.ts:57-66 | exactly the source lines whose visible text names the folder, in order |
| `OwnFolderGate.ReportedOutsideComments` | src/watcher/own-folder-gate.ts:57-66 | a reported line holds the folder in source characters outside every comment |
| `Checkboxes.TickTaskCheckboxContent` | src/watcher/outcome.ts:23-53 | the loop ticks each line under the section in force before it |
| `Checkboxes.OnlyItsMarksChange` | src/watcher/outcome.ts:40-50 | a line changes exactly when it is an unticked item of that very task, and only in its mark |
| `Checkboxes.TickTaskLaws` | src/watcher/archiver.ts:29-40 | ticking is idempotent, order-independent, invisible to the seal's normal form, and absorbed by the archive's tick in either order |
| `Checkboxes.TickLineForms` | src/core/spec/hasher.ts:54-57 | line by line, ticking and the archive's tick leave the unticked form alone |
| `ChangeIds.ParsedForms` | crates/core/src/change_id.rs:69-105 | input without surrounding Unicode whitespace: digits are a number, other names a slug or folder as asked, the rest is refused with the input as given |
| `ChangeIds.NamesAreWalked` | crates/core/src/change_id.rs:93-105 | a name is letters and digits with single dashes strictly between, read one character at a time |
| `ChangeIds.StrippedTextIsValue` | crates/core/src/change_id.rs:114-117 | stripping leading zeros and comparing text is comparing decimal values at any length |
| `ChangeIds.NumberNamesFolder` | crates/core/src/change_id.rs:119-130 | a number names exactly the folders that are digits of its value followed by nothing or a dash |
| `ChangeIds.SlugNamesFolder` | crates/core/src/change_id.rs:132-140 | a slug names exactly itself and digits, a dash and itself |
| `Supervisor.WaitIsCappedIff` | src/watcher/service.ts:186-188 | restart k waits the doubled start delay up to the longest, for every k, exactly when the start delay is within it |
| `Supervisor.WaitPastTheCap` | src/watcher/service.ts:186-188 | past the cap only the first wait is longer than the longest |
| `Supervisor.ServiceSupervisor.HandleWorkerExit` | src/watcher/service.ts:162-189 | stop, new build or crash, with the reset after a long run |
| `Supervisor.ServiceSupervisor.AfterCrashLogged` | src/watcher/service.ts:185-188 | schedules the wait of this consecutive crash and moves to the next |
| `Supervisor.ServiceSupervisor.HandleSignal` | src/watcher/service.ts:191-199 | ends a waiting supervisor with its timer, or waits for the worker |
| `Supervisor.StopIsFinalIff` | src/watcher/service.ts:132-199 | from any state, some continuation of a stop starts a worker exactly when a handler was between its awaits, and none starts two |
| `Supervisor.StepKeeps` | src/watcher/service.ts:92-199 | every event keeps the worker, its pending restart and the handlers on their way to at most one in all, and exactly one until a stop |
| `Supervisor.ServiceSupervisor.Run` | src/watcher/service.ts:92-199 | any run of handlers is a run of that transition system: never two workers, nor a worker beside a pending restart, and always one of them until a stop |
| `Supervisor.ServiceSupervisor.SignalDuringRotation` | src/watcher/service.ts:132-153 | the run in which a worker starts after the stop |

## Left out

- ArchiveTransaction.Workspace.Relocate: the name chosen when the archive already holds the folder's, directories, unwritable files, and edits of the living specs by others between attempts are not modelled.
- ArchiveTransaction.Workspace.CheckAndArchive: does not model the validator run, whose result decides nothing here.
- SpecText.ReadsBackIff: a line is what it matches, with headings and names in normal form; lines end with a newline alone, and a line of spaces counts as blank.
- DeltaMerge.MergeLivingSpec: parsing a delta is left out, with what it leaves stated as `Parsed`; the fold of names is a parameter.
- MergeAgain.MergedTwiceIff: a base that repeats a requirement name is covered only by `MergeAcceptsIff` and, without renames, by `MergedAgain`.
- OpenFences.OpenMergedTwiceIff: deltas without renames on a base that does not repeat a name; where later text closes the open fence again, how the file reads back is `ReadsBackIff`, and `OpenYetTheSame` shows that a second merge may still leave the file as it is.
- RetryBudgets.CountedIffRecorded: lines of the log are whole; a line torn by a kill, which hides the next event written after it, is excluded.
- CommitCatchUp.KilledBeforeTheCommit: speaks of catch-ups; a human retry of a halt that is still active commits the archive itself.
- TreeGuard.Repo.RestoreTreeExcept: paths are flat names, so a file replaced by a directory, ignored files, rename entries and version control other than git are not modelled.
- RetryBudgets.TaskRun.Run: markers edited by hand are excluded; times are integers in order.
- RetryBudgets.HighestRetained: takes the retained markers of one task; matching their file names is left out.
- WatcherOnce.Watcher.RunWatcherOnce: autopilot, a planner that edits tasks, usage pauses, locks taken by other processes, new approvals and new changes are excluded, as each may add work; a visit names its own order of events.
- WatcherOnce.StartNextTask: pauses, the sync check, dependencies and worktree checks are one flag of the visit.
- WatcherOnce.AdvanceChange: an approval not yet committed, steering and worktree halts are flags of the visit.
- WatcherOnce.RunLane: the mutation check and the commits of a lane are left out; a build error is `Threw`.
- WatcherOnce.Watcher.RunWatcherCycle: the lanes of one cycle run in the order of their changes.
- ContinuousMode.ReachableStates: continuous mode only, since the single run rethrows past its own lanes; the second interrupt, which ends the process at once, autopilot and stacked changes are not modelled.
- ScopeAudit.ChangeFolder.AuditScopeRegressions: the tree stands still during an audit, task numbers are naturals, and attribution text and marker layout are left out; scope coverage of a path is a parameter.
- TaskPipeline.TaskFiles.RunTask: heartbeats, measures and the text of markers are not modelled; each phase's answer is a parameter, and a torn lock file, which reads as a stopped process's, is not told from a held one.
- TaskPipeline.TaskFiles.Run: locks are reaped only between attempts; another process that reaps a live lock for its age is excluded.
- RepoCounts.GatherRepoCounts: unmodified files are taken to be readable and to hold what their blob holds.
- Heartbeat.Monitor.Run: offsets count characters as the source's do, and each line's meaning is a parameter; a stream replaced by a text no shorter than what was counted goes unnoticed by the source and is excluded.
- LineReaders.ReadEnd: decoding bytes to text is left out; blank means spaces, tabs and line ends.
- ScenarioHelper.Scenario.Run: a check tracked after the drain found nothing to wait for is not awaited by the source, so only checks tracked before are said to have completed.
- OwnFolderGate.FindOwnFolderLines: which characters count as part of a name is a parameter.
- Checkboxes.TickTaskCheckboxContent: whitespace inside a line is a space or a tab and lines end with a newline alone.
- Supervisor.ServiceSupervisor.Run: log text and the record file are left out.
- Harness adapters, process handling, git itself, file watching, HTTP and terminal input: only their possible results appear.
- Regular expressions, YAML and JSON parsing and SHA-256: event and marker values, line classifiers and opaque hashes stand for them.
- Command wrappers, prompts, reports, pages, configuration, baselines, dependency and plan-conflict checks: shallower than what is here, or plumbing.
- Reading running locks and reaping rules: which locks are reaped is a parameter.
