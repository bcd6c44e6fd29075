# storyhook: a verified model of its hardest machinery

This project models, in Dafny, the parts of storyhook whose correctness does not follow from
reading one function: the crash-restartable verifier checkout and the ownership protocol around
it, the concurrent admission of builds, helpers and test binaries, and the loops that have to
agree with a simple definition. `dafny verify dfyconfig.toml` checks everything.

## How it is organised

**The verifier lifecycle.**

* `WorktreeDisk` is the durable world: directories, pointer files and the journal. A `Step` is one
  atomic durable change; `Allowed` is what the code has established before it makes that change,
  `Apply` is the change, `Exec` runs a log of them. A crash leaves the disk of a prefix of the log.
* `VerifierWorktree` is the code itself: a class whose methods perform steps. Git's answers are
  arbitrary. Every method is proved to make only permitted steps *from any starting disk*, so the
  run theorems apply to whatever it does, including what it does before a crash.
* `WorktreeSafety` proves what every run keeps. `WorktreeConvergence` defines where a pending
  intent must end (`Settled`, without mentioning steps), proves that the code's remaining steps
  reach exactly that, and that no number of interruptions changes it. `WorktreeRecovery` does the
  same for the recovery of a lease.
* `OwnerProtocol` is the interleaving of `run` and `gate` invocations, their children and the
  owner record, with a death possible between any two steps and a reboot at any time.
  `OwnerSafety` proves its invariant step by step and `OwnerActivity` which processes can be
  active; `OwnerRuns` states the guarantees over whole runs, `OwnerAdmission` when a lifecycle is
  admitted and a status returned, `OwnerDescriptor` what the inherited lock descriptor adds and
  what happens without it.
  `Reaping` is the supervising loop, for any clock readings and any census answers.

**Concurrent admission.** `BuildProducts` (leases, custody and reclaim), `DispatchOwners` and
`HelperDrain` (helper admission, draining, removal), `BuildNumber` (the counter file and its lock)
and `TestPool` (thread budget, order of admission, in-order publication).

**Loops and their definitions.** `Nesting`, `Waves` and `DecomposeSpec` (Markdown plans),
`FlattenYaml` (nested YAML stories), `GlobalFlags` (global flag extraction), `ProgressJournal`
(windowed reading) and `LifecycleAudit` (the event fold and its time accounting).

In the interleaving models the technique is always the same: an event type, the guard `Allowed`,
the effect `Apply`, legal logs (`Legal`, `After` or `Exec`), an invariant kept by every event, and
theorems about every legal log.

## What turned out not to hold as stated

* *Exclusive lifecycle.* `run` reads the owner record once and takes its two censuses afterwards.
  If a process of an orphaned lifecycle no longer has the lock descriptor and starts a gate in
  between, both censuses pass while the gate executes: `DescriptorIsNeeded` gives the complete run.
  The descriptor is in fact lost on the way to a gate when `scripts/activity-run.py` starts
  `merge-watch.sh`, because `subprocess.Popen` closes it. `ExclusiveIffGateQuiet` therefore states
  the exact condition over all runs, in terms of the record on disk at the gate census;
  `ReadingAgainSuffices` shows that reading the record again would establish it, and
  `ExclusiveLifecycle` that the inherited descriptor does.
* *Flattening loses nothing.* A story with an empty list of children and a story without one
  flatten alike. `RebuildInvertsFlatten` proves that the round trip is exact if and only if no
  story carries an empty list, and otherwise returns the same forest with those lists dropped.
* *Later waves wait for earlier ones.* A wave heading without tasks is named and cuts the chain.
  `LaterWaitsForEarlier` proves that a later task waits for an earlier one if and only if every
  wave named between them has a task; `EmptyWaveCuts` is a concrete plan.
* *Nesting ignores waves.* A wave heading does not close open boxes, so an indented task of one
  wave can be both a child of and blocked by a task of the wave before (`ChildMayWaitForParent`).
  `ChildWaitsIff` says exactly when, and `NoWaveBetweenNoWait` what a plan must avoid.

## Model

| member | source | states |
|---|---|---|
| `WorktreeSafety.StepKeepsSafe` | scripts/verifier-worktree.py:86-220 | every permitted durable step keeps: at most one intent pending, each pending move at exactly one of source and target, every directory in one place, pointers sound |
| `WorktreeSafety.RunsAreSafe` | scripts/verifier-worktree.py:86-283 | every disk of every run, hence every disk a crash can leave, is safe; in particular a pointer naming a lease names one that is journalled as ready and exists |
| `WorktreeSafety.OnlyOwnedLeasesAreLost` | scripts/verifier-worktree.py:234-261 | a run can lose no directory but a lease, and only at a step where the journal names that lease and the checkout points at a registered shared administration |
| `WorktreeSafety.KeptStays` | scripts/verifier-worktree.py:175-220 | whatever has been retained stays where it is in every continuation |
| `WorktreeSafety.CheckoutIsNew` | scripts/verifier-worktree.py:340-345 | once the checkout is gone, any later one is a directory that did not exist before |
| `WorktreeSafety.LossIsOwned` | scripts/verifier-worktree.py:239-260 | the same for a single step |
| `WorktreeSafety.FirstUseIsSafe` | scripts/verifier-worktree.py:25-28 | a disk without checkout, lease or pending intent is safe, whatever else the repository holds, so the run theorems apply from the first use |
| `WorktreeSafety.EmptyDiskIsSafe` | scripts/verifier-worktree.py:25-28 | the disk of a repository without any of these directories is safe |
| `WorktreeSafety.LeaseNeedsNoArchive` | scripts/verifier-worktree.py:216-219 | a lease may be journalled on a safe disk exactly if no archive is pending, which is why allocation has to follow `ensure` |
| `WorktreeConvergence.WorkKeepsSettled` | scripts/verifier-worktree.py:189-214 | no step made on behalf of a pending intent changes the disk it will settle to |
| `WorktreeConvergence.ScriptSettles` | scripts/verifier-worktree.py:93-220 | from any safe disk the remaining steps of the finishing code are all permitted and end exactly at the settled disk, with nothing pending |
| `WorktreeConvergence.CrashConvergence` | scripts/verifier-worktree.py:93-220 | stop the finishing code after any step, any number of times: the next attempt is not refused and leaves the same directories, pointers, manifests and journal as an uninterrupted first attempt |
| `WorktreeConvergence.EvidenceConserved` | scripts/verifier-worktree.py:175-220 | at every crash point of an archive the checkout, administration and lease each exist at exactly one of source and target, differ only in pointer files, and nothing else differs |
| `WorktreeConvergence.Crash` | scripts/verifier-worktree.py:93-220 | the disk left by one interruption is safe and settles where the original would |
| `WorktreeConvergence.Crashes` | scripts/verifier-worktree.py:93-220 | the same for any number of interruptions |
| `WorktreeRecovery.RecoveryContinues` | scripts/verifier-worktree.py:227-283 | recovery of a lease, stopped after any step of restoring, linking, deleting or archiving, can be resumed with the same answers of Git and keeps its goal; unstopped it makes only permitted steps and reaches the goal |
| `WorktreeRecovery.Stopped` | scripts/verifier-worktree.py:222-283 | the disk left by any number of such stops still has the same goal |
| `WorktreeRecovery.RecoveryConverges` | scripts/verifier-worktree.py:222-283 | stop recovery anywhere, any number of times: the last attempt is not refused and leaves exactly the disk that an uninterrupted first attempt would have left |
| `WorktreeRecovery.GoalIsRecovered` | scripts/verifier-worktree.py:222-283 | that disk is safe, with no intent and no lease left |
| `VerifierWorktree.Workspace.constructor` | scripts/verifier-worktree.py:19-28 | a workspace starts from any disk, with the journal that is on it |
| `VerifierWorktree.Workspace.EveryCrashRecovers` | scripts/verifier-worktree.py:86-394 | whatever operations ran, the disk that a crash after any of their steps leaves is safe, and finishing it is permitted and reaches the settled disk |
| `VerifierWorktree.Workspace.Do` | scripts/verifier_state.py:15-40 | one atomic durable change is one permitted step |
| `VerifierWorktree.Workspace.Persist` | scripts/verifier-worktree.py:30-32 | publishing the journal is one permitted step, after which memory and disk agree |
| `VerifierWorktree.Workspace.FinishStale` | scripts/verifier-worktree.py:93-114 | makes only permitted steps; succeeds exactly when the recorded directory is at one of its two places and still belongs to this checkout, which on a safe disk it always does; touches no checkout or lease |
| `VerifierWorktree.Workspace.FinishRename` | scripts/verifier-worktree.py:133-154 | likewise, with the pointer naming one of the two places; ends with the canonical administration registered and pointed at, and the same checkout |
| `VerifierWorktree.Workspace.FinishArchive` | scripts/verifier-worktree.py:175-220 | likewise for all three directories; ends with the checkout gone and archive, lease and restore forgotten |
| `VerifierWorktree.Workspace.MoveUnit` | scripts/verifier-worktree.py:184-197 | moves exactly the directories still at their source; refuses exactly on a collision or a double absence |
| `VerifierWorktree.Workspace.RewriteBacklinks` | scripts/verifier-worktree.py:198-205 | the retained administration and lease name the retained checkout |
| `VerifierWorktree.Workspace.Label` | scripts/verifier-worktree.py:206-214 | the retained checkout names its administration; manifest and description follow |
| `VerifierWorktree.Workspace.FinishPending` | scripts/verifier-worktree.py:222-226 | on a safe disk finishing never refuses and the disk becomes the settled one |
| `VerifierWorktree.Workspace.RetainStale` | scripts/verifier-worktree.py:86-91 | exactly the named administration leaves the shared registrations, unchanged, for a retention directory that did not exist; checkout, leases and journal are as before |
| `VerifierWorktree.Workspace.Registration` | scripts/verifier-worktree.py:58-84 | refuses exactly when no single administration can be told to be this checkout's; otherwise answers the one registered, or that there is none; a sole registration is refused exactly when it is locked or its common directory is missing or another repository's; changes nothing except to retain a superseded canonical registration |
| `VerifierWorktree.Workspace.Normalize` | scripts/verifier-worktree.py:120-131 | refuses exactly when another directory has the canonical name; otherwise the same checkout is registered and pointed at, under the canonical name if managed |
| `VerifierWorktree.Workspace.Archive` | scripts/verifier-worktree.py:167-173 | never refuses; leaves no checkout, no lease and no pending intent; on a safe disk the result is exactly the old disk with this unit retained, each directory under its path and their pointers naming each other there |
| `VerifierWorktree.ArchivedIsRetained` | scripts/verifier-worktree.py:184-206 | the retained checkout names the retained lease, or without one the retained administration; both name it back; directories keep their identity |
| `VerifierWorktree.Workspace.DropLease` | scripts/verifier-worktree.py:239-245 | deletes exactly the journalled lease, through a half-deleted state, and forgets it; nothing else changes |
| `VerifierWorktree.Workspace.Recover` | scripts/verifier-worktree.py:222-283 | on a safe or idle disk: without a lease it only finishes what is pending; with one it refuses exactly when no owner is registered, or the lease, the pointer or Git's answer does not match; otherwise the checkout stays exactly if the lease is dropped, and with a sole owner the disk left is the one defined for that case |
| `VerifierWorktree.Workspace.RecoverLease` | scripts/verifier-worktree.py:227-283 | the same from an idle disk with a lease, from any such disk |
| `VerifierWorktree.LinkedAgain` | scripts/verifier-worktree.py:279-283 | once the checkout is linked back, the lease is dropped unless Git objects, with the result of dropping it at once |
| `VerifierWorktree.RecoveredIsGoal` | scripts/verifier-worktree.py:222-283 | the disk that recovery leaves is the goal to which every interrupted recovery converges |
| `VerifierWorktree.Workspace.Restore` | scripts/verifier-worktree.py:262-281 | refuses exactly when the lease's origin, gitdir or common directory, or the checkout's pointer, does not match; a clean lease only has its pointer moved back and this journalled, any other is archived |
| `VerifierWorktree.Workspace.Ensure` | scripts/verifier-worktree.py:318-369 | a success leaves an idle journal without a lease and a registered checkout pointed at the recorded administration, the canonical one if managed; on a disk without a lease it refuses an undamaged checkout exactly when it is not at its own administration or the canonical name is taken, and adds a missing one exactly when that is free; an undamaged checkout is never replaced; a damaged one is retained with its administration, by identity, and replaced by a new directory, once |
| `VerifierWorktree.ReplacementIsNew` | scripts/verifier-worktree.py:352-356 | after a replacement the old checkout and its administration lie in one retention directory, and the checkout in place is none of the directories there were |
| `VerifierWorktree.Workspace.Locate` | scripts/verifier-worktree.py:322-344 | answers the administration that the checkout is registered with and points at, exactly when there is one; an existing checkout is untouched; a missing one is added, after its registration was retained, exactly when the canonical name is free and Git finishes |
| `VerifierWorktree.Workspace.WorktreeAdd` | scripts/verifier-worktree.py:340-344 | adds a registered checkout exactly when Git finishes; if Git stops halfway one new administration is left, if it does nothing nothing changes |
| `VerifierWorktree.Workspace.Allocate` | scripts/verifier-worktree.py:371-383 | succeeds only without a lease and from a consistent registration; journals a building lease before its directory exists; refuses only for one of these reasons |
| `VerifierWorktree.Workspace.Register` | scripts/verifier-worktree.py:385-394 | marks ready only the allocated lease, whose three mappings match; refuses only if one of these fails |
| `OwnerSafety.StepKeepsInv` | scripts/verifier-owner.py:264-535 | every step of every process, including deaths, reboots, gates started without the lock descriptor and whatever was admitted, keeps: one invocation past the lock, one gate supervisor inside the recorded lifecycle, and what each invocation knows at each point |
| `OwnerRuns.RunsKeepInv` | scripts/verifier-owner.py:446-535 | the invariant holds after every prefix of every run |
| `OwnerActivity.StepKeepsAccounted` | scripts/verifier-owner.py:305-324 | every step keeps active processes named by the record and an admitted invocation alone; an admission needs the gate on record to be quiet |
| `OwnerRuns.RunsStayAccounted` | scripts/verifier-owner.py:446-535 | the same over every run whose admissions find that gate quiet |
| `OwnerRuns.ExclusiveIffGateQuiet` | scripts/verifier-owner.py:483-524 | in every run, nothing of an earlier lifecycle or gate is active at any admission if and only if at each passed gate census the gate session named by the record then on disk is quiet |
| `OwnerRuns.OneRecordedLifecycle` | scripts/verifier-owner.py:475-524 | where admission is exclusive, at most one invocation is past the lock and whatever is active is recorded |
| `OwnerRuns.ReadingAgainSuffices` | scripts/verifier-owner.py:509-519 | if the gate census is taken on the record read again, admission is exclusive, with or without the descriptor |
| `OwnerRuns.UnchangedRecordSuffices` | scripts/verifier-owner.py:509-519 | so it is if the record on disk is still the one that was read |
| `OwnerAdmission.AdmittedIffAdmissible` | scripts/verifier-owner.py:483-519 | an undisturbed invocation that holds the lock is admitted exactly if the record is complete and, on the same boot, both its sessions are empty and a started gate is known to have exited |
| `OwnerAdmission.InterruptedGateBlocks` | scripts/verifier-owner.py:515-519 | in every run, after a gate was marked as started and before its exit is noted, its record settled, a newer lifecycle recorded or a reboot, the only invocation that can be admitted is one that had read the record before the mark |
| `OwnerAdmission.ReaderIsRefused` | scripts/verifier-owner.py:515-519 | so whoever reads the record after the mark is not admitted |
| `OwnerAdmission.MarkStands` | scripts/verifier-owner.py:458-462 | until then the record on disk says that the gate started and has not exited |
| `OwnerAdmission.StatusFollowsCensuses` | scripts/verifier-owner.py:366-387 | `run` finishes only after its leader had exited, then its session was found empty, then the gate session that the record had named at the exit |
| `OwnerAdmission.GateExitIsNoted` | scripts/verifier-owner.py:372-375 | a gate's exit is recorded, with its code, only once the leader has exited and before its survivors are counted |
| `OwnerAdmission.CompletedLetsNextIn` | scripts/verifier-owner.py:525-529 | a lifecycle that completed without a gate left lets the next one in at once |
| `OwnerAdmission.ClearedGateIsForgotten` | scripts/verifier-owner.py:465-470 | a gate is settled only with its session empty, and leaves the record as before it started |
| `OwnerRuns.IdentityPrecedesExecution` | scripts/verifier-owner.py:264-324 | in every run, whoever dies and whatever was admitted, a command starts only after a record of this boot that names its session was made durable, and the process has lived ever since |
| `OwnerRuns.StartedIsNamed` | scripts/verifier-owner.py:305-324 | where admission is exclusive the record still names the session when its command starts |
| `OwnerDescriptor.ExclusiveLifecycle` | scripts/verifier-owner.py:475-535 | if every process that starts a gate still has the inherited lock descriptor, admission is exclusive, and no process of an earlier lifecycle or gate is left, executing or waiting to |
| `OwnerDescriptor.DescriptorIsNeeded` | scripts/verifier-owner.py:483-519 | a complete run in which a gate started without the descriptor escapes both censuses and admission is not exclusive |
| `Reaping.Attend` | scripts/verifier-owner.py:334-375 | the first withdrawal asks every member of the session, the first cancellation the whole gate session or exactly the lifecycle's leader and gate supervisor, once, and sets the deadline; the first observed exit is kept |
| `Reaping.Escalate` | scripts/verifier-owner.py:388-414 | survivors of an exited leader are asked to stop, with the gate on record if nobody supervises it; past the deadline every pass sends SIGKILL to exactly the session and, for a lifecycle, the gate then on record; never before |
| `Reaping.Supervise` | scripts/verifier-owner.py:325-437 | a status only with the code of the first observed exit and after an empty census of exactly the session and, for a lifecycle, the gate on record in that pass; a refusal only naming the members of such a census begun an eighth of the budget after the first SIGKILL; it goes on only while neither is due, having asked whoever was cancelled or leaked and killed all sessions in every pass past the grace |
| `BuildProducts.ProductCustody.constructor` | scripts/build_products.py:175-182 | a new custody is reserved, without executions, in memory and on disk |
| `BuildProducts.ProductCustody.Call` | scripts/build_products.py:184-227 | the new row and reply are those of the operation; the record changes only if it was written; the row stays sound |
| `BuildProducts.OneExecutionPerCustody` | scripts/build_products.py:184-227 | over any sequence of operations a custody attaches at most one execution, and a finished one has none |
| `BuildProducts.OperationsMean` | scripts/build_products.py:184-227 | for every row: what attach, cancel, settle and finish leave, and when each is refused |
| `BuildProducts.FinishFinishes` | scripts/build_products.py:220-223 | after any operations finishing finishes exactly if nothing is attached, and otherwise changes nothing |
| `BuildProducts.AttachedUntilSettled` | scripts/build_products.py:193-219 | an attached execution stays, whatever is asked, until it is settled on a quiet session |
| `BuildProducts.SettledCanFinish` | scripts/build_products.py:193-227 | then it can finish, and the row is finished and empty |
| `BuildProducts.StepKeepsInv` | scripts/build_products.py:230-246 | every event keeps: a live workload is recorded on disk, an unfinished supervisor holds its lease, and what a reclaim attempt has checked is settled |
| `BuildProducts.RunsKeepInv` | scripts/build_products.py:85-121 | the invariant over every run |
| `BuildProducts.ReclaimSafety` | scripts/build_products.py:85-121 | a reclaim is granted only when no lease is open, every custody ever made is finished without executions, and no workload lives |
| `BuildProducts.CustodyIsPermanent` | scripts/build_products.py:167-182 | a build directory is never forgotten and the record of a dead supervisor never changes |
| `BuildProducts.LostSupervisorBlocksReclaim` | scripts/build_products.py:111-121 | after a supervisor died unsettled, no continuation of the run ever grants a reclaim |
| `BuildProducts.ReclaimIsPossible` | scripts/build_products.py:85-121 | with no lease open and every custody settled a reclaim can be granted, with nothing else changed |
| `BuildProducts.ReclaimNeedsSettled` | scripts/build_products.py:85-121 | an attempt during which no build moves is granted only then |
| `BuildProducts.BuildCanRun` | scripts/build_products.py:193-197 | a journalled build can attach its execution durably and run |
| `BuildProducts.BuildCanSettle` | scripts/build_products.py:230-246 | a live supervisor whose workload has ended can settle, finish and give up its lease |
| `DispatchOwners.StepKeepsInv` | scripts/e2e-dispatch-owners.py:64-71 | every event keeps: a registered group awaits its drain or has no member; whoever read "open" still excludes closing; past the drain nothing is left |
| `DispatchOwners.RunsKeepInv` | scripts/e2e-dispatch-owners.py:41-108 | the invariant over every run |
| `DispatchOwners.RemovalFollowsQuiescence` | scripts/e2e-dispatch-owners.py:213-231 | whenever the data root is removed, admission is closed, every group ever registered is empty, and no admitted writer has custody |
| `DispatchOwners.ClosedIsAbsorbing` | scripts/e2e-dispatch-owners.py:102-108 | after closing nothing is registered and no further writer obtains custody |
| `DispatchOwners.NoWriterAfterRemoval` | scripts/e2e-dispatch-owners.py:178-203 | after a removal no writer has custody in any continuation |
| `DispatchOwners.CleanupIsPossible` | scripts/e2e-dispatch-owners.py:213-231 | with no lock held, no writer and every receipt's group empty, a cleanup reaches the removal |
| `DispatchOwners.OpenAdmits` | scripts/e2e-dispatch-owners.py:64-71 | while admission is open and unlocked, an isolated live leader can register and a writer be admitted |
| `HelperDrain.Capture` | scripts/e2e-dispatch-owners.py:130-154 | refuses exactly an ambiguous group; otherwise answers exactly the saved census, or one taken while the live leader proved the group |
| `HelperDrain.DrainReceipt` | scripts/e2e-dispatch-owners.py:125-166 | a drained group is empty at the last observation; every owned incarnation was signalled or already gone, nobody else is, and each was alive under its recorded start; the leader goes last; if captured incarnations that are gone stay away, only a stranger in the group makes it refuse before time is up |
| `BuildNumber.ReadInvertsFormat` | scripts/build-number.py:21-42 | reading accepts exactly what writing produces, for exactly the unsigned 64-bit numbers |
| `BuildNumber.Counter.constructor` | scripts/build-number.py:99-100 | the file as found |
| `BuildNumber.Counter.Take` | scripts/build-number.py:102-110 | succeeds exactly for a readable file that is below the maximum or matches the reservation; the file then reads as the number taken, one more than before if allocated; otherwise it is unchanged |
| `BuildNumber.StepKeepsInv` | scripts/build-number.py:99-116 | every step, with a kill at any point, keeps: one holder, whose number is the counter, and issued numbers ascending below it |
| `BuildNumber.NumbersAreNeverReused` | scripts/build-number.py:99-116 | the counter never passes 2^64-1, numbers are issued one after the other without gap or repetition, and the counter equals the number of every command that still has a process with the inherited lock |
| `BuildNumber.ReservationIsKept` | scripts/build-number.py:103-105 | a command that was given a reservation runs under exactly that number |
| `BuildNumber.CounterIsMonotonic` | scripts/build-number.py:102-110 | from any reachable state the counter never decreases and issued numbers are never withdrawn |
| `TestPool.ThreadCap` | scripts/test-pool.py:118-133 | the loop answers what CapsMean describes, with the cap clamped to between one and the budget |
| `TestPool.CapsMean` | scripts/test-pool.py:118-133 | refused exactly if some cap is no number; the cap is the one given last, and the arguments that are neither caps nor their values are kept in order |
| `TestPool.Share` | scripts/test-pool.py:369 | one thread per test, at least one, at most the cap |
| `TestPool.ScheduleIsSorted` | scripts/test-pool.py:180-188 | the schedule holds every job once, ordered by rank |
| `TestPool.ScheduleMeans` | scripts/test-pool.py:180-188 | unrecorded jobs before recorded ones, by falling tests and falling duration, equals as given |
| `TestPool.SortedOrderIsUnique` | scripts/test-pool.py:180-188 | there is only one such order |
| `TestPool.Pool.constructor` | scripts/test-pool.py:220-229 | a new pool has admitted and published nothing |
| `TestPool.Pool.Admit` | scripts/test-pool.py:236-247 | one job within the budget starts to run |
| `TestPool.Pool.AdmitAll` | scripts/test-pool.py:313-318 | jobs are taken from the head of the queue; if it stops uncancelled with work pending, something runs and the head does not fit; nothing is admitted after a signal |
| `TestPool.Pool.Reap` | scripts/test-pool.py:255-272 | exactly the running jobs whose poll answered get their status and stop running |
| `TestPool.Pool.Finish` | scripts/test-pool.py:260-264 | one job leaves, and its threads return to the budget |
| `TestPool.Pool.Flush` | scripts/test-pool.py:274-286 | publishes up to the first unfinished job, keeping the log the serial log of a prefix |
| `TestPool.Pool.Run` | scripts/test-pool.py:308-323 | at every moment the admitted jobs are a prefix of the order, the threads in flight are within the budget, the log is the serial log of a prefix of jobs, every status is one that a poll answered, and nobody whose last poll answered still runs; an uncancelled finish admitted and logged every job; where all polls answer and no signal comes, it finishes within one turn per job |
| `TestPool.Pool.Turns` | scripts/test-pool.py:312-320 | the loop by itself, with the same guarantees |
| `TestPool.Pool.Turn` | scripts/test-pool.py:312-321 | one turn keeps the queue, the budget and the log; exactly the running and newly started jobs whose poll answered get their status and stop; a job starts whenever nothing runs and something is pending |
| `TestPool.StatusOf` | scripts/test-pool.py:263-271 | a death by signal is 128 plus the signal, a job that recompiled does not pass, any other status is kept |
| `TestPool.ExitStatus` | scripts/test-pool.py:405-409 | zero exactly when all passed; the highest signal-like status if there is one; otherwise 101 |
| `Nesting.EnclosingIsUnique` | src/decompose.rs:229-240 | at most one earlier item encloses a story |
| `Nesting.TopIsNearest` | src/decompose.rs:349-357 | what a stack holds after popping is the nearest earlier item of smaller rank since the stack was emptied, or there is none |
| `Nesting.ChoiceIsParent` | src/decompose.rs:343-366 | the two stacks choose exactly the enclosing item, after any items |
| `Nesting.Ancestors` | src/decompose.rs:206-390 | following parents always ends at a root |
| `DecomposeSpec.PopDeeper` | src/decompose.rs:349-357 | the popping loop removes exactly the entries that are not shallower |
| `DecomposeSpec.TakeHeading` | src/decompose.rs:222-333 | a heading keeps stories, stacks and waves in agreement with the text so far |
| `DecomposeSpec.TakeBox` | src/decompose.rs:334-400 | so does an unchecked box |
| `DecomposeSpec.TakeWave` | src/decompose.rs:213-219 | so does a wave heading |
| `DecomposeSpec.ScanLines` | src/decompose.rs:206-412 | after the pass, stories, stacks and waves are those of the whole text |
| `DecomposeSpec.Decompose` | src/decompose.rs:192-435 | stories are the headings and unchecked boxes in order; each has its enclosing parent; a box is in a wave exactly if that wave's heading stands before it with no wave or other heading between; and it is blocked by exactly the tasks of the wave named just before its own, in order |
| `DecomposeSpec.WaveOfStory` | src/decompose.rs:213-223 | a story is in a wave exactly if it is a box and that wave is in force at its line |
| `DecomposeSpec.CurrentWaveIsInForce` | src/decompose.rs:213-306 | the wave in force is the last one named, if no other heading came since |
| `DecomposeSpec.LinesAreStories` | src/decompose.rs:206-400 | every heading and every unchecked box has its story |
| `DecomposeSpec.ParentsComeFirst` | src/decompose.rs:229-390 | every parent has a smaller index, so the hierarchy is a forest |
| `DecomposeSpec.PlanIsAcyclic` | src/decompose.rs:414-435 | no task waits, through any chain, for itself or another of its wave, in whatever order the waves appear |
| `DecomposeSpec.PlanIsOrdered` | src/decompose.rs:414-435 | a later task waits for an earlier one exactly when every wave named between them has a task |
| `DecomposeSpec.EmptyWaveCuts` | src/decompose.rs:213-219 | a plan in which an empty wave cuts the chain |
| `DecomposeSpec.ChildMayWaitForParent` | src/decompose.rs:213-219 | a plan in which a task is a child of its own blocker |
| `DecomposeSpec.ChildWaitsIff` | src/decompose.rs:334-435 | a story waits for its own parent exactly when the parent is a box of an earlier wave and no wave named between is empty |
| `DecomposeSpec.NoWaveBetweenNoWait` | src/decompose.rs:206-435 | with no wave heading between the two lines no story waits for its parent |
| `DecomposeSpec.OriginsMean` | src/decompose.rs:206-400 | every story is what its line says, in the wave in force there |
| `DecomposeSpec.OriginsAscend` | src/decompose.rs:206-400 | stories come in the order of their lines |
| `Waves.PathsDescend` | src/decompose.rs:414-435 | every chain of blockers descends strictly in wave number |
| `Waves.WavesAreAcyclic` | src/decompose.rs:414-435 | tasks of one wave never reach each other |
| `Waves.LaterWaitsForEarlier` | src/decompose.rs:414-435 | reachability between waves, if and only if no named wave between is empty |
| `Waves.SortedKeys` | src/decompose.rs:415-416 | the named waves, each once, ascending |
| `Waves.BlockBy` | src/decompose.rs:425-432 | one story gains all earlier tasks in order, the others nothing |
| `Waves.LinkWaves` | src/decompose.rs:424-433 | every task of a wave gains every task of the one before |
| `Waves.AddEdges` | src/decompose.rs:414-435 | the blockers of a story are exactly the tasks of the adjacent earlier wave, once each, in order |
| `FlattenYaml.ImportList.constructor` | src/decompose.rs:78 | an empty list |
| `FlattenYaml.ImportList.Flatten` | src/decompose.rs:83-111 | appends the preorder list of the forest, with parents by index |
| `FlattenYaml.RebuildInvertsFlatten` | src/decompose.rs:83-111 | rebuilding from the list returns the forest, exactly if and only if no story has an empty list of children |
| `FlattenYaml.FlattenIsInjective` | src/decompose.rs:83-111 | two forests flatten alike exactly when they differ only in empty child lists |
| `FlattenYaml.NormalFlattensAlike` | src/decompose.rs:107-109 | dropping empty child lists does not change the list |
| `GlobalFlags.SetOptionPosition` | src/cli.rs:1624-1642 | the scan answers whether the tokens after `set <id>` are whole declared options |
| `GlobalFlags.WholeOptionsAreCut` | src/cli.rs:1631-1641 | that holds exactly if the tokens can be cut into declared options, each with its value if it takes one |
| `GlobalFlags.SplitGlobalFlags` | src/cli.rs:1499-1622 | the index loop computes the specified split |
| `GlobalFlags.SplitMeans` | src/cli.rs:1499-1622 | refused exactly for a malformed option or two JSON inputs; otherwise the remainder is every token that is no global flag with its value, and each flag is what the line asked for last |
| `GlobalFlags.RestIsSubsequence` | src/cli.rs:1499-1622 | the remainder stands in the line at ascending positions |
| `GlobalFlags.TerminatorKeepsTheRest` | src/cli.rs:1513-1516 | from the terminator on everything is kept and influences nothing: the line splits as its front does |
| `GlobalFlags.EarlierTerminatorsAreValues` | src/cli.rs:1518-1612 | an earlier `--` is the value of the flag in front of it |
| `GlobalFlags.SplitIsIdempotent` | src/cli.rs:1499-1622 | splitting the remainder again yields default flags and the same remainder, for every flag table |
| `GlobalFlags.TrimStart` | src/cli.rs:1566 | the argument is copies of the prefix followed by the result, which has no further copy |
| `ProgressJournal.SplitJoins` | scripts/progress_journal.py:34 | the pieces are the data and the unterminated one holds no newline |
| `ProgressJournal.SplitContinues` | scripts/progress_journal.py:34 | reading more continues the unterminated piece and changes no record |
| `ProgressJournal.TakeRecords` | scripts/progress_journal.py:37-48 | moves past exactly the complete records, refuses a too long one, reports change exactly for a record that is no resource sample |
| `ProgressJournal.Observe` | scripts/progress_journal.py:13-50 | when it refuses and what it answers, both exactly |
| `ProgressJournal.OversizedShows` | scripts/progress_journal.py:35-40 | the two length checks find exactly an oversized next record |
| `ProgressJournal.ObservationConsumes` | scripts/progress_journal.py:31-48 | an observation takes records off the front of the unread ones, also when more has been appended since |
| `ProgressJournal.IncrementalIsOneShot` | scripts/progress_journal.py:13-50 | over any sequence of observations, consumed records followed by unread ones are the one-shot reading |
| `ProgressJournal.ChangeIsProgress` | scripts/progress_journal.py:37-48 | some observation reported change exactly when some consumed record is no resource sample |
| `ProgressJournal.CaughtUp` | scripts/progress_journal.py:13-50 | a run with nothing left unread consumed exactly the one-shot records |
| `ProgressJournal.RefusedIffNextDoesNotFit` | scripts/progress_journal.py:33-40 | an observation is refused for size exactly when too much is unread and the next record does not fit |
| `ProgressJournal.AlwaysAdvances` | scripts/progress_journal.py:31-48 | while a record that fits is unread, an observation succeeds and moves the cursor |
| `ProgressJournal.CatchesUp` | scripts/progress_journal.py:13-50 | on an unchanging file whose records all fit, at most one observation per unread byte leaves nothing unread, without a refusal |
| `ProgressJournal.OversizedStays` | scripts/progress_journal.py:35-40 | appending never unblocks an oversized record |
| `LifecycleAudit.Elapsed` | scripts/lifecycle_audit.py:21-24 | the seconds from start to end, known exactly when both are and time did not go back |
| `LifecycleAudit.HistoryIsProper` | scripts/lifecycle_audit.py:38-42 | a state repeats only in a resubmission to verification |
| `LifecycleAudit.HistoryIsTransitions` | scripts/lifecycle_audit.py:38-42 | the history holds exactly the events that name a state and are the first to, name another one than the last, or change it while it is verification |
| `LifecycleAudit.Leave` | scripts/lifecycle_audit.py:43-50 | leaving a state adds its time and closes an open generation |
| `LifecycleAudit.Enter` | scripts/lifecycle_audit.py:43-59 | one transition updates every account |
| `LifecycleAudit.Audit` | scripts/lifecycle_audit.py:27-78 | the fold reports the transitions, the time per state, generations, completions, reopenings and cycle time that the history defines |
| `LifecycleAudit.TimeIsConserved` | scripts/lifecycle_audit.py:43-48 | with valid, non-decreasing stamps the state durations sum to last transition minus first |
| `LifecycleAudit.UnknownStaysUnknown` | scripts/lifecycle_audit.py:44-48 | a state's time is unknown exactly when one of its stays was |
| `LifecycleAudit.VerifyingIsItsGenerations` | scripts/lifecycle_audit.py:49-59 | verifying time is the sum of the closed generations, with or without valid stamps |
| `LifecycleAudit.CompletionsBalance` | scripts/lifecycle_audit.py:51-54 | completions exceed reopenings by one exactly while the story is done |
| `LifecycleAudit.AuditAccounts` | scripts/lifecycle_audit.py:27-78 | the four accounts of a report together; the cycle time of a story that ends done is the sum of its durations |

## Left out

Assumptions of the models:

- Git, `ps`, signals, `flock`, `fsync` and JSON are abstract: an atomic publication is one step, a
  lock is exclusive, Git's answers are arbitrary, and encodings round-trip.
- `verifier-worktree.py`: refusals of symbolic links, the base commit, the contents of startup
  cleaning and the recovery reason are not modelled; a fresh name is any unused one. The
  pointer swap and the filling of a lease belong to the shell and are environment steps.
- VerifierWorktree.Workspace.Allocate: requires that no intent is pending, because
  `scripts/merge-watch.sh` runs `ensure` (line 87) before `allocate` (line 186);
  `WorktreeSafety.LeaseNeedsNoArchive` shows why it has to.
- VerifierWorktree.Workspace.Register: requires the same, because it follows (line 234).
- `verifier-owner.py`: a census is one atomic step; processes stay in their session; a lifecycle
  starts its next gate only after the previous gate call returned a status; `note` is one step;
  host admission appears only as a withdrawal; without `waitid` the leader's identifier is not
  pinned, and that fallback is not modelled.
- OwnerDescriptor.ExclusiveLifecycle: is the case in which every gate starter has kept the
  descriptor; the general statement is `OwnerRuns.ExclusiveIffGateQuiet`.
- VerifierWorktree.Workspace.Ensure: startup cleaning and the object checks are single answers of
  Git; on a disk with a lease its refusals are those of `Recover`.
- HelperDrain.DrainReceipt: the deadline is the end of the observed process tables.
- TestPool.Pool.Run: polls and signals are given per turn, and a run is observed for finitely
  many turns; that a job finishes at all is not claimed. Test discovery, durations files and the
  rebuilding of commands are not modelled.
- The lock protocols of `verifier-owner.py`, `build_products.py`, `e2e-dispatch-owners.py` and
  `build-number.py` are transition systems over values, because their properties are about
  interleavings; only their single-process parts are classes and methods.

Not modelled:

- `complete` of `e2e-dispatch-owners.py` in the interleaving model: it changes what a receipt says
  about a group, which `HelperDrain` covers, and no admission.
- `inherited_lease` and `namespace` of `build_products.py`: descriptor probing.
- Titles, labels, priorities, complexity markers and descriptions of a plan, format detection and
  the YAML parser: a line is modelled by what kind of line it is. A title cannot be empty, since
  lines are trimmed before the marker is stripped.
- `analyze` of `lifecycle_audit.py`: grouping by story, the duplicate check and the window; and
  comments, titles and warnings of a story.
- The per-verb parsers, help and usage texts of `src/cli.rs`; the flag table of `set` is a
  parameter, and so is the reading of whole seconds.
- Everything else in the repository: the store, the service, the web front end, release scripts and
  the end-to-end suites.
