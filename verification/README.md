# bones: a verified model of the coordination core

bones lets several agents work on one repository. A task record is claimed by
compare-and-swap, its files are held one by one, and every commit and every close
is fenced by those holds and by a claim epoch. Around that core sit a ready queue
over typed task edges, a validator for slotted plans, scaffolding that `up`,
`doctor`, `down` and `apply` edit over the life of a workspace, dispatch waves,
compaction, and subscriptions. This project models those parts in Dafny and proves
what they keep, over every input, every interleaving or every history.

`dafny verify dfyconfig.toml` checks everything.

## Layout

| file | what it holds |
|---|---|
| Tasks.dfy | task records, the transition rule, the transaction, the mutators |
| Protocol.dfy | the claim / hold / epoch protocol as a step machine, and what every interleaving keeps |
| Release.dfy, StaleRelease.dfy | the release closure inside that machine |
| Gate.dfy | exactly who passes the epoch gate, over every interleaving |
| Acquisition.dfy | one acquisition without interference, as a function; what the three routes promise |
| SoloRun.dfy | the step machine run alone computes that function |
| Coord.dfy | the imperative Coord, Claim and Leaf methods compute it too |
| Sorting.dfy | stable sorting, with a uniqueness theorem |
| Ready.dfy, Backlog.dfy, Drain.dfy | the ready queue as loops over an index; progress; draining |
| Paths.dfy, PlanValidator.dfy | split and join of paths; the plan validator |
| PlanAliasing.dfy | which plans it passes although two slots share a file |
| Hooks.dfy, HookHistory.dfy | hook pruning and adding as functions; what up, doctor and down undo of each other on an object of hooks |
| HookEffects.dfy | which commands each of them takes, leaves and adds, with the needles written out |
| HookFile.dfy, Settings.dfy | the same for any value of the "hooks" key, over histories; the in-place loops |
| Skills.dfy | the sticky skill manifest over histories of binaries and user edits |
| Apply.dfy | `bones apply` and its last-applied marker over runs |
| Dispatch.dfy | waves: Advance and Cancel |
| Compaction.dfy, CompactPass.dfy | concurrent compaction passes; one pass after another |
| SubscriberSlots.dfy, WatchTeardown.dfy, StreamScan.dfy | subscriber slots, channel teardown, the stream scan |
| UpActions.dfy, OpenTask.dfy | rewrite pairing; the aliased in-place dedup and task ids |

## Assumptions

- A task transaction (`Tx`) is one atomic read-mutate-write of one record; an error
  from the mutator or from the transition check leaves the record as it was. The read
  of `activeEpochs` inside the close mutator belongs to that step.
- The hold table is a map from path to agent. Announcing a path one holds renews it,
  announcing another agent's path fails, and Release drops a hold only if the named
  agent owns it. Each is one atomic step.
- Any substrate call may fail at any point of a run, holds may expire and Coords may
  restart; all of that is in the step machine.
- A task id is never given out twice.
- SHA-256 is injective. Clocks, presence, random bytes and the fossil listing of a
  revision are parameters.

## What turned out not to hold

- The release closure and the undo of a failed acquire compare the agent, not the
  epoch. Kept from an earlier claim they give back a later claim of the same agent
  (`ReleaseClosure.UnclaimHitsAnotherClaim` says exactly when,
  `StaleRelease.GivesBackALaterClaim` is a reachable run). Their hold releases and
  their delete of the remembered epoch do not look at the claim either
  (`ReleaseClosure.ReleaseDropsIff`, `ReleaseClosure.DeleteShutsOutALaterClaim`).
- So the Coord with the live claim does not always pass the epoch gate
  (`Gate.LiveClaimerIsShutOut` is a reachable run). It does under one rule for callers:
  no Coord wins a task again before its last closure, or undo, on that task is through.
  Then every operation past its store passes if and only if the record's epoch is its
  own (`Gate.ClaimerPassesIff`). `Gate.PassesGateIff` says without the rule what the
  gate depends on.
- A failed Claim restores the hold table if and only if the caller held none of the
  files it announced: rollback also drops holds the caller had before
  (`Acquisition.FailedClaimRestoresHolds`; `Acquisition.FailedClaimDropsAnEarlierHold`
  is one such call).
- A plan the validator passes can give one file to two slots under two spellings,
  with a `.` component (`PlanAliasing.DotPlanSharesAFile`) or a `..` component
  (`PlanAliasing.UpPlanSharesAFile`). Without `..` this can happen for two slot
  directories if and only if they collide (`PlanAliasing.CanShareIff`); with `..` it
  can happen for any two that are both absolute or both relative
  (`PlanAliasing.CanShareWithUpsIff`).
- `down` after `up` or after `doctor` equals `down` alone exactly when "hooks" is absent
  or an object, and SessionStart absent or an array in it: `up` and `doctor` overwrite
  any other value, `down` alone leaves it (`HookFile.DownUndoesUp`,
  `HookFile.DownUndoesDoctor`, and over histories `HookFile.DownEndsEveryHistory`).
- "Whatever the current bundle" does not extend to a binary that dropped the skill,
  nor to a file the user deleted and a newer `up` restored (`Skills.DownRemovesIff` is
  the exact condition; `Skills.DroppedSkillIsLeft` and `Skills.RestoredFileIsLeft` are
  concrete histories).
- A revision listing that misses a stale file strands it in the tree. `Apply.TreeAfter`
  is the tree after any run of applies with any lookup: a file that no applied revision
  names stays if and only if none of the listings used names it
  (`Apply.StaleFileStaysIff`), and with listings that come back empty nothing is ever
  deleted (`Apply.EmptyListingsDeleteNothing`; `Apply.EmptyListingStrandsAFile` is a run
  of two applies). The comment at cli/apply.go:542-549 says that `fossil ls` comes back
  empty for some commits, and the previous manifest is read that way.
- A dry run can write the last-applied marker (`Apply.DryRunChangesNothingIff`,
  `Apply.DryRunMovesTheMarker`).
- Advance finds the next wave if and only if no later wave number is negative
  (`Dispatch.NextWaveIsRightIff`). Cancel counts positions where Advance counts wave
  numbers (`Dispatch.CancelClosesAllIff`).
- A record that was stamped by a compaction pass without prune, or by one that stopped
  before its purge, is not purged by a later pass. A stamped record can still leave the
  hot bucket if and only if some pruning pass is at work on it
  (`Compaction.LeavesHotIff`); stores in which none is can be reached both ways
  (`Compaction.AbandonedIsReached`).
- A Subscribe can be refused with no subscription live, since a refused call counts
  until it has given back (`SubscriberSlots.RefusedBelowTheCap`); the documentation
  names only live subscriptions.
- Task ids are documented as uniform; 256 is not a multiple of 36
  (`OpenTask.FirstFourAreLikelier`).

## Model

| member | source | states |
|---|---|---|
| Tasks.TxKeepsClosed | internal/tasks/tasks.go:463-522 | whatever the mutator, a closed record keeps everything but its compaction stamps and no other record moves |
| Protocol.StepKeepsInv | internal/coord/coord.go:312-618 | every step of every operation keeps the invariant: epoch = number of winning acquires, each remembered epoch was issued to the Coord that remembers it, claimed_by coupled with status |
| Protocol.Reachable | internal/coord/coord.go:312-618 | the invariant holds in every world any interleaving reaches from an empty one |
| Protocol.EpochCountsAcquires | internal/coord/coord.go:365-433 | over any interleaving claim_epoch grows by exactly one per winning acquire transaction and by nothing else |
| Protocol.RememberedBounded | internal/coord/holdgate.go:50-66 | no Coord remembers more than the record's epoch, and once a task was claimed at most one Coord passes its epoch gate |
| Protocol.FencedIsRefused | internal/coord/holdgate.go:50-66 | a Coord that did not make the last acquire passes no epoch gate and closes nothing, with an old entry or with none |
| Protocol.ZombieFence | internal/coord/close_task.go:34-75 | after another Coord's acquire wins and until this Coord wins again, every commit gate and CloseTask of it is refused, whatever runs in between |
| Protocol.RecordShape | internal/coord/close_task.go:55-89 | in every reachable state claimed_by is set exactly while claimed, a claimed record has epoch at least 1, and closed_by is the agent of the last acquirer |
| Protocol.CloseNeedsTheClaim | internal/coord/close_task.go:55-89 | CloseTask succeeds exactly for a Coord whose agent claims the task and that passes the epoch gate; it then writes status, claimer, closing time, closer and reason of that record and nothing else; and which error each refusal gives |
| Protocol.OpenWrites | internal/coord/open_task.go:57-89 | a new record is open, unclaimed, at epoch 0 and carries the draft's files, parent and edges; a used id is not opened again |
| Protocol.ReclaimSparesTheLive | internal/coord/reclaim.go:102-137 | the read step of a Reclaim refuses a claimer that presence lists and changes nothing else |
| Protocol.HoldIsSafe | internal/coord/coord.go:453-618 | a hold stays with its agent through every step but its expiry, a step of that agent, and the takeover step that releases the old claimer's file |
| Protocol.ClosedIsAbsorbing | internal/coord/coord.go:488-583 | no interleaving changes anything of a closed record but its compaction stamps; only a purge removes it, and then for good |
| ReleaseClosure.RunsOnce | internal/coord/coord.go:533-558 | called any number of times in any run, the closure un-claims at most once and makes at most as many calls as one execution does |
| ReleaseClosure.TouchesOnlyItsOwn | internal/coord/coord.go:568-618 | a call of the closure changes only a record its own agent claims, only its own agent's holds and its own Coord's memory |
| ReleaseClosure.UnclaimHitsAnotherClaim | internal/coord/coord.go:488-599 | the un-claim of the closure or of undoTaskCAS gives back a claim other than its own if and only if the record is claimed by the same agent under a higher epoch |
| ReleaseClosure.ReleaseDropsIff | internal/coord/coord.go:604-618 | a hold release of the closure or of rollback drops the file exactly when the agent holds it, under whichever claim, and no other hold moves |
| ReleaseClosure.DeleteShutsOutALaterClaim | internal/coord/coord.go:488-558 | after the delete of the remembered epoch its Coord fails the gate; this hits a later claim exactly when the entry was the record's epoch and above the operation's own |
| ReleaseClosure.CloseThenRelease | internal/coord/leaf.go:529-537 | Close followed by the deferred Release, and by anything else, leaves the task as the close wrote it, compaction stamps apart |
| StaleRelease.GivesBackALaterClaim | internal/coord/coord.go:533-599 | a reachable run in which an old closure opens the task and drops its file under a later live claim of the same agent |
| Gate.MemoryIsTheLastWrite | internal/coord/coord.go:365-558 | over any interleaving a Coord remembers an epoch if and only if the last step that wrote its entry stored that epoch |
| Gate.PassesGateIff | internal/coord/holdgate.go:50-66 | in every reachable state a Coord passes the epoch gate of a claimed-before task if and only if the last write to its entry was the store of the record's present epoch |
| Gate.ClaimerPassesIff | internal/coord/holdgate.go:50-66 | in every run in which no Coord has two unfinished acquisitions of one task, an operation past its store and not yet done passes the epoch gate if and only if the record's epoch is its own |
| Gate.LiveClaimerIsShutOut | internal/coord/coord.go:533-558 | a reachable run in which the task is claimed by a live operation and the gate refuses its Coord |
| Acquisition.RefusedChangesNothing | internal/coord/coord.go:365-410 | a call that fails its checks changes nothing; one that passes them succeeds or finds a file held by another |
| Acquisition.ClaimAnswers | internal/coord/coord.go:365-433 | Claim takes an open unclaimed task and no other, with the error of each refusal |
| Acquisition.ReclaimAnswers | internal/coord/reclaim.go:102-155 | Reclaim takes a task claimed by another agent that presence does not list and no other; a live claimer gives ErrClaimerLive and nothing changes |
| Acquisition.HandoffAnswers | internal/coord/handoff_claim.go:85-127 | HandoffClaim takes a task claimed by the named agent and no other, with the error of each refusal |
| Acquisition.SucceedsIff | internal/coord/coord.go:453-472 | a call let through succeeds exactly when every file is free, the caller's or, in a takeover, the old claimer's |
| Acquisition.SuccessHoldsAll | internal/coord/coord.go:312-338 | on success, by any route, the caller holds every file of the record, the epoch rose by one and both commit gates pass for any of the files |
| Acquisition.FailureGivesBack | internal/coord/coord.go:488-507 | on a hold failure the record is open and unclaimed with only the epoch raised, and the remembered epoch is gone |
| Acquisition.HoldsAfter | internal/coord/coord.go:453-481 | the whole hold table after either outcome of any route; success exactly when no other agent holds a file |
| Acquisition.FailedClaimRestoresHolds | internal/coord/coord.go:453-481 | a failed Claim leaves the old hold table if and only if the caller held none of the announced files |
| Acquisition.FailedClaimDropsAnEarlierHold | internal/coord/coord.go:453-481 | a failed Claim after which the caller has lost a hold it had before |
| Acquisition.ClaimThenRelease | internal/coord/coord.go:533-618 | Claim then release restores every field of the record but the epoch, and the hold table if and only if none of the files were held before |
| SoloRun.SoloAcquire | internal/coord/coord.go:312-338 | the step machine run without interference ends in exactly the answer and state of Acquisition.Acquire, for all three routes |
| SoloRun.SoloSparesOthers | internal/coord/coord.go:312-338 | such a run leaves every other operation where it was |
| CoordOps.Substrate.Tx | internal/tasks/tasks.go:277-305 | the transaction: new bucket and answer, or an error and no change |
| CoordOps.Substrate.Announce | internal/holds/holds.go:154-188 | a free or own path becomes held; another agent's path fails and nothing changes |
| CoordOps.Substrate.ReleaseAll | internal/coord/coord.go:477-481 | exactly the agent's own holds among the files are dropped |
| CoordOps.Coord.ClaimAll | internal/coord/coord.go:453-472 | files before the first blocked one are held, in order, and no others change |
| CoordOps.Coord.HoldOrUndo | internal/coord/coord.go:477-507 | all files held, or holds, record and memory undone |
| CoordOps.Coord.Claim | internal/coord/coord.go:312-338 | computes Acquisition.Acquire on the claim route |
| CoordOps.Coord.Reclaim | internal/coord/reclaim.go:39-184 | computes it on the reclaim route, where the claimer is live exactly when presence lists it |
| CoordOps.IsPresent | internal/coord/reclaim.go:126-137 | the loop over presence entries finds the agent exactly when it is listed |
| CoordOps.Coord.HandoffClaim | internal/coord/handoff_claim.go:28-127 | computes it on the handoff route |
| CoordOps.Claim.Release | internal/coord/coord.go:533-618 | the first call undoes the acquisition, later ones change nothing |
| CoordOps.Coord.AnnounceHolds | internal/coord/leaf.go:366-396 | all paths held, or an error and every announced path dropped |
| CoordOps.Coord.CheckHolds | internal/coord/holdgate.go:19-38 | reports exactly the files the agent does not hold, in order and as often as they were asked for |
| CoordOps.Coord.CommitGates | internal/coord/leaf.go:451-457 | passes exactly when the agent holds every file and remembers the record's epoch, and otherwise gives the error of the first gate that refuses |
| CoordOps.Coord.CloseTask | internal/coord/close_task.go:34-47 | succeeds exactly for the claimer with the current epoch and writes the five closing fields; otherwise nothing changes, and which error each refusal gives |
| CoordOps.LeafClose | internal/coord/leaf.go:529-537 | a successful close leaves the task closed and, on the first release, drops the claim's holds and the remembered epoch; a refused one changes nothing |
| Sorting.StableSortIs | internal/coord/ready.go:123-127 | the sort used is sorted, a permutation, and keeps equal keys in order |
| Sorting.StableSortUnique | internal/coord/ready.go:123-127 | a stable sort has exactly one answer, whatever the algorithm |
| ReadyQueue.IndexDecides | internal/coord/ready.go:58-87 | the reverse index over edges and parents decides the quantified definition of ready |
| ReadyQueue.BuildReadyBlockers | internal/coord/ready.go:58-87 | the loops build an index that is exact for the listing |
| ReadyQueue.Ready | internal/coord/ready.go:31-42 | the oldest of the records that are open, unclaimed, not deferred and that no unclosed record blocks, supersedes, duplicates or is a child of: created earlier before later, equal ages in listing order, none left out older than one returned |
| ReadyQueue.Blocked | internal/coord/blocked.go:14-42 | the oldest of the open unclaimed records that an unclosed record blocks, in the same order |
| ReadyQueue.ReadyIsTheOldestFirst | internal/coord/ready.go:123-140 | any stable sort of the ready records is the queue |
| ReadyQueue.ReadyAndBlockedDisjoint | internal/coord/blocked.go:14-42 | no record is both ready and blocked |
| ReadyQueue.QueueMember | internal/coord/ready.go:91-118 | the queue holds exactly the records meeting every listed condition |
| ReadyQueue.ClosingKeepsTheQueue | internal/coord/ready.go:91-118 | before the cap, closing a task takes no other record out of the queue |
| ReadyQueue.AddingEdgeKeepsTheQueue | internal/coord/ready.go:91-118 | before the cap, adding an edge puts no task into the queue |
| Backlog.SomeoneIsFree | internal/coord/ready.go:58-118 | in an acyclic backlog some unclosed task waits for nobody |
| Backlog.Progress | internal/coord/ready.go:31-118 | while a task is unclosed, Ready answers or a task is claimed |
| Drain.ClaimAndCloseIs | internal/coord/leaf.go:529-537 | claiming an open task with nobody else holding, closing it and releasing changes that record alone, to closed, and frees its files |
| Drain.RoundClosesOne | internal/coord/ready.go:31-118 | on any listing, claiming the head of Ready with its files, closing and releasing it closes exactly one task and keeps the backlog drainable |
| Drain.DrainsInExactlyN | internal/coord/ready.go:31-118 | N open tasks take exactly N rounds, each on a fresh listing in any order |
| Paths.SplitJoin | cli/validate_plan.go:256-285 | splitting undoes joining |
| Paths.PrefixIsComponentPrefix | cli/validate_plan.go:274-285 | a string prefix up to a slash is a prefix of components |
| PlanValidator.ComputeSlotDir | cli/validate_plan.go:256-268 | the loop finds the directory ending at the last component equal to the slot |
| PlanValidator.OverlapIsComponents | cli/validate_plan.go:274-285 | two directories overlap exactly when one's components are a prefix of the other's |
| PlanValidator.CheckOverlaps | cli/validate_plan.go:185-247 | reports nothing exactly when no two slots' directories overlap, in any map order |
| PlanValidator.CheckTasks | cli/validate_plan.go:185-247 | reports nothing exactly for the clean plans, in any map order, and whatever it reports is there in the plan under the line, slot and file it names |
| PlanValidator.CleanPlanIff | cli/validate_plan.go:185-285 | a plan is clean exactly when every task has a slot, the files of a slot share one directory ending in its name, and no such directory lies in another slot's |
| PlanValidator.SlotsAreDisjoint | cli/validate_plan.go:185-285 | in a clean plan files of different slots lie under directories of which neither contains the other, and differ |
| PlanAliasing.SlotsShareNoFile | cli/validate_plan.go:185-285 | in a clean plan files without `..` of slots whose directories do not collide are different files after cleaning |
| PlanAliasing.CanShareIff | cli/validate_plan.go:185-285 | without `..`, a clean plan with two given slot directories can give one file to both if and only if one directory's cleaned names begin the other's and its slot is not a name between them |
| PlanAliasing.CanShareWithUpsIff | cli/validate_plan.go:185-285 | with `..`, it can if and only if both directories are absolute or both relative |
| PlanAliasing.DotPlanSharesAFile | cli/validate_plan.go:185-285 | the clean plan with `./x/a/f` for slot x and `x/a/f` for slot a shares a file |
| PlanAliasing.UpPlanSharesAFile | cli/validate_plan.go:185-285 | the clean plan with `a/../x/f` for slot a and `x/f` for slot x shares a file |
| Hooks.PruneTwice | cli/orchestrator.go:352-390 | pruning for one needle and then another is pruning for both |
| Hooks.PruneUndoesAdd | cli/down.go:674-710 | pruning undoes an add of anything it removes |
| HookHistory.UpTwice | cli/orchestrator.go:243-296 | on an object of hooks up twice equals up once |
| HookHistory.DoctorAfterUp | cli/doctor.go:437-503 | on an object of hooks doctor right after up rewrites nothing |
| HookEffects.ContainsIff | cli/down.go:674-710 | a command contains a needle exactly when the needle stands somewhere in it |
| HookEffects.DownLeaves | cli/down.go:593-620 | after down the four events have their entries, in order, without exactly those that say a bones command, and no other event changes |
| HookEffects.UpLeaves | cli/orchestrator.go:243-296 | after up SessionStart has no legacy command, every other entry it had, and both bones commands under their matchers |
| HookEffects.UpLeavesTheRest | cli/orchestrator.go:243-296 | the other three events lose exactly their legacy commands, and no other event changes |
| HookEffects.PruneShape | cli/orchestrator.go:352-390 | pruning leaves no empty group, keeps matchers and other fields, and keeps whatever is no group |
| HookEffects.PruneSlotShape | cli/down.go:674-710 | an event goes exactly when nothing is left in it; a value that is no array stays |
| HookEffects.DoctorFinds | cli/doctor.go:437-528 | what doctor looks for, on the commands |
| HookEffects.DoctorHeals | cli/doctor.go:437-503 | after doctor no fault is left and a second doctor rewrites nothing |
| HookEffects.DoctorCounts | cli/doctor.go:437-503 | how many rewrites doctor makes |
| HookFile.UpIsStable | cli/orchestrator.go:238-296 | the same for any value of the "hooks" key |
| HookFile.DownUndoesUp | cli/down.go:593-620 | down after up equals down alone if and only if "hooks" is absent or an object and SessionStart is absent or an array in it |
| HookFile.DownUndoesDoctor | cli/doctor.go:373-380 | down after doctor equals down alone under the same condition |
| HookFile.DownEndsEveryHistory | cli/down.go:593-620 | after any sequence of up, doctor and down, down leaves what down alone would have left at the start if and only if that condition held then, or only downs have run |
| HookHistory.DownSparesTheUser | cli/down.go:674-710 | where no command mentions a bones needle down removes only empty groups |
| Settings.SettingsHooks.PruneCommandFromEvent | cli/orchestrator.go:352-390 | the loops compute the pruning function on the stored hooks |
| Settings.SettingsHooks.AddHookWithMatcher | cli/orchestrator.go:410-456 | the loops compute the adding function, and report whether the command was missing |
| Settings.SettingsHooks.MergeHooks | cli/orchestrator.go:243-296 | computes Up, and reports for each command whether it was missing |
| Settings.SettingsHooks.RemoveBonesHooks | cli/down.go:593-620 | computes Down |
| Settings.SettingsHooks.HookCommandPresent | cli/doctor.go:1103-1122 | true exactly when some entry of the event is this command |
| Settings.SettingsHooks.HasMention | cli/doctor.go:508-528 | true exactly when some entry of the event mentions the needle |
| Settings.SettingsHooks.MigrateHookProtocolEntries | cli/doctor.go:437-503 | computes Doctor with its number of rewrites; with no-fix it changes nothing and counts the faults |
| Settings.SettingsFile.Up | cli/orchestrator.go:238-296 | reads anything but an object as empty and writes the merged object |
| Settings.SettingsFile.Doctor | cli/doctor.go:373-380 | writes the object only when something was rewritten |
| Settings.SettingsFile.Down | cli/down.go:593-620 | trims an object, drops the key when nothing is left, leaves any other value |
| Skills.UpKeepsEveryFile | cli/skills.go:775-802 | up changes no existing file, and what it adds is what it embeds |
| Skills.UpStamps | cli/skills.go:331-395 | what up stamps: the previous hash, else the file when it is the embedded one, else nothing |
| Skills.DownDecides | cli/skills.go:896-973 | what down removes: with a manifest by its hash, without one by the embedded bytes |
| Skills.DownReports | cli/skills.go:896-973 | which files down reports as kept |
| Skills.EveryHashWasShipped | cli/skills.go:270-395 | over any history every manifest hash is that of a version some earlier up carried for the path |
| Skills.DownRemovesOnlyWhatWasShipped | cli/skills.go:896-973 | down removes a file only if its bytes are such a version, and changes no other file |
| Skills.DownRemovesIff | cli/skills.go:896-973 | a file an up wrote and nobody touched is removed if and only if the down owns its skill and the ownership survived every up in between |
| Skills.DownRemovesWhatUpWrote | cli/skills.go:852-882 | if the user deletes nothing and no binary disowns the skill, down removes it whatever it embeds |
| Skills.DroppedSkillIsLeft | cli/skills.go:852-882 | a binary that no longer owns the skill leaves the file |
| Skills.RestoredFileIsLeft | cli/skills.go:331-395 | a file restored by a newer up after a user's delete keeps its stale hash and is left |
| Skills.Workspace.MaterializeFile | cli/skills.go:775-802 | writes a missing file, leaves an existing one, reports which |
| Skills.Workspace.WriteSkills | cli/skills.go:223-242 | the walk writes exactly the missing files |
| Skills.Workspace.BuildHashes | cli/skills.go:331-350 | the walks compute the new manifest |
| Skills.Workspace.StampDir | cli/skills.go:355-395 | one directory's entries: the previous hash, else the embedded one if it is the file |
| Skills.Workspace.Up | cli/skills.go:270-323 | the files and manifest after up |
| Skills.Workspace.RemoveOneSkill | cli/skills.go:896-973 | removes and reports exactly the files the decision names in one skill directory |
| Skills.Workspace.RemoveFile | cli/skills.go:896-973 | one file: removed on a match, reported on a divergence, left otherwise |
| Skills.Workspace.Down | cli/skills.go:852-882 | the files after down, the manifest gone, exactly the diverged files reported |
| Apply.ClassifyDiff | cli/apply.go:840-879 | the loops compute the three lists |
| Apply.PlanTouchesWhatDiffers | cli/apply.go:840-879 | no path is in two lists, and exactly the paths whose state must change are in one |
| Apply.EmptyIffLanded | cli/apply.go:840-879 | the plan is empty exactly when the tree is already as it should be |
| Apply.ClassifyAgainIsEmpty | cli/apply.go:840-879 | classifying right after an apply gives an empty plan, with the old and with the new previous listing |
| Apply.HexRevIff | cli/apply.go:691-705 | a well-formed revision is forty lowercase hexadecimal digits, any forty |
| Apply.Workspace.LoadPrevManifest | cli/apply.go:662-685 | the previous listing, or nothing without a usable marker; a malformed marker is blanked |
| Apply.Workspace.ApplyPlan | cli/apply.go:885-924 | the tree after the writes and removals of a plan |
| Apply.Workspace.ApplyFromCheckout | cli/apply.go:539-595 | the plan, and the state after: a real run or an empty plan gives the target tree and the new marker, a dry run with something to do at most blanks a malformed marker |
| Apply.PlanLands | cli/apply.go:885-924 | carrying out the plan gives the target tree |
| Apply.TreeAfter | cli/apply.go:539-595 | after any run of applies with any lookup a path is in the tree exactly when the last apply that wrote it, or the start, had it and no later apply deletes it, and with those bytes |
| Apply.TreeIsTheLastRevision | cli/apply.go:539-595 | with exact listings of the applied revisions the tree is the last revision plus the original files that no applied revision and not the first listing names |
| Apply.EmptyListingsDeleteNothing | cli/apply.go:662-685 | with empty listings the tree is all that was there and all that any applied revision has |
| Apply.LandsIffListsTheStale | cli/apply.go:662-685 | an apply leaves the tree an exact listing would if and only if its listing agrees on the files in the tree that are not in the revision |
| Apply.StaleFileStaysIff | cli/apply.go:662-685 | a file of the tree that no applied revision names stays through any run of applies, with its bytes, if and only if none of the listings used names it |
| Apply.EmptyListingStrandsAFile | cli/apply.go:662-685 | two applies with an empty listing after which a file of the first revision alone is still there |
| Apply.DryRunChangesNothingIff | cli/apply.go:539-595 | a dry run leaves everything if and only if the marker names the revision of an up-to-date tree, or is absent or well-formed when there is something to do |
| Apply.DryRunMovesTheMarker | cli/apply.go:539-595 | a dry run that writes a marker |
| Dispatch.NextWaveIsRightIff | internal/dispatch/advance.go:58-71 | the search finds the next wave if and only if no later wave number is negative |
| Dispatch.Workspace.Advance | internal/dispatch/advance.go:24-77 | the answer in every case, the first unreadable task included; the manifest changes only on success and then only its current wave |
| Dispatch.AdvanceAnswers | internal/dispatch/advance.go:24-77 | every answer as an if-and-only-if on the manifest: advanced to the least later wave, complete, incomplete with exactly the open tasks, failed at the first unreadable one |
| Dispatch.NoCurrentWave | internal/dispatch/advance.go:30-41 | without a wave of the current number the dispatch is complete |
| Dispatch.ClosedRunReachesTheEnd | internal/dispatch/advance.go:24-77 | with every task closed exactly (number of waves - 1) advances lead from the least wave to the greatest |
| Dispatch.WaveSafety | internal/dispatch/advance.go:24-77 | in every run all tasks of all earlier waves are closed and the current wave never falls |
| Dispatch.SuccessesPassWaves | internal/dispatch/advance.go:24-77 | each success passes exactly one wave number: none skipped, none repeated |
| Dispatch.SuccessesAreFew | internal/dispatch/advance.go:24-77 | from the least wave at most (number of waves - 1) successes |
| Dispatch.SentinelSkipsAWave | internal/dispatch/advance.go:58-71 | a negative later wave is passed over with its task open |
| Dispatch.Workspace.Cancel | internal/dispatch/cancel.go:18-34 | closes exactly the tasks of the waves at position current-1 and later, in order, up to the first that fails; the manifest goes exactly when none does |
| Dispatch.CancelAfterAnyRun | internal/dispatch/cancel.go:18-34 | with waves 1..n in order, Cancel after any run leaves every task closed |
| Dispatch.CancelClosesAllIff | internal/dispatch/cancel.go:18-34 | with the earlier waves closed, Cancel leaves every task closed if and only if each task of the other waves it passes over is closed already or also in a wave it covers |
| Dispatch.CancelMissesWaveZero | internal/dispatch/cancel.go:18-34 | with waves numbered from 0 Cancel at the start closes nothing |
| Compaction.StepKeeps | internal/coord/compact.go:136-190 | every step of every pass keeps the invariant and moves records only hot to archive and level upward |
| Compaction.NothingIsLost | internal/coord/coord.go:687-698 | over every run no id is absent from both buckets, archive entries never change, hot levels are 0 or 1 and never fall |
| Compaction.RecordSurvives | internal/coord/coord.go:687-698 | over every run a closed record is hot or archived and, wherever it is, is the record it was but for its stamps |
| Compaction.LevelRisesOnce | internal/coord/compact.go:136-190 | over all passes a task's level rises at most once |
| Compaction.StoppedPassIsNeverFinished | internal/coord/compact.go:108-130 | a stamped record no pruning pass works on stays in the hot bucket for good |
| Compaction.LeavesHotIff | internal/coord/compact.go:108-190 | a stamped record can still leave the hot bucket if and only if some pruning pass is at work on it |
| Compaction.AbandonedIsReached | internal/coord/compact.go:136-190 | runs from an empty store, with and without prune, that end with a stamped record no pruning pass works on |
| CompactPass.EligibleTasks | internal/coord/compact.go:108-130 | the loop and sort give the eligible records, oldest closed first |
| CompactPass.Leaf.CompactRecord | internal/coord/compact.go:136-190 | one record stamped through the transaction, and moved when pruning |
| CompactPass.Leaf.Compact | internal/coord/compact.go:75-103 | exactly the taken records up to the first failing one are compacted |
| CompactPass.OldestFirst | internal/coord/compact.go:75-130 | nothing eligible that a pass leaves was closed before what it took |
| CompactPass.TakenInOrder | internal/coord/compact.go:108-130 | the records taken come in the order of their closing times |
| CompactPass.TakenMeans | internal/coord/compact.go:108-130 | only closed, uncompacted records of the minimum age are taken, and all of them when the limit does not cut |
| CompactPass.Touched | internal/coord/compact.go:136-190 | a taken record carries the new level, size and time and nothing else new, in the archive when pruning |
| CompactPass.PassLeaves | internal/coord/compact.go:75-103 | a pass makes exactly what it took ineligible |
| CompactPass.Drains | internal/coord/compact.go:75-103 | with n eligible and limit L, n - kL are left after k passes, whatever the listing order, so ceil(n/L) passes drain them |
| SubscriberSlots.CounterIsExact | internal/coord/subscribe.go:83-145 | in every interleaving the counter is admitted plus in-flight rejected calls, and admitted never exceed the cap |
| SubscriberSlots.RefusedIff | internal/coord/subscribe.go:83-90 | an entry is refused exactly when admitted plus in-flight calls reach the cap |
| SubscriberSlots.RefusedBelowTheCap | internal/coord/subscribe.go:83-90 | a run in which an entry is refused with no subscription live |
| SubscriberSlots.AtMostOnce | internal/coord/subscribe.go:101-145 | each slot is freed, each reservation given back and each channel closed at most once |
| SubscriberSlots.FreedAfterTheRelay | internal/coord/subscribe.go:132-145 | a slot is freed only after its closer was called and its relay closed the channel |
| SubscriberSlots.HeldUntilClosed | internal/coord/subscribe.go:132-145 | without a call of its closer a slot stays held, whether its context is cancelled or its source closes by itself |
| WatchTeardown.NeverPanics | internal/chat/chat.go:288-344 | in every interleaving no send on a closed channel, no second close, and closed once the closer is through |
| WatchTeardown.NoSendAfterClose | internal/chat/chat.go:288-344 | nothing is sent after the close |
| WatchTeardown.CallbackDelivers | internal/chat/chat.go:314-331 | before teardown a callback that gets the lock sends its envelope |
| WatchTeardown.TeardownMovesOn | internal/chat/chat.go:288-344 | once cancelled the lock holder or the closer can always move, and each move brings the close nearer |
| StreamScan.Scan.OnMessage | internal/chat/chat.go:452-509 | messages stay grouped by thread in order, and done is closed exactly once, at the target |
| StreamScan.Scan.Result | internal/chat/chat.go:452-509 | all that has arrived, under its thread and in order and nothing else, and at least the target unless cancelled |
| UpActions.FindFree | cli/up_actions.go:148-196 | the first unused addition to the event |
| UpActions.Match | cli/up_actions.go:148-196 | the pairs are the used positions of both sides, with as many pairs per event as possible |
| UpActions.PairRewrites | cli/up_actions.go:148-196 | From commands are exactly the removals, paired To commands and installs exactly the additions, pairs stay within their event and number the minimum of both sides |
| OpenTask.Compact | internal/coord/open_task.go:121-132 | the loop over the array it overwrites computes the dedup of the original array |
| OpenTask.DedupIsTheSet | internal/coord/open_task.go:121-132 | on a sorted array that is strictly increasing with the same set |
| OpenTask.LeqIff | internal/coord/open_task.go:121-132 | the order of paths: a prefix first, else the smaller byte where they first differ |
| OpenTask.SymbolsInOrder | internal/coord/open_task.go:27-31 | the alphabet is a to z then 0 to 9, each remainder by 36 its own symbol |
| OpenTask.SortDedupFiles | internal/coord/open_task.go:121-132 | strictly increasing, exactly the input's paths, input untouched |
| OpenTask.GenerateTaskID | internal/coord/open_task.go:146-156 | the project prefix and eight symbols, each determined by its random byte |
| OpenTask.FirstFourAreLikelier | internal/coord/open_task.go:134-156 | of the 256 byte values eight become each of a to d and seven each other symbol |

## Left out

- NATS, JetStream, fossil, git and HTTP calls, processes and telemetry: only the contracts under "Assumptions" are used.
- The insides of the task and hold managers: the event log, recovery, and the read-then-delete of a hold release, which is taken as atomic.
- Command line paths that write task records directly and do not raise the epoch: the run theorems are about Coord steps.
- The window between the commit gates and the fossil write: gate properties hold at gate time.
- "Reclaim only takes from an offline agent" over runs: presence is read before the transaction, so the run theorems do not claim it.
- Wrap-around of the 64-bit epoch and of the subscriber counter.
- The updated_at, title and context fields of a task record.
- Markdown and regexp scanning of plans, and path separators other than `/`.
- buildSlotList and buildUpActions, footprint recording and every other rendering: output only.
- The settings file outside its hooks, a settings file that is missing or does not parse, JSON encoding, file modes, empty-directory cleanup, and name clashes between files and directories.
- The scaffolded-file and settings parts of the skill manifest, and errors while walking or reading files.
- refuseIfDirty and the git staging of an apply.
- CompactPass.Leaf.Compact: only failures before the record update (summary, artifact commit, size) stop a pass here; failures of its later steps are in the step machine of Compaction.dfy.
- PlanAliasing.CanShareIff: paths are cleaned lexically, so an absolute spelling of a file in the workspace counts as another file than its relative one, and symbolic links are not followed.
- CoordOps.Coord.ClaimAll: an Announce error other than a conflict, and likewise any other substrate failure, is in the step machine of Protocol.dfy only.
- CoordOps.Claim.Release: the first error that the closure returns is not modelled.
- CoordOps.Coord.AnnounceHolds: the release closure it returns on success is not modelled; its effect is the Drop step of Protocol.dfy.
- CoordOps.Coord.CheckHolds: an error while reading the hold table is not modelled.
- Summaries, artifact bodies and commit messages of compaction.
