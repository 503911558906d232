# Vectra: a model of its router agent, update guard and panel

Vectra runs PassWall on home routers and manages them from a panel. This
project models the parts of it that decide, on their own and on a device
nobody stands next to, what to switch off, restart, restore or roll out, and
proves what those decisions keep. `dafny verify dfyconfig.toml` checks it all.

Code that works by changing things is modelled by classes and loops, each
proved against a specification function or relation; what is promised is then
proved about that specification, over all inputs, runs and interleavings.

| file | models |
|---|---|
| `Recovery.dfy` | one poll of control-plane recovery as a step on values |
| `RecoveryAgent.dfy` | the agent's fields and methods, each equal to that step |
| `RecoverySteps.dfy`, `RecoveryRuns.dfy` | what a step may do; safety over whole runs of polls, contacts, clears, outside switches and restarts |
| `RecoveryLiveness.dfy` | no terminal park: a deadline over phases and clocks |
| `CheckInPacing.dfy` | when the panel is asked while recovery is busy |
| `GuardFiles.dfy` | opkg's status file and the crontab, rewritten in place |
| `GuardRollback.dfy`, `GuardRestore.dfy` | the rollback copy, one restore attempt with power loss at any step, and any number of retries |
| `GuardWatch.dfy` | the guard's clockwork: judging windows, counting boots, backing off |
| `Sorting.dfy`, `ConfigDiff.dfy`, `ConfigSections.dfy`, `ConfigHidden.dfy`, `ConfigCanonical.dfy`, `ConfigShown.dfy` | the field diff of two configurations, its sections, what it does not see, the form the two are compared in, and exactly when their diff is empty |
| `RolloutVersions.dfy`, `Rollout.dfy` | rolling a release out, one router at a time |
| `Fetch.dfy` | the self-update command: downloads, gate, undo |
| `EventFanout.dfy` | the installer's event stream to concurrent viewers |
| `RouterEditor.dfy` | the draft editor's reference-keeping operations |
| `Calendar.dfy`, `PackagesIndex.dfy`, `OperatorSession.dfy` | timestamps, package indexes, cookies |
| `Wrappers.dfy`, `Digits.dfy`, `Trimming.dfy`, `Picking.dfy` | shared helpers |

The guard exists twice in the repository: as the shell program cited below and,
without its comments, as the string on line 4 of
`apps/web/src/lib/controller-update-guard-script.ts`. The code is the same.

## What the proofs found

Some of what one would like to hold does not. The code is modelled as it is; a
lemma shows the failing case and another says exactly when all is well.

- A retry of PassWall is meant to be judged after its warmup. A poll inside the
  warmup fills the group cache (`WarmupPollReads`), and the judging poll reuses
  that reading exactly while it lives (`RetryJudgedOnWarmupReading`); what always holds is that the
  reading is from after the resume (`RetryJudgedAfterResume`).
- No terminal park holds from the phases that own PassWall. Outside them, with
  the panel down and PassWall switched off by someone else, recovery never
  switches it on (`DeadPanelLeavesExternalDirect`).
- A rollback that reports done has the old version back, whatever failed on
  the way (`Guard.Retry`, `OldBackAtEveryPath`), but three things do not follow.
  - That nothing of the new version is left. A new file stays when its list
    broke off on its way aside, since a list is never taken again
    (`CutListStrandsNewFiles`), when the install was killed before it wrote the
    line (`KilledInstallMisleads`), and when its removal was refused, info files
    included (`InfoLeftExactly`).
  - That nobody else's file is touched. A list that breaks off inside a line may
    name one, which the rollback then deletes (`CutInsideALineDeletes`); one
    attempt spares them exactly if no list breaks off at such a name
    (`FrameKeptExactly`), and over all attempts exactly the files are at risk
    that a list begins with (`Guard.Retry`, `BegunCanBeLost`).
  - That everyone else's stanzas are in the status file, when that breaks off
    unnoticed (`BrokenStatusKeepsOthersExactly`).
  With nothing broken off and nothing refused, the router is rolled back exactly
  if the lists on disk at the start named the new version's files and no other
  (`RolledBackExactly`).
- A path that an old list names, but where nothing was before the update, keeps
  what the new version put there (`OldNamedNewcomersStay`); at which paths the
  router is exactly what it was is `BackExactly`.
- Without a manifest a complete restore is told from a torn one by the binary
  alone (`NoManifestHidesATear`), and a power loss after the extraction may tear
  any file, since nothing forces it to the flash.
- At the attempt limit the guard leaves a running agent alone for good
  (`LimitIsFinal`), but in that phase, after a reboot with the agent dead, the
  next attempt starts the count again (`CountRestarts`).
- A poll that fails ends the cycle before the check-in. Parked, with a switch
  that cannot be written, every poll fails, and the panel hears nothing for as
  long as that lasts (`FailingPollsStarve`, `CheckInUnlessFailed`).
- A panel that answers every other probe postpones the guard's decision without
  limit (`FlappingPostpones`).
- A crontab block whose end marker is lost swallows the lines after it
  (`UnclosedBlockSwallowsTheRest`).
- The field diff misses a change under a key its path cannot carry
  (`KeyHidesExactly`, `ChangeHidesExactly`) and an array against an object keyed by its indices
  (`ClashHidesAChange`); with keys a path can carry it misses nothing else
  (`EmptyDiffIsAlike`, `EmptyDiffIsEqual`).
- An installer event that falls between a viewer's copy of the backlog and its
  subscription is lost (`GapLoses`, `NothingLostExactly`).
- Pruning nodes leaves stale shunt bindings, and nothing else, until they are
  normalised; deleting a single node leaves every reference but the selection; a
  rule named like another rule's key clashes with it on rename and delete
  (`PruningLeavesExactlyStaleBindings`, `DeletingLeavesReferences`,
  `RelatedNamesClash`, `DeletingSparesUnrelatedRules`).
- A stanza without a package name leaks into the next one for the agent's
  scanner (`NamelessStanzaLeaks`), and one line of 64 KiB makes it read nothing
  (`PrintThenParse`). A line end only Python sees makes the script plan an entry
  that the router's awk does not find (`OtherLineEndsMislead`).
- The on-router version test and the rollout script disagree on exactly the
  versions the script cannot read and whose numbers reach the bound, as 0.7.1
  without a revision (`EndsDisagreeExactly`, `TriplesDisagreeExactly`);
  well-formed ones agree.
- The guard's date arithmetic loses the day between 29 February and 1 March of
  the year 0, and no other from the year 0 on (`ConsecutiveExactly`); no
  router's clock shows it.

## Model

| member | source | states |
|---|---|---|
| `RecoveryAgent.SummarizeReachabilityProbe` | router/vectra-controller-agent/cmd/vectra-controller-agent/controlplane_recovery.go:846-910 | The probe loop grades a group by how many of its results are answers: full from one threshold, partial from a lower one, else blocked; unset without targets. |
| `RecoveryAgent.Agent.SetControlPlaneRecoveryPhase` | router/vectra-controller-agent/cmd/vectra-controller-agent/controlplane_recovery.go:1086-1105 | Sets phase, reason and the awaiting flag, nothing else. |
| `RecoveryAgent.Agent.SetPasswallMainSwitch` | router/vectra-controller-agent/cmd/vectra-controller-agent/rescue_runtime.go:279-315 | The switch takes the value once the batch is written, even when the restart after it fails. |
| `RecoveryAgent.Agent.ResumeProxyMode` | router/vectra-controller-agent/cmd/vectra-controller-agent/rescue_runtime.go:690-734 | A resume moves the transition clock and drops the cached groups only when the write and the restart both worked. |
| `RecoveryAgent.Agent.EnterDirectModeForRecovery` | router/vectra-controller-agent/cmd/vectra-controller-agent/controlplane_recovery.go:1184-1231 | The same for going direct. |
| `RecoveryAgent.Agent.CachedProxyNodeVerdict` | router/vectra-controller-agent/cmd/vectra-controller-agent/controlplane_recovery.go:107-141 | A verdict is reused for the same node for less than one cooldown; an unjudged one is never kept. |
| `RecoveryAgent.Agent.HoldRecoveryDirectForUnusableRuntime` | router/vectra-controller-agent/cmd/vectra-controller-agent/proxy_runtime_guard.go:125-155 | Holds in operator attention exactly when the runtime blocks a resume, without touching the retry clock. |
| `RecoveryAgent.Agent.ProbePanel` | router/vectra-controller-agent/cmd/vectra-controller-agent/controlplane_recovery.go:183-210 | A failed probe opens the outage, at process start when no contact was ever made. |
| `RecoveryAgent.Agent.CollectRecoveryReachabilityGroups` | router/vectra-controller-agent/cmd/vectra-controller-agent/controlplane_recovery.go:762-809 | The groups are measured once per cache lifetime; of those measured the foreign one is healthy exactly if two targets answered, partial exactly if one did, the RU one reachable exactly if one did, and each blocked exactly if it has targets and none did. |
| `RecoveryAgent.Agent.Probe` | router/vectra-controller-agent/cmd/vectra-controller-agent/controlplane_recovery.go:183-232 | What one poll observes before it acts. |
| `RecoveryAgent.Agent.StartControlPlaneRecovery` | router/vectra-controller-agent/cmd/vectra-controller-agent/controlplane_recovery.go:591-689 | Restart, wait, stay in the tunnel or go direct, as the observed state says. |
| `RecoveryAgent.Agent.ScheduleReboot` | router/vectra-controller-agent/cmd/vectra-controller-agent/controlplane_recovery.go:343-360 | A reboot is taken only when wanted and allowed by the cooldown. |
| `RecoveryAgent.Agent.SettleDirect` | router/vectra-controller-agent/cmd/vectra-controller-agent/controlplane_recovery.go:285-360 | The settle phase in direct: its clock, the ways back and the way to a reboot. |
| `RecoveryAgent.Agent.CheckAfterReboot` | router/vectra-controller-agent/cmd/vectra-controller-agent/controlplane_recovery.go:370-445 | The check after a reboot and its settle time. |
| `RecoveryAgent.Agent.JudgePasswallRetry` | router/vectra-controller-agent/cmd/vectra-controller-agent/controlplane_recovery.go:446-501 | The judgement of a retry after its warmup. |
| `RecoveryAgent.Agent.AwaitOperator` | router/vectra-controller-agent/cmd/vectra-controller-agent/controlplane_recovery.go:502-574 | Operator attention and its ways out. |
| `RecoveryAgent.Agent.AdvanceControlPlaneRecovery` | router/vectra-controller-agent/cmd/vectra-controller-agent/controlplane_recovery.go:161-578 | One poll of the whole machine equals the model's step on the state it found, with the actions it took. |
| `RecoveryAgent.Agent.NoteSuccessfulControlPlaneContact` | router/vectra-controller-agent/cmd/vectra-controller-agent/controlplane_recovery.go:691-723 | A contact ends the outage and the phases that only watch it. |
| `RecoveryAgent.Agent.ClearControlPlaneRecoveryOwnership` | router/vectra-controller-agent/cmd/vectra-controller-agent/controlplane_recovery.go:1107-1136 | A clear returns to idle and forgets the restart and retry clocks, not the reboot clock. |
| `RecoverySteps.ActFacts` | router/vectra-controller-agent/cmd/vectra-controller-agent/controlplane_recovery.go:234-575 | For every phase, what a poll may change, which actions it may take and under what conditions. |
| `RecoverySteps.ObserveFacts` | router/vectra-controller-agent/cmd/vectra-controller-agent/controlplane_recovery.go:183-232 | Observation moves nothing but the outage, the statuses, the groups and idle to monitoring. |
| `RecoverySteps.MeasuredGrades` | router/vectra-controller-agent/cmd/vectra-controller-agent/controlplane_recovery.go:762-809 | A poll is graded by its own measurement exactly when it needs the groups and none are cached, else by the cached ones, or not at all. |
| `RecoveryRuns.SaneRun` | router/vectra-controller-agent/cmd/vectra-controller-agent/controlplane_recovery.go:183-210 | Over every run no record lies in the future and an outage never begins before the last contact. |
| `RecoveryRuns.AtMostOneAction` | router/vectra-controller-agent/cmd/vectra-controller-agent/controlplane_recovery.go:234-689 | A poll takes at most one of: switch off, switch on, restart, reboot. |
| `RecoveryRuns.SwitchOffExactly` | router/vectra-controller-agent/cmd/vectra-controller-agent/controlplane_recovery.go:591-689 | One poll switches PassWall off if and only if the stated conditions of its phase hold. |
| `RecoveryRuns.SwitchOnExactly` | router/vectra-controller-agent/cmd/vectra-controller-agent/controlplane_recovery.go:285-574 | One poll switches PassWall on if and only if the stated conditions of its phase hold. |
| `RecoveryRuns.RebootExactly` | router/vectra-controller-agent/cmd/vectra-controller-agent/controlplane_recovery.go:343-360 | One poll reboots if and only if the direct settle is over, the way back is not open, a reboot is wanted and the cooldown has passed. |
| `RecoveryRuns.RestartExactly` | router/vectra-controller-agent/cmd/vectra-controller-agent/controlplane_recovery.go:591-640 | One poll restarts the agent if and only if the panel has been silent for the threshold over a healthy internet and no restart was made in this outage. |
| `RecoveryRuns.HomeExactly` | router/vectra-controller-agent/cmd/vectra-controller-agent/controlplane_recovery.go:370-575 | One poll ends in idle if and only if the stated conditions of its phase hold. |
| `RecoveryRuns.AttentionExactly` | router/vectra-controller-agent/cmd/vectra-controller-agent/controlplane_recovery.go:285-575 | One poll ends in operator attention if and only if the stated conditions of its phase hold, by the router, the reading and the write alone. |
| `RecoveryRuns.CacheIsMeasured` | router/vectra-controller-agent/cmd/vectra-controller-agent/controlplane_recovery.go:107-141 | Over every run the verdict cache holds only what some earlier poll measured, for that node, at that time. |
| `RecoveryRuns.ContactsRecorded` | router/vectra-controller-agent/cmd/vectra-controller-agent/controlplane_recovery.go:691-698 | Over every run a contact stays recorded. |
| `RecoveryRuns.DirectOnlyOnEvidence` | router/vectra-controller-agent/cmd/vectra-controller-agent/controlplane_recovery.go:370-501 | Over every run recovery goes direct only over a silent outage of the panel with foreign probes down and the node measured dead within a cooldown, or after a warmup or a reboot settle that found it dead or RU unreachable. |
| `RecoveryRuns.LiveNodeKeepsTheVpn` | router/vectra-controller-agent/cmd/vectra-controller-agent/controlplane_recovery.go:602-683 | A run in which the node is never measured dead never goes direct and never reboots, whatever the panel does. |
| `RecoveryRuns.DeadPanelLeavesExternalDirect` | router/vectra-controller-agent/cmd/vectra-controller-agent/controlplane_recovery.go:1008-1035 | Outside its own phases, with the panel down and PassWall switched off by someone else, recovery never switches it on. |
| `RecoveryRuns.RebootsApart` | router/vectra-controller-agent/cmd/vectra-controller-agent/controlplane_recovery.go:976-983 | Over every run two reboots are a reboot cooldown apart, across ownership clears too. |
| `RecoveryRuns.OneRestartPerOutage` | router/vectra-controller-agent/cmd/vectra-controller-agent/controlplane_recovery.go:912-921 | Two controller restarts never fall into one outage without a contact or clear between. |
| `RecoveryRuns.SettlingHolds` | router/vectra-controller-agent/cmd/vectra-controller-agent/controlplane_recovery.go:285-502 | Until its clock runs out no event but a clear moves a settling phase, and no action is taken. |
| `RecoveryRuns.NothingMovesWhileSettling` | router/vectra-controller-agent/cmd/vectra-controller-agent/controlplane_recovery.go:285-502 | After a resume, a reboot or a direct, no action follows within the warmup, the reboot settle or the direct settle. |
| `RecoveryRuns.AwaitingOperatorIsTruthful` | router/vectra-controller-agent/cmd/vectra-controller-agent/controlplane_recovery.go:1086-1136 | Over every run operator attention implies the awaiting flag, and the flag implies operator attention or the retry being judged. |
| `RecoveryRuns.RetryJudgedAfterResume` | router/vectra-controller-agent/cmd/vectra-controller-agent/controlplane_recovery.go:762-809 | Over every run the groups a retry is judged on were measured after the resume. |
| `RecoveryRuns.RetryJudgedOnWarmupReading` | router/vectra-controller-agent/cmd/vectra-controller-agent/controlplane_recovery.go:446-501 | But not after the warmup: whatever happens during it, the judging poll goes by the last reading taken during the warmup exactly when one is cached that is younger than the cache's lifetime, else by its own. |
| `RecoveryRuns.WarmupPollReads` | router/vectra-controller-agent/cmd/vectra-controller-agent/controlplane_recovery.go:762-809 | And a poll during the warmup takes such a reading. |
| `RecoveryLiveness.PollProgress` | router/vectra-controller-agent/cmd/vectra-controller-agent/controlplane_recovery.go:234-575 | Every helpful poll from an owned phase is home in time or keeps the deadline. |
| `RecoveryLiveness.HomeOrCloser` | router/vectra-controller-agent/cmd/vectra-controller-agent/controlplane_recovery.go:234-575 | Over every helpful run the deadline computed from the state never moves later until the machine has been home. |
| `RecoveryLiveness.NoTerminalPark` | router/vectra-controller-agent/cmd/vectra-controller-agent/controlplane_recovery.go:502-574 | From every phase that owns PassWall a helpful run past the deadline has been idle with PassWall on, in time, whatever the panel does. |
| `RecoveryLiveness.OperatorAttentionIsNotTerminal` | router/vectra-controller-agent/cmd/vectra-controller-agent/controlplane_recovery.go:153-159 | From operator attention that time is the later of the last retry plus 15 min and the cached verdict plus a cooldown, plus a warmup and two poll gaps. |
| `CheckInPacing.RecoveryCheckInInterval` | router/vectra-controller-agent/cmd/vectra-controller-agent/checkin_pacing.go:37-49 | The doubling loop gives min(base * 2^n, max) for every n, and no value on the way reaches twice the maximum. |
| `CheckInPacing.IntervalBounds` | router/vectra-controller-agent/cmd/vectra-controller-agent/checkin_pacing.go:37-49 | Between two and five minutes; four after one failure; the maximum after more. |
| `CheckInPacing.CheckInPacer.DueDuringRecovery` | router/vectra-controller-agent/cmd/vectra-controller-agent/checkin_pacing.go:51-63 | Due on the first attempt, when the clock went back, or once the interval has passed; never while a reboot is awaited. |
| `CheckInPacing.CheckInPacer.NoteAttempt` | router/vectra-controller-agent/cmd/vectra-controller-agent/checkin_pacing.go:65-70 | An attempt moves the clock and counts a failure until an answer comes. |
| `CheckInPacing.CheckInPacer.NoteSuccess` | router/vectra-controller-agent/cmd/vectra-controller-agent/checkin_pacing.go:72-76 | An answer clears the failures, not the clock. |
| `CheckInPacing.ForcedCheckInsApart` | router/vectra-controller-agent/cmd/vectra-controller-agent/main.go:286-300 | Over every sequence of cycles a check-in forced during recovery is two minutes after any other and four after a failed one. |
| `CheckInPacing.PanelNotStarved` | router/vectra-controller-agent/cmd/vectra-controller-agent/main.go:286-300 | A check-in is left out only when the poll failed, a settle clock runs, an action was just taken, or the last attempt is less than five minutes old. |
| `CheckInPacing.CheckInUnlessFailed` | router/vectra-controller-agent/cmd/vectra-controller-agent/main.go:257-263 | With no clock settling and no action, five minutes after the last attempt a check-in goes out exactly if the poll did not fail. |
| `CheckInPacing.FailingPollsStarve` | router/vectra-controller-agent/cmd/vectra-controller-agent/main.go:257-263 | Over every run parked in operator attention with a switch that cannot be written, every poll fails and no check-in ever goes out. |
| `GuardFiles.SaveStanzas` | router/vectra-controller-agent/openwrt/update-guard/vectra-update-guard.sh:543-547 | The saving loop yields the stanzas of the two packages. |
| `GuardFiles.RestoreStatus` | router/vectra-controller-agent/openwrt/update-guard/vectra-update-guard.sh:604-614 | The rewriting loop yields the other stanzas, sealed, followed by the saved ones. |
| `GuardFiles.RestoreIsExact` | router/vectra-controller-agent/openwrt/update-guard/vectra-update-guard.sh:604-614 | For every status file: the two packages' stanzas and versions are the saved ones, what is not theirs is stripped the same again, twice is once. |
| `GuardFiles.RestoreKeepsTheOthers` | router/vectra-controller-agent/openwrt/update-guard/vectra-update-guard.sh:604-614 | For every status file: the restored one is every line outside the two packages' stanzas, in order, a closing empty line where the last of them ends no stanza, and the saved stanzas. |
| `GuardFiles.OtherVersionsStay` | router/vectra-controller-agent/openwrt/update-guard/vectra-update-guard.sh:604-614 | In a status file whose stanzas end at an empty line every other package's recorded version is unchanged by the restore. |
| `GuardFiles.SavedStanzasAreKept` | router/vectra-controller-agent/openwrt/update-guard/vectra-update-guard.sh:543-547 | What is saved is whole stanzas, and saving it again changes nothing. |
| `GuardFiles.RestoreUndoesAnUpdate` | router/vectra-controller-agent/openwrt/update-guard/vectra-update-guard.sh:604-614 | What an update did to the two stanzas leaves no trace. |
| `GuardFiles.StanzasKeepVersions` | router/vectra-controller-agent/openwrt/update-guard/vectra-update-guard.sh:151-153 | In a status file whose stanzas end at an empty line, the saved stanzas record the same versions. |
| `GuardFiles.VersionExactly` | router/vectra-controller-agent/openwrt/update-guard/vectra-update-guard.sh:151-153 | The version recorded for a package is that of the first version line in a stanza of it; without one there is none. |
| `GuardFiles.FirstFieldExactly` | router/vectra-controller-agent/openwrt/update-guard/vectra-update-guard.sh:151-153 | A field is what stands between blanks. |
| `GuardFiles.CronWrite` | router/vectra-controller-agent/openwrt/update-guard/vectra-update-guard.sh:346-356 | The rewriting loop yields the crontab without its block, then, when installing, the two markers with a tick of the guard every minute between them. |
| `GuardFiles.CronInstallRoundTrip` | router/vectra-controller-agent/openwrt/update-guard/vectra-update-guard.sh:346-363 | Installing is idempotent; removing gives the crontab back exactly when it held no marker. |
| `GuardFiles.CronKeepsOutside` | router/vectra-controller-agent/openwrt/update-guard/vectra-update-guard.sh:346-356 | For every crontab, with any number of blocks: exactly the lines that are no marker and in no block stay, in order. |
| `GuardFiles.UnclosedBlockSwallowsTheRest` | router/vectra-controller-agent/openwrt/update-guard/vectra-update-guard.sh:349 | A begin marker without its end drops every line after it. |
| `GuardRollback.RestoreOkMeansOldBack` | router/vectra-controller-agent/openwrt/update-guard/vectra-update-guard.sh:723-737 | With a good copy a restore judged complete is one: content (with a manifest), versions, and no info file of the new version but those that would not be removed. |
| `GuardRollback.NoManifestHidesATear` | router/vectra-controller-agent/openwrt/update-guard/vectra-update-guard.sh:725-733 | Without a manifest any other file than the binary may be torn and the restore still passes for complete. |
| `GuardRollback.FirstBeginsLess` | router/vectra-controller-agent/openwrt/update-guard/vectra-update-guard.sh:826-829 | A list that broke off anywhere, inside a line too, may name only what a line of the whole one begins with. |
| `GuardRollback.BreakThatNames` | router/vectra-controller-agent/openwrt/update-guard/vectra-update-guard.sh:839-844 | And it can come to name any such path: there is a place to break off at. |
| `GuardRollback.NamedExactly` | router/vectra-controller-agent/openwrt/update-guard/vectra-update-guard.sh:839-841 | A list names exactly the absolute paths that stand on a line of it, alone or before a tab. |
| `GuardRollback.BrokenStatusKeepsOthersExactly` | router/vectra-controller-agent/openwrt/update-guard/vectra-update-guard.sh:604-613 | A rewritten status file that breaks off still holds everyone else's stanzas exactly under a condition on where, stated on the file as it was. |
| `GuardRestore.ListOwned` | router/vectra-controller-agent/openwrt/update-guard/vectra-update-guard.sh:517-529 | The listing loops find exactly the files a package's list names and its info files. |
| `GuardRestore.WriteManifest` | router/vectra-controller-agent/openwrt/update-guard/vectra-update-guard.sh:644-658 | One entry per copied path, with its link target, its content, or exempt as a conffile. |
| `GuardRestore.Prepare` | router/vectra-controller-agent/openwrt/update-guard/vectra-update-guard.sh:515-602 | A copy is taken exactly when there is room and the agent came through opkg; it holds what the two packages own, as it was, with stanzas and versions; its manifest asks for the content of every copied path but the exempt ones. |
| `GuardRestore.ConffilesAreExempt` | router/vectra-controller-agent/openwrt/update-guard/vectra-update-guard.sh:646-651 | Exempt is a path exactly if it is absolute and a line of one of the two packages' conffiles lists. |
| `GuardRestore.KeptLifts` | router/vectra-controller-agent/openwrt/update-guard/vectra-update-guard.sh:826-829 | Keeping a list aside, whole, lost or broken off at any character, makes no list begin with more; where it does not break off the session's invariant stays. |
| `GuardRestore.RemovedLifts` | router/vectra-controller-agent/openwrt/update-guard/vectra-update-guard.sh:835-846 | Removing by a list takes only loose files a list begins with, keeps the invariant, the stranded files and the lists. |
| `GuardRestore.DroppedLifts` | router/vectra-controller-agent/openwrt/update-guard/vectra-update-guard.sh:847-849 | Dropping the info files that go touches no loose file. |
| `GuardRestore.UnpackLifts` | router/vectra-controller-agent/openwrt/update-guard/vectra-update-guard.sh:850-857 | So does an extraction, whole or torn anywhere; a torn list begins with no more than the copy's. |
| `GuardRestore.CrashLifts` | router/vectra-controller-agent/openwrt/update-guard/vectra-update-guard.sh:824-829 | So does a power loss, even where a list this attempt kept did not reach the flash to its end. |
| `GuardRestore.Guard.KeepList` | router/vectra-controller-agent/openwrt/update-guard/vectra-update-guard.sh:826-829 | A list is kept aside once, whole, broken off or not at all; one kept earlier is never overwritten. |
| `GuardRestore.Guard.RemoveNamed` | router/vectra-controller-agent/openwrt/update-guard/vectra-update-guard.sh:835-846 | The removing loop takes only files the effective list names and no old list does, and all of them when power and removals hold. |
| `GuardRestore.Guard.DropInfo` | router/vectra-controller-agent/openwrt/update-guard/vectra-update-guard.sh:847-849 | The loop removes only the package's info files that would go, all of them unless the power goes. |
| `GuardRestore.Guard.DiskMatchesCopy` | router/vectra-controller-agent/openwrt/update-guard/vectra-update-guard.sh:661-673 | The manifest loop answers whether every entry is met. |
| `GuardRestore.Guard.Complete` | router/vectra-controller-agent/openwrt/update-guard/vectra-update-guard.sh:723-737 | The completeness check, as the model states it. |
| `GuardRestore.Guard.RemoveNew` | router/vectra-controller-agent/openwrt/update-guard/vectra-update-guard.sh:835-846 | Once through, exactly the loose files are gone that a list in use names and that would go; every other path is as it was. |
| `GuardRestore.Guard.Unpack` | router/vectra-controller-agent/openwrt/update-guard/vectra-update-guard.sh:850-857 | The extraction, whole, failed or torn by a power loss, touches no path outside the copy. |
| `GuardRestore.Guard.PutBack` | router/vectra-controller-agent/openwrt/update-guard/vectra-update-guard.sh:820-857 | The first part of an attempt: whatever fails no list begins with more and outside the copy only info files and loose files a list begins with go; once through, exactly which. |
| `GuardRestore.Guard.Rollback` | router/vectra-controller-agent/openwrt/update-guard/vectra-update-guard.sh:786-882 | One attempt that may lose power at any step: done is reported only on a complete restore, and without mishap it is; where the power stays, a path outside the copy goes exactly if it is a loose file a list in use names, or an info file, and would go. |
| `GuardRestore.Guard.RetryRestore` | router/vectra-controller-agent/openwrt/update-guard/vectra-update-guard.sh:742-782 | A retry ends the session when the restore is complete after all, else attempts again, under the same contract. |
| `GuardRestore.Guard.Retry` | router/vectra-controller-agent/openwrt/update-guard/vectra-update-guard.sh:742-882 | Over any number of attempts, whatever fails in them: done means the old version is back, but for info files that would not go; outside the copy nothing changes but that info files go and loose files a list began with; and where the power stays, exactly those go that some attempt doomed. Where nothing broke off and nothing was refused the loose files left are exactly those no list named at the start. One attempt without mishap suffices. |
| `GuardRestore.RunOf` | router/vectra-controller-agent/openwrt/update-guard/vectra-update-guard.sh:742-882 | What a run of attempts keeps, by induction over the sessions between them. |
| `GuardRestore.RolledBackExactly` | router/vectra-controller-agent/openwrt/update-guard/vectra-update-guard.sh:835-846 | Where nothing broke off and nothing was refused, the router is rolled back exactly if the lists on disk at the start named the new version's loose files and no other. |
| `GuardRestore.FrameKeptExactly` | router/vectra-controller-agent/openwrt/update-guard/vectra-update-guard.sh:826-844 | An attempt whose lists name only old and new paths touches nobody else's exactly if no list breaks off, on its way aside, at an absolute path that no old list names, that is a file on disk, that is neither package's and that would go. |
| `GuardRestore.CutInsideALineDeletes` | router/vectra-controller-agent/openwrt/update-guard/vectra-update-guard.sh:839-844 | A kept list that breaks off at the name of somebody else's file has that file deleted. |
| `GuardRestore.BegunCanBeLost` | router/vectra-controller-agent/openwrt/update-guard/vectra-update-guard.sh:826-844 | Every loose file that a list of the session or of the copy begins with can be lost: in an attempt that is done, or in one that is done after a failed extraction. |
| `GuardRestore.InfoLeftExactly` | router/vectra-controller-agent/openwrt/update-guard/vectra-update-guard.sh:847-849 | Outside the copy the info files left are exactly those whose removal was refused; with one, done leaves an info file of the new version. |
| `GuardRestore.CutListStrandsNewFiles` | router/vectra-controller-agent/openwrt/update-guard/vectra-update-guard.sh:826-829 | A list that broke off is never taken again: a new file neither list names any more is stranded. |
| `GuardRestore.KilledInstallMisleads` | router/vectra-controller-agent/openwrt/update-guard/vectra-update-guard.sh:907-912 | An install killed before it wrote the line that names a file strands it; killed inside a line it may leave a list that names somebody else's file, which an attempt without mishap deletes. |
| `GuardRestore.OldBackAtEveryPath` | router/vectra-controller-agent/openwrt/update-guard/vectra-update-guard.sh:723-737 | Whatever failed, done means at every path: a copied one that is not exempt has its old content; an info file outside the copy is gone or was refused; any other is as the install left it, or was a file no old list names and a list begins with, and is gone; nobody else's was touched by the install. |
| `GuardRestore.SettledAtEveryPath` | router/vectra-controller-agent/openwrt/update-guard/vectra-update-guard.sh:835-846 | Where nothing broke off and nothing was refused, outside the copy exactly the info files go and the files a list of the install names and no old one does. |
| `GuardRestore.BackExactly` | router/vectra-controller-agent/openwrt/update-guard/vectra-update-guard.sh:835-857 | Then at every path but the exempt ones the router is what it was exactly under a condition on the disk the install left. |
| `GuardRestore.OldNamedNewcomersStay` | router/vectra-controller-agent/openwrt/update-guard/vectra-update-guard.sh:842 | A path an old list names, but where nothing was before, keeps what the new version put there. |
| `GuardRestore.FailedUpdate` | router/vectra-controller-agent/openwrt/update-guard/vectra-update-guard.sh:473-882 | Copy, install that stops anywhere, inside a line of its lists too, attempts that fail in any way: once one reports done, every path stands as said above, the agent's binary has its old content and the two versions are back; everyone else's stanzas too where no status file broke off. |
| `GuardWatch.Watch.RetryDelay` | router/vectra-controller-agent/openwrt/update-guard/vectra-update-guard.sh:767-774 | The doubling loop gives min(60 * 2^(n-1), 1800) below the attempt limit and 1800 at it. |
| `GuardWatch.Watch.RollBack` | router/vectra-controller-agent/openwrt/update-guard/vectra-update-guard.sh:786-882 | An attempt counts on from an earlier one exactly when the phase or /tmp still says a restore is under way. |
| `GuardWatch.Watch.Retry` | router/vectra-controller-agent/openwrt/update-guard/vectra-update-guard.sh:742-782 | Complete: the session ends; at the limit with an agent: manual; throttled: nothing; else an attempt. |
| `GuardWatch.Watch.JudgeAgent` | router/vectra-controller-agent/openwrt/update-guard/vectra-update-guard.sh:960-1036 | The judgement of a running window, in the script's order. |
| `GuardWatch.Watch.TickOnce` | router/vectra-controller-agent/openwrt/update-guard/vectra-update-guard.sh:901-1037 | One tick in every phase. |
| `GuardWatch.Watch.Boot` | router/vectra-controller-agent/openwrt/update-guard/vectra-update-guard.sh:1094-1123 | The early boot hook counts a boot and applies the limit, unless the session is stale. |
| `GuardWatch.VerifiedExactly` | router/vectra-controller-agent/openwrt/update-guard/vectra-update-guard.sh:970-1004 | A tick of an open window ends the session verified exactly if the copy is there, the binary good, the agent has run two minutes under one pid and the panel was heard. |
| `GuardWatch.RolledBackExactly` | router/vectra-controller-agent/openwrt/update-guard/vectra-update-guard.sh:970-1036 | With the copy there it attempts a rollback exactly if the session does not end verified and the binary is bad, no pid was stable within five minutes, or the panel has answered for three minutes after 15, or not answered for three after an hour. |
| `GuardWatch.OtherwiseItGoesOn` | router/vectra-controller-agent/openwrt/update-guard/vectra-update-guard.sh:971-975 | Without the copy it ends the session, and it goes on exactly in all other cases. |
| `GuardWatch.AttemptEnds` | router/vectra-controller-agent/openwrt/update-guard/vectra-update-guard.sh:786-882 | How an attempt ends: copy unusable, old version back, or failed, with the attempt counted and its time kept. |
| `GuardWatch.VerifiedIsProven` | router/vectra-controller-agent/openwrt/update-guard/vectra-update-guard.sh:976-1004 | Over any events and boots no session ends verified unless in one boot the agent ran two minutes under one pid and the panel was heard at their end. |
| `GuardWatch.CrashLoopIsRolledBack` | router/vectra-controller-agent/openwrt/update-guard/vectra-update-guard.sh:1006-1009 | An agent never two minutes under one pid is rolled back, or a rollback begun, by the first tick five minutes after the opening of the window. |
| `GuardWatch.WaitingExactly` | router/vectra-controller-agent/openwrt/update-guard/vectra-update-guard.sh:906-923 | When an unfinished update is rolled back, when a restart that never came is made, and what the clock does until then. |
| `GuardWatch.RearmedExactly` | router/vectra-controller-agent/openwrt/update-guard/vectra-update-guard.sh:950-969 | When a window is opened again, that it counts the boot once, and that the third brings the old version back. |
| `GuardWatch.RetriedExactly` | router/vectra-controller-agent/openwrt/update-guard/vectra-update-guard.sh:742-782 | When a retry ends the session, makes an attempt or does nothing, exactly. |
| `GuardWatch.LeftAlone` | router/vectra-controller-agent/openwrt/update-guard/vectra-update-guard.sh:930-937 | In the manual phase a running agent is left alone, and a session that is over stays over. |
| `GuardWatch.BootedExactly` | router/vectra-controller-agent/openwrt/update-guard/vectra-update-guard.sh:1094-1115 | When the boot hook ends a session, counts the boot, or brings the old version back, exactly. |
| `GuardWatch.WatchingEnds` | router/vectra-controller-agent/openwrt/update-guard/vectra-update-guard.sh:901-1037 | Whatever the agent does and the ticks find, once the panel's answer has settled a session is decided by a computed bound. |
| `GuardWatch.ShippedBounds` | router/vectra-controller-agent/openwrt/update-guard/vectra-update-guard.sh:1013-1036 | With ticks at most a minute apart the bound is 15 minutes when the panel answers, an hour when it does not. |
| `GuardWatch.FlappingPostpones` | router/vectra-controller-agent/openwrt/update-guard/vectra-update-guard.sh:1013-1024 | From the opening of the window on, a panel that answers every other minute postpones the end for any number of minutes. |
| `GuardWatch.BootsAreCounted` | router/vectra-controller-agent/openwrt/update-guard/vectra-update-guard.sh:451-465 | While a session watches, its counter is the number of reboots it saw, and below the limit. |
| `GuardWatch.BootLoopEnds` | router/vectra-controller-agent/openwrt/update-guard/vectra-update-guard.sh:460-465 | A watching session never survives three reboots it saw. |
| `GuardWatch.WatchingEndsOverBoots` | router/vectra-controller-agent/openwrt/update-guard/vectra-update-guard.sh:960-1036 | Over any number of boots a session is decided once one of them lasts to the bound of its window or they reach the limit. |
| `GuardWatch.RetriesBackOff` | router/vectra-controller-agent/openwrt/update-guard/vectra-update-guard.sh:767-778 | Within one boot attempts a and b lie the delays of a, ..., b-1 apart. |
| `GuardWatch.TenAttemptsTake` | router/vectra-controller-agent/openwrt/update-guard/vectra-update-guard.sh:767-774 | All ten attempts take at least 9060 seconds. |
| `GuardWatch.LimitIsFinal` | router/vectra-controller-agent/openwrt/update-guard/vectra-update-guard.sh:755-763 | At the limit, as long as the agent runs at every tick, no attempt is made again, across any reboots. |
| `GuardWatch.CountRestarts` | router/vectra-controller-agent/openwrt/update-guard/vectra-update-guard.sh:797-801 | In the manual phase with a dead agent an attempt keeps the count exactly while /tmp remembers the restore; after a reboot it starts again at one. |
| `ConfigDiff.SameValueIsEqual` | packages/contracts/src/helpers.ts:92-112 | Comparing stable forms is equality up to key order, for any total order of strings. |
| `ConfigDiff.SegmentsOfKey` | packages/contracts/src/helpers.ts:304-305 | A key a path can carry is read back as one segment after the path before it. |
| `ConfigDiff.SegmentsOfIndex` | packages/contracts/src/helpers.ts:294-296 | So is an index, after any path at all. |
| `ConfigDiff.GetAtPath` | packages/contracts/src/helpers.ts:380-410 | The walking loop equals the recursive walk. |
| `ConfigDiff.SomeLeaf` | packages/contracts/src/helpers.ts:285-308 | Every value has a leaf path, and it reads back to something. |
| `ConfigDiff.Witness` | packages/contracts/src/helpers.ts:285-308 | Two values that are not alike differ at a leaf path of one of them, read back the same way on both. |
| `ConfigDiff.LeavesReadAlike` | packages/contracts/src/helpers.ts:380-410 | Every leaf path of a value reads the same in one that is alike. |
| `ConfigDiff.AlikeIsEqual` | packages/contracts/src/helpers.ts:92-112 | Alike is equal where no array stands against an object. |
| `ConfigDiff.EmptyDiffIsAlike` | packages/contracts/src/helpers.ts:879-916 | For all trees whose keys a path can carry, no path is reported exactly when the two are equal up to key order and up to arrays against objects keyed by their indices (or neither has a leaf path). |
| `ConfigDiff.EmptyDiffIsEqual` | packages/contracts/src/helpers.ts:879-916 | Where no array stands against an object that is equality up to key order: the diff is complete and ignores reordering. |
| `ConfigDiff.CollectChanges` | packages/contracts/src/helpers.ts:890-913 | Each differing path once, in the order found. |
| `ConfigDiff.BuildFieldDiffs` | packages/contracts/src/helpers.ts:879-916 | Exactly one entry per differing leaf path of either side, with its section and the right change, in path order; none exactly when equal. |
| `ConfigDiff.KindsExactly` | packages/contracts/src/helpers.ts:899-912 | An entry holds both values; it is added exactly if only the next side has one, removed exactly if only the previous one has. |
| `ConfigSections.SectionEntries` | packages/contracts/src/helpers.ts:316-319 | The entries of a section are exactly those of the diff of its two values alone. |
| `ConfigSections.SectionExactly` | packages/contracts/src/helpers.ts:316-319 | A path lies in the section its first word names, and in the basic settings where that names none. |
| `ConfigSections.RootExactly` | packages/contracts/src/helpers.ts:316-319 | That word stands past any dividers and before the next. |
| `ConfigSections.SectionsAreExact` | packages/contracts/src/helpers.ts:336-339 | A section has an entry exactly when its two values differ (up to key order and to arrays against objects keyed by their indices) or only one side has it. |
| `ConfigDiff.KeyHidesExactly` | packages/contracts/src/helpers.ts:380-389 | A change under a single key goes unreported exactly when the key is empty or its path reads back as other keys. |
| `ConfigHidden.ChangeHidesExactly` | packages/contracts/src/helpers.ts:380-389 | Wherever a leaf stands in a tree and whatever the keys: a change of it goes unreported exactly when no leaf path of the tree reads back to it or to something around it. |
| `ConfigDiff.ClashHidesAChange` | packages/contracts/src/helpers.ts:397-405 | An array and an object keyed by its index read the same: the change is missed. |
| `ConfigCanonical.SortedKeyed` | packages/contracts/src/helpers.ts:219-226 | Sorting by identity, serialised value and position orders the entries by the first two and loses none. |
| `ConfigCanonical.ValueDecides` | packages/contracts/src/helpers.ts:202-217 | The compared value of a node decides its identity: managed or manual, and which. |
| `ConfigCanonical.FormIsTheMultiset` | packages/contracts/src/helpers.ts:202-258 | Two lists have the same compared form exactly when they hold the same values as multisets. |
| `ConfigCanonical.OrderByIdIsInvisible` | packages/contracts/src/helpers.ts:198-200 | With distinct ids the order of socks and shunt rules does not show. |
| `ConfigCanonical.RepeatedIdsShow` | packages/contracts/src/helpers.ts:198-200 | With a repeated id it does. |
| `ConfigCanonical.NewIdsAreRenumbering` | packages/contracts/src/helpers.ts:205-217 | New ids for managed nodes or subscriptions leave the values as they were. |
| `ConfigCanonical.ReorderingIsRenumbering` | packages/contracts/src/helpers.ts:202-227 | So does a permutation. |
| `ConfigCanonical.OrderAndNumbersDoNotShow` | packages/contracts/src/helpers.ts:260-283 | Configurations that differ in order and renumbered ids only give no field diff. |
| `ConfigShown.NoDiffsExactly` | packages/contracts/src/helpers.ts:260-283 | The diff of two configurations is empty exactly if socks and both rule lists hold, for every id, the same entries in the same order, nodes and subscriptions the same values as often, and all the rest is equal, up to the order of keys. |
| `ConfigShown.SortedByIdExactly` | packages/contracts/src/helpers.ts:198-200 | Two lists are equal sorted by id exactly if for every id they hold the same entries in the same order. |
| `ConfigShown.NodesComparedExactly` | packages/contracts/src/helpers.ts:202-217 | Two nodes are compared as the same exactly if all of them is equal up to the order of keys, but for the id of those a subscription brought. |
| `ConfigShown.ManagedExactly` | packages/contracts/src/helpers.ts:168-178 | A subscription brought a node exactly if its extras hold mode 2, as text or number, in one of two spellings. |
| `ConfigShown.IdentityExactly` | packages/contracts/src/helpers.ts:202-217 | Entries are ordered by these texts: a manual node by its id, any other by what it is compared by. |
| `ConfigShown.SubscriptionsComparedExactly` | packages/contracts/src/helpers.ts:237-257 | Two subscriptions are compared as the same exactly if all but their ids is equal up to the order of keys. |
| `RolloutVersions.AwkAtLeast` | scripts/Rollout-VctlFleet.py:300-302 | The on-router loop over four fields decides the order of the numbers it reads. |
| `RolloutVersions.BothEndsAgree` | scripts/Rollout-VctlFleet.py:154-156 | On every well-formed version the router's fields are the script's release tuple. |
| `RolloutVersions.EndsDisagreeExactly` | scripts/Rollout-VctlFleet.py:214 | For every version text: the router lets go of the old xray where the script says it does not exactly when the script cannot read the version and its first four numbers reach 0.7.0-r29; the other way round never. |
| `RolloutVersions.TriplesDisagreeExactly` | scripts/Rollout-VctlFleet.py:300-302 | For three numbers without a revision that is exactly from 0.7.1 on. |
| `RolloutVersions.ReleaseReadsBack` | scripts/Rollout-VctlFleet.py:154-156 | A release of any four numbers is read back to them. |
| `RolloutVersions.OnlyReleasesAreRead` | scripts/Rollout-VctlFleet.py:154-156 | And nothing else is read but four runs of digits, two dots and -r between them. |
| `RolloutVersions.AtLeastExactly` | scripts/Rollout-VctlFleet.py:396 | The order of number sequences: the first place where they differ, or where one ends, decides. |
| `RolloutVersions.KeyOfRelease` | scripts/Rollout-VctlFleet.py:165-167 | The key of a release is its four numbers. |
| `RolloutVersions.UpstreamOf` | scripts/Rollout-VctlFleet.py:190 | A package version without its revision is the upstream one, for every upstream version and revision. |
| `Rollout.RunJob` | scripts/Rollout-VctlFleet.py:112-142 | A result comes exactly if the job is taken at one of two tries and the first ended poll brought success or output; busy exactly if neither try is ours; timed out exactly if no poll ended. |
| `Rollout.XrayHowExactly` | scripts/Rollout-VctlFleet.py:182-193 | The channel's xray-core is kept, put in again, put over a later one or installed, exactly by the package and binary there. |
| `Rollout.FloorsCoverExactly` | scripts/Rollout-VctlFleet.py:196-216 | Room at the floors is exactly room in bytes: for the download, and on flash for what goes in with 4 MiB to spare, one package at a time or both at once, each in whole MiB. |
| `Rollout.JudgedExactly` | scripts/Rollout-VctlFleet.py:381-410 | The intake goes on exactly with a ready router (names agree, nothing pending, an older release, no drill, a signed index, room) and stops everything exactly at a pending install. |
| `Rollout.InstallJob` | scripts/Rollout-VctlFleet.py:256-276 | An install starts exactly within its window, on its host, alone, with the signed entries and the checksum; otherwise the router stays as it was, and the working directory is gone unless the refusal came before anything. |
| `Rollout.Complaints` | scripts/Rollout-VctlFleet.py:359-378 | The list of complaints is empty exactly when every health condition holds. |
| `Rollout.AtMostOneOpen` | scripts/Rollout-VctlFleet.py:513-529 | In a contained run the first of two installs was verified before the second began. |
| `Rollout.Fleet.HealthCheck` | scripts/Rollout-VctlFleet.py:421-431 | Passes exactly when one of the two tries is healthy. |
| `Rollout.Fleet.Begin` | scripts/Rollout-VctlFleet.py:381-417 | An install is begun exactly on a ready router whose job is taken, starts and comes back; everything stops exactly at a pending install, a job that cannot be followed or a refusal other than for coming too late; else the router is skipped, untouched. |
| `Rollout.Fleet.Roll` | scripts/Rollout-VctlFleet.py:381-438 | Done means exactly begun and found healthy on the new release; stop exactly halted, or begun and not found healthy; skip means untouched. |
| `Rollout.Fleet.RollOut` | scripts/Rollout-VctlFleet.py:513-529 | Over every run: contained, installs only over older releases, every earlier router verified or untouched, no router after a stop given a job. |
| `Fetch.FetchIsBounded` | apps/web/src/lib/controller-update-jobs.ts:253 | One download ends within all tries and pauses, and past the first try within deadline, pause and one try. |
| `Fetch.PairIsBounded` | apps/web/src/lib/controller-update-jobs.ts:279-280 | Both downloads end within max(A*T + (A-1)*D + T, B + D + T) of the start, for all durations up to T. |
| `Fetch.ShippedBound` | apps/web/src/lib/controller-update-jobs.ts:15-27 | That is 66 seconds for the shipped limits. |
| `Fetch.ShippedBoundIsReached` | apps/web/src/lib/controller-update-jobs.ts:15-27 | And it is reached. |
| `Fetch.SuccessIsATry` | apps/web/src/lib/controller-update-jobs.ts:253 | A download succeeds exactly if some try has the right checksum and every one before it failed otherwise than for want of a downloader and ended before the deadline; it ends with that try. |
| `Fetch.PairIsBoth` | apps/web/src/lib/controller-update-jobs.ts:279-280 | Both are fetched exactly if each is, the second from where the first ended and under its deadline. |
| `Fetch.GateLeavesTime` | apps/web/src/lib/controller-update-jobs.ts:285 | An open gate means fewer than 76 seconds gone, so more than 44 of the job's 120 left. |
| `Fetch.Job.Download` | apps/web/src/lib/controller-update-jobs.ts:253 | The retry loop, with the deadline set by the first download only. |
| `Fetch.Job.Fail` | apps/web/src/lib/controller-update-jobs.ts:230 | Every failure while installing restores first. |
| `Fetch.Job.Obtain` | apps/web/src/lib/controller-update-jobs.ts:209-285 | The gate is passed exactly with resources, both checksums, an inspected package and at most 75 seconds gone. |
| `Fetch.Job.Run` | apps/web/src/lib/controller-update-jobs.ts:281-315 | Written to exactly past the gate; no install without a copy; a failed install, and only that, is undone as the last thing; armed and launched exactly when nothing failed. |
| `EventFanout.RunStays` | apps/install-helper/sessions.go:36-110 | Every interleaving keeps each viewer's positions rising and its counts exact. |
| `EventFanout.ViewersSeeASubsequence` | apps/install-helper/server.go:260-285 | Under every interleaving a viewer gets an in-order, duplicate-free subsequence of the backlog. |
| `EventFanout.NothingLostExactly` | apps/install-helper/server.go:260-285 | A subscribed viewer misses nothing exactly when no event fell between its copy and its subscription and its channel was never full. |
| `EventFanout.GapLoses` | apps/install-helper/server.go:260-266 | An event in that gap is lost. |
| `EventFanout.WireIsBacklog` | apps/install-helper/server.go:260-285 | Then what was written plus what waits in the channel is the backlog. |
| `EventFanout.OfferedExactly` | apps/install-helper/sessions.go:41-46 | An event offered to a channel with fewer than 16 is kept as its last, by a full one dropped. |
| `EventFanout.ArrivingGetsTheBacklog` | apps/install-helper/server.go:260-266 | An undisturbed viewer is subscribed with the whole backlog written to it. |
| `EventFanout.TakingDrains` | apps/install-helper/server.go:270-285 | A viewer that drains its channel is written the oldest events it holds, in order. |
| `EventFanout.InstallSession.OfferAll` | apps/install-helper/sessions.go:41-46 | The loop offers the event once to every subscribed channel and to no other. |
| `EventFanout.InstallSession.EmitEvent` | apps/install-helper/sessions.go:36-51 | An emit appends to the backlog and moves every viewer as the model says; a failure or a successful completion ends the session; no send on a closed channel. |
| `EventFanout.InstallSession.ArriveViewer` | apps/install-helper/server.go:224-258 | A new viewer has been sent nothing and has no channel. |
| `EventFanout.InstallSession.TakeSnapshot` | apps/install-helper/sessions.go:73-80 | A copy of the whole backlog. |
| `EventFanout.InstallSession.SendNext` | apps/install-helper/sessions.go:103-121 | The next event of the copy goes out. |
| `EventFanout.InstallSession.SubscribeViewer` | apps/install-helper/sessions.go:82-89 | An empty channel of 16, subscribed. |
| `EventFanout.InstallSession.Receive` | apps/install-helper/server.go:270-285 | The oldest event of the channel goes out. |
| `EventFanout.InstallSession.LeaveViewer` | apps/install-helper/sessions.go:91-97 | The channel is unsubscribed and closed, once. |
| `RouterEditor.PruneExtras` | apps/web/src/components/router-editor-state.ts:88-111 | The loop drops exactly the reference keys that name a removed node. |
| `RouterEditor.PrunedExtrasExactly` | apps/web/src/components/router-editor-state.ts:88-111 | What goes is exactly what refers, by its key, to a node and names a removed one. |
| `RouterEditor.PruneBackups` | apps/web/src/components/router-editor-state.ts:135-143 | Backups without removed nodes, the fallback and repeats. |
| `RouterEditor.PruneNodes` | apps/web/src/components/router-editor-state.ts:113-186 | The whole pruned draft. |
| `RouterEditor.PruningKeepsTheRest` | apps/web/src/components/router-editor-state.ts:113-186 | What is left is in its order: exactly the nodes not removed, with only extras dropped; the socks entries whose node stays or that can move; every rule but for its outbound; every subscription but for extras. |
| `RouterEditor.BackupsKeptInOrder` | apps/web/src/components/router-editor-state.ts:135-143 | The backups left are the ids in the order first listed, but for removed ones and the fallback. |
| `RouterEditor.NormalizeShuntRuleBindings` | apps/web/src/components/router-editor-state.ts:342-368 | Every shunt node's rule keys become its rules' targets. |
| `RouterEditor.BoundExactly` | apps/web/src/components/router-editor-state.ts:342-368 | A shunt node binds a rule's id to the node the last rule of that id sends to, or not at all where that names none; other keys and nodes stay. |
| `RouterEditor.RemovalLeavesNoReference` | apps/web/src/components/router-editor-state.ts:113-186 | After pruning and normalising nothing names a removed node and both copies of the rules agree. |
| `RouterEditor.PruningLeavesExactlyStaleBindings` | apps/web/src/components/router-editor-state.ts:113-186 | Pruning alone leaves a reference exactly when a shunt node that stays binds a rule's key, one pruning does not look at, to a removed node. |
| `RouterEditor.NormalizingIsIdempotent` | apps/web/src/components/router-editor-state.ts:342-368 | Normalising twice is normalising once. |
| `RouterEditor.DeletingLeavesReferences` | apps/web/src/components/router-editor-state.ts:75-86 | A single-node delete leaves every reference but the selection as it was. |
| `RouterEditor.RenameExtraKey` | apps/web/src/components/router-editor-state.ts:370-386 | One key moves, unless absent or unchanged. |
| `RouterEditor.RenameShuntRule` | apps/web/src/components/router-editor-state.ts:284-321 | The rename, its refusals and the three keys of every node. |
| `RouterEditor.RenamedExactly` | apps/web/src/components/router-editor-state.ts:302-318 | Each of a rule's three bindings stands under its key of the new name; every other key is as it was. |
| `RouterEditor.RenameAndBack` | apps/web/src/components/router-editor-state.ts:284-321 | Renaming to a fresh, unrelated name and back restores a synced draft. |
| `RouterEditor.RenameAndBackExactly` | apps/web/src/components/router-editor-state.ts:284-321 | To another unrelated name it does exactly if that is a rule's already, or the old name was a single rule's and no node bore a key of the new one. |
| `RouterEditor.ExtrasComeBackExactly` | apps/web/src/components/router-editor-state.ts:302-318 | A node's keys come back exactly if the new ones were fresh. |
| `RouterEditor.RelatedNamesClash` | apps/web/src/components/router-editor-state.ts:302-318 | With a name that is one of the rule's own keys it does not. |
| `RouterEditor.DeleteShuntRule` | apps/web/src/components/router-editor-state.ts:255-267 | A rule goes with its three keys on every node. |
| `RouterEditor.DeletingSparesUnrelatedRules` | apps/web/src/components/router-editor-state.ts:255-267 | Another rule's binding survives exactly when its name is not one of those keys. |
| `Calendar.DaysAreConsecutive` | router/vectra-controller-agent/openwrt/update-guard/vectra-update-guard.sh:198-205 | From 1 March of the year 0 on the next Gregorian day is one day later. |
| `Calendar.TheEpochIsZero` | router/vectra-controller-agent/openwrt/update-guard/vectra-update-guard.sh:205 | 1 January 1970 is day zero. |
| `Calendar.ConsecutiveExactly` | router/vectra-controller-agent/openwrt/update-guard/vectra-update-guard.sh:199-201 | From the year 0 on two consecutive days are one apart exactly when both lie before 1 March of the year 0 or neither does; the day lost is 29 February 0000. |
| `Calendar.DaysRise` | router/vectra-controller-agent/openwrt/update-guard/vectra-update-guard.sh:198-205 | An earlier date has a smaller day number. |
| `Calendar.EpochRises` | router/vectra-controller-agent/openwrt/update-guard/vectra-update-guard.sh:206 | An earlier moment has a smaller epoch, and only an earlier one. |
| `Calendar.SecondsAreCounted` | router/vectra-controller-agent/openwrt/update-guard/vectra-update-guard.sh:206 | The epoch counts the seconds since the start of 1970: the next second is one more, over every midnight. |
| `Calendar.TextOrderIsEpochOrder` | router/vectra-controller-agent/openwrt/update-guard/vectra-update-guard.sh:174-207 | For whole-second Z timestamps the order of texts is the order of epochs (section 5.1 of RFC 3339). |
| `Calendar.TimestampsReadBack` | router/vectra-controller-agent/openwrt/update-guard/vectra-update-guard.sh:183-206 | Such a timestamp is read back to its epoch. |
| `Calendar.NoEmptyWords` | router/vectra-controller-agent/openwrt/update-guard/vectra-update-guard.sh:183-206 | The words a timestamp is cut into are never empty. |
| `Calendar.StripZeros` | router/vectra-controller-agent/openwrt/update-guard/vectra-update-guard.sh:160-170 | Leading zeros go, the number stays. |
| `Calendar.PatternIsTheCalendar` | packages/contracts/src/schemas.ts:28-29 | The date pattern takes exactly the Gregorian dates of the years 0000 to 9999. |
| `PackagesIndex.ParsePackagesIndex` | router/vectra-controller-agent/cmd/vectra-controller-agent/artifacts.go:357-401 | The scanning loop yields the entries of the recursive reading, or nothing at all when a line does not fit the scanner's buffer of 64 KiB. |
| `Trimming.TrimExactly` | router/vectra-controller-agent/cmd/vectra-controller-agent/artifacts.go:368 | What is left of a trimmed text stands between spaces and neither begins nor ends with one. |
| `PackagesIndex.PrintThenScan` | router/vectra-controller-agent/cmd/vectra-controller-agent/artifacts.go:357-401 | Printing well-formed records, with any other fields, and reading the lines gives the same records. |
| `PackagesIndex.PrintThenParse` | router/vectra-controller-agent/cmd/vectra-controller-agent/artifacts.go:357-401 | So the printed index parses to its records exactly if every line is shorter than 64 KiB in UTF-8. |
| `PackagesIndex.NamelessStanzaLeaks` | router/vectra-controller-agent/cmd/vectra-controller-agent/artifacts.go:369-376 | What a stanza without a name says goes to the next one. |
| `PackagesIndex.ByName` | router/vectra-controller-agent/cmd/vectra-controller-agent/artifacts.go:276-287 | The map keeps the first eligible entry of every name. |
| `PackagesIndex.FirstOfExactly` | router/vectra-controller-agent/cmd/vectra-controller-agent/artifacts.go:276-287 | That is the first entry of the name with a file and the version asked for, if any; none exactly if there is none. |
| `PackagesIndex.LinesAgree` | scripts/Rollout-VctlFleet.py:222-224 | Cutting a line at its first ": " and matching keys at its start read the same fields. |
| `PackagesIndex.PackageEntry` | scripts/Rollout-VctlFleet.py:219-231 | The block loop keeps the last entry of the package and version. |
| `PackagesIndex.PrintThenPlan` | scripts/Rollout-VctlFleet.py:219-231 | Of a printed index the script plans the last record of the package and version. |
| `PackagesIndex.SignedAwk` | scripts/Rollout-VctlFleet.py:264-270 | The awk accepts when some block has all four fields. |
| `PackagesIndex.PrintThenAccept` | scripts/Rollout-VctlFleet.py:264-270 | Of a printed index the router accepts exactly the records there are, and the script plans nothing that is not there. |
| `PackagesIndex.PlannedIsAccepted` | scripts/Rollout-VctlFleet.py:264-271 | What the script plans from an index whose lines only a newline ends the router accepts on that index. |
| `PackagesIndex.OtherLineEndsMislead` | scripts/Rollout-VctlFleet.py:219-231 | With another of the script's line ends inside a line it may refuse it: the two read different file names. |
| `OperatorSession.Base64UrlRoundTrip` | apps/web/src/server/operator-session.ts:78-92 | Unpadded base64url decoding undoes encoding, for every byte string (sections 3.2 and 5 of RFC 4648), and the text holds no dot. |
| `OperatorSession.EncodedExactly` | apps/web/src/server/operator-session.ts:78-92 | Four letters for three bytes, the last not filled up; each is that of its six bits in the alphabet for URLs (section 5 of RFC 4648). |
| `OperatorSession.NoSpacesExactly` | apps/web/src/server/operator-session.ts:86-92 | Spaces are left out of what is decoded, and nothing else is. |
| `OperatorSession.PaddingOutOfPlaceFails` | apps/web/src/server/operator-session.ts:86-92 | Padding is taken only where it fills the last group of four. |
| `OperatorSession.TimingSafeStringEqual` | apps/web/src/server/operator-session.ts:3-12 | The accumulated mismatch is zero exactly for equal strings. |
| `OperatorSession.TokenSplits` | apps/web/src/server/operator-session.ts:154 | A token splits back into exactly its two parts. |
| `OperatorSession.KeyExactly` | apps/web/src/server/operator-session.ts:40-55 | The key in use is the one given, where it is long enough, tight and none of those known or used elsewhere; or, outside production and with none given, the development key. |
| `OperatorSession.CutoffExactly` | apps/web/src/server/operator-session.ts:62-71 | Sessions have a cutoff exactly if the setting is blank, for none, or up to twelve digits, for that many seconds. |
| `OperatorSession.IssuedExactly` | apps/web/src/server/operator-session.ts:74-77 | A cookie is issued exactly with a key and a readable cutoff that has passed. |
| `OperatorSession.AcceptedExactly` | apps/web/src/server/operator-session.ts:131-186 | A cookie issued at t0 is accepted at t under the same key exactly when cutoff <= t0 <= t + 5 min and t < t0 + 7 days. |
| `OperatorSession.NothingOutsideItsTime` | apps/web/src/server/operator-session.ts:170-183 | Whatever token and key: nothing accepted lies outside its time, or without a key and a readable cutoff. |
| `OperatorSession.CutoffEndsSessions` | apps/web/src/server/operator-session.ts:177 | A token whose payload was issued before the cutoff is refused under every key and signature. |

## Left out

- Recovery: the mirrors in the runtime status, messages, persistence errors and unknown persisted phases; clocks are whole seconds, and the panel URL list is not empty.
- Recovery: local rescue, the runtime fail-safe, the watchdog and jobs appear only as outside switches of PassWall in a run; their own decisions are not modelled.
- Recovery: the probe cache is modelled for one configuration; its key by URL list is not.
- RecoveryLiveness.NoTerminalPark: assumes the inventory current, the runtime usable, the node answering and every write succeeding at each poll, because with a failing write or a dead node there is nothing to come home to.
- Guard: tar, sha256, opkg, procd and the agent process are inputs; a file is its sequence of lines, and its checksum stands for its content, executable bit included.
- Guard: the directory lock and its stale takeover; each command under it is one step.
- Guard: paths with blanks, symbolically linked parent directories, hard links, and the cleaning of odd characters from versions.
- GuardRestore.Prepare: the agent's list is looked for by its path, where the script greps the listing for that name at the end of any line, because no other path ends so.
- Guard: removals, renames and new names are taken to reach the flash in order; only what is written to files may be lost by a power loss. A file that lacks no more than its last newline is taken for the whole one, and scratch files under /tmp are written whole.
- GuardRestore.Guard.Retry: where the power goes in some attempt, which of the files at risk are lost is bounded on both sides, not given exactly, because it depends on the step; what a power loss tears after done is reported is not modelled.
- GuardWatch: the times are the shipped defaults; the environment may set others when the copy is taken.
- GuardWatch: an attempt cut by power loss is an attempt that failed followed by a reboot; writes of the phase file succeed; the mode and reason of a rollback are not kept.
- ConfigDiff: stringification is equality of stable values; inherited object properties such as `__proto__`, array indices spelled otherwise than in plain decimals, and negative zero.
- GuardRestore.FailedUpdate: the content of the copied files is promised with a manifest, or where no attempt lost power, because otherwise the guard itself compares only the binary.
- ConfigCanonical: the texts that identify a managed node or a subscription are any functions of the compared value; the locale's order is any total order.
- Rollout.RunJob: a panel call that itself fails counts as a failed job; the waiting between the two tries is not counted.
- RolloutVersions.EndsDisagreeExactly: a digit is an ASCII digit, while the script's pattern takes those of other alphabets too, which the router's awk does not.
- Rollout: sizes in the index are not negative, as no package's is.
- Rollout: the choice of routers from the fleet list and the options, messages, and the companions' marks; a router's state is its name, versions and marker.
- Rollout.Fleet.RollOut: a router changed by someone else between intake and install is not modelled, because the script holds no lock on it.
- Fetch: the text of the command, quoting, and a job killed at its limit; the idle timeout is a bound on each try.
- EventFanout: JSON and the wire format, and the installer stages that emit; the 30-minute token store is a single comparison.
- RouterEditor: adding, moving and selecting are single assignments; a draft is the part of it that refers to nodes or rules, and key order within extras is not kept.
- Calendar: the `date` command tried first, time zones other than UTC, fractions of a second and the schema's time of day.
- PackagesIndex: the patterns for file names and checksums, and the splitting of a file into lines at newlines, with a carriage return before one.
- OperatorSession: the signature and JSON in UTF-8 are functions of the platform; only that reading undoes writing is used.
- Rescue mode evaluation, the operations planned from the changed sections, UCI previews, package job safety floors and the user interface, which would add only easy members.
