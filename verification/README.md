# Crash safety, paging and scanning in the AI-CRM release tooling

This project models the parts of the repository whose correctness depends on many steps taken together, and
proves what they are for: a journal that survives power loss, a merged feed that loses nothing between pages, a
cleanup that can be cut short anywhere. `dafny verify dfyconfig.toml` checks all of it.

## Components

**Release success** (`CrashDirectory`, `ReleaseSuccess`, `SuccessPast`,
`SuccessRecorder`, `SuccessRecovery`, `SuccessHistory`). A writer publishes a
receipt under a guard file, or archives and revokes it; readers refuse while the guard exists. A directory is a map of
live names and a set of superseded bindings that a power loss may still bring back, each name on its own. Every system
call can return, raise an I/O error with or without its effect, or take the process with it, and every call that did not
return is noted in a ghost log, so that the contracts say what stopped an operation and what could not have. One invariant (`Inv`)
covers all runs, including a guard that resurfaces after an unsynced unlink, a revocation inside a revocation, and a
release recorded twice. A second one (`Past`) covers what the directory remembers: sequences that were ever committed, and
receipts that stay. The system calls, the scan, publication and revocation are methods of `SuccessDirectory`, in the
order of the program.

**Runtime configuration** (`EnvRender`, `OpsRuntime`, `RuntimeConfigurator`, `RuntimeHistory`). The same crash model for
the environment file and its recovery record. `EnvRender` is the renderer of the governance gates, byte for byte: line
splitting at LF, CR and CRLF, the shell lexer's notion of an unfinished quote, the missing last newline. A configuration
becomes trusted only when it was verified while the services ran it.

**Release cleanup** (`CleanupPlan`, `ReleaseCleanup`, `CleanupHistory`, `CleanupWitness`). Inventory, saved plan, validation, and removal one by
one. Each inventory of live references may find anything; a package or a receipt may be unreadable this time; removing a
tree may stop half way. Evidence of success is read from a directory of the first component.

**Activity feed** (`ActivityFeed`, `ActivityPaging`, `ActivityRefinement`). Four keyset-paged owners merged into one feed
under a watermark, with one signed cursor position per owner.

**Release queue** (`ReleaseQueue`), **cutover driver** (`Cutover`, `CutoverDriver`), **owner handoff** (`OwnerHandoff`),
**settlement scan** (`SettlementScan`), **Go stripper** (`GoStripper`) and **manifest closure** (`ManifestClosure`) follow one
source file each. `Optional` and `Ascending` are shared helpers.

## Findings

These promises do not hold as one would first state them. Each has a proof of when it does hold, and a state in which it fails.

- Re-running the revocation of an interrupted publication does not always end in that revocation. While the directory fsync of
  its guard has not returned, a power loss can make the guard vanish, or bring an older guard back whose publication is then
  revoked instead. All ends are classified, each of them can happen, and the end is determined exactly when nothing harmful can
  be found in place of the guard (`SuccessRecovery.RecoverThroughInterruptions`, `EveryEndComesAbout`, `DeterminedWhen`; failing
  states in `FreshGuardCanVanish` and `OlderGuardCanReturn`).
- A committed receipt can be taken back as long as its guard can be found, although revocation is meant for uncertain ones. It
  stays exactly when the removal of its guard has become durable (`SuccessPast.AnchoredWhenGuardIsGone`; how it
  fails in `SuccessRecovery.GuardedReceiptCanBeRevoked`, with a failing state in `SuccessRecovery.OlderGuardCanReturn`).
- Recovery of the runtime configuration ends in the original of an older record, if that record can be found in place of one
  whose directory fsync has not returned (`OpsRuntime.RecoveryEndIsDetermined`; a failing state in
  `RuntimeHistory.OlderRecordCanWin`).
- A failed activation whose rendered configuration is in place and exceeds 1048576 bytes cannot be rolled back, because recovery
  refuses to read it (`RuntimeHistory.RollbackNeedsRoom`; a failing file in `RuntimeHistory.FullFileCannotBeRolledBack`).
- A cleanup that is cut off inside the removal of one release leaves a directory that no longer verifies, and the same plan is
  then refused for good (`CleanupPlan.ReplayIsAccepted`; a failing host in `CleanupWitness.HalfRemovedCandidateBlocksReplay`).
- An inventory whose read of a success receipt fails treats that release as one without success, so one of the two latest
  successes can become eligible for removal (`CleanupPlan.LatestSuccessesSurvive`; a failing host in
  `CleanupWitness.UnreadReceiptUnprotectsTheLatest`).
- Adopting an accepted candidate adds a second owner to a queue that has one, after which both can only be drained
  (`ReleaseQueue.AdoptionKeepsOneOwner`, `ReleaseQueue.CrowdedQueueOnlyDrains`; a failing queue in `ReleaseQueue.AdoptionCanCrowd`).

## Model

| member | source | states |
|---|---|---|
| `CrashDirectory.DisturbedShrinks` | deploy/record-release-success.py:82-104 | A power loss or background write-back only narrows what each name can be bound to; nothing appears that was never written under that name. |
| `ReleaseSuccess.DisturbanceKeepsInv` | deploy/record-release-success.py:107-210 | The journal invariant survives a power loss or write-back in any reachable state. |
| `ReleaseSuccess.GuardPublished` | deploy/record-release-success.py:149-153 | Putting a guard with a fresh sequence in place keeps the invariant, although an older guard may still resurface. |
| `ReleaseSuccess.CandidatePublished` | deploy/record-release-success.py:154-155 | Under a durable guard, replacing the canonical receipt by the candidate keeps the invariant before it is durable. |
| `ReleaseSuccess.CommittedGuardRemoved` | deploy/record-release-success.py:161-168 | The guard of a committed, unrevoked candidate may be unlinked without a completed fsync. |
| `ReleaseSuccess.ArchivePublished` | deploy/record-release-success.py:192-197 | Archiving the guard as a revocation keeps the invariant in every state with that guard, durable or not. |
| `ReleaseSuccess.PreviousRestored` | deploy/record-release-success.py:198-202 | Putting the previous receipt (or its absence) back keeps the invariant in every state with that guard, durable or not. |
| `ReleaseSuccess.GuardRemoved` | deploy/record-release-success.py:203-210 | A durable guard may go once its candidate is committed and unrevoked, or is archived with the previous receipt back in place. |
| `ReleaseSuccess.UnguardedReceiptsAreSound` | deploy/record-release-success.py:150-169 | Without a guard, every canonical receipt was committed (file and directory synced) and no archive revokes its sequence. |
| `ReleaseSuccess.UnguardedSequencesAreDistinct` | deploy/record-release-success.py:117-148 | Without a guard, no two records, live or revoked, carry the same sequence. |
| `ReleaseSuccess.RecordsAreReadable` | deploy/cleanup-releases.py:111-150 | Whatever a run leaves under a name passes the validation of receipts, journals and archives for that name. |
| `ReleaseSuccess.RecoveryAccepts` | deploy/record-release-success.py:185-195 | Under a guard the canonical file is the candidate or the previous receipt, missing only if there was none, and an archive of that name equals the journal: none of the three consistency refusals can apply. |
| `SuccessRecorder.SuccessDirectory.WritePrivateJson` | deploy/record-release-success.py:90-104 | A write that returns is durable; one that does not leaves the old or the new content, possibly unsettled. |
| `SuccessRecorder.SuccessDirectory.LosePower` | deploy/record-release-success.py:82-87 | Each name comes back with its live or one of its lost bindings, independently, and nothing is unsettled afterwards. |
| `SuccessRecorder.SuccessDirectory.Scan` | deploy/record-release-success.py:117-144 | The scan refuses exactly when the release already has a receipt for other package bytes; otherwise it finds a sequence above every live and revoked one that is in use (or 0), and the previous receipt. Its duplicate and validity refusals never fire. |
| `SuccessRecorder.SuccessDirectory.RevokePending` | deploy/record-release-success.py:172-210 | Revocation refuses exactly for a changed package, without writing; otherwise it ends in one determined set of files, settled unless its last fsync failed, or a call did not return and the same end is left to the next attempt. |
| `SuccessRecorder.SuccessDirectory.Retract` | deploy/record-release-success.py:192-210 | The writing part of a revocation: archive, previous receipt, guard, with the end state determined by the files it started from. |
| `SuccessRecorder.SuccessDirectory.PublishCandidate` | deploy/record-release-success.py:154-163 | The candidate counts as committed exactly when its file and directory entry are durable. |
| `SuccessRecorder.SuccessDirectory.DropRevokedGuard` | deploy/record-release-success.py:203-210 | A failed last fsync is no failure, and can only bring the guard of this revocation back; without trouble nothing is unsettled. |
| `SuccessRecorder.RetractedDependsOnOthersOnly` | deploy/record-release-success.py:185-203 | The end of a revocation depends on no name that the journal itself names, so partial progress does not change it. |
| `SuccessPast.FreshIsNew` | deploy/record-release-success.py:117-145 | A sequence above every live and revoked one is above every sequence ever committed. |
| `SuccessPast.GuardKeepsPast` | deploy/record-release-success.py:149-153 | Publishing a guard forgets no committed sequence and takes no anchored receipt away. |
| `SuccessPast.RemovalKeepsPast` | deploy/record-release-success.py:161-168 | A guard that goes leaves its sequence behind under the receipt or under the archive. |
| `SuccessPast.ArchiveKeepsPast` | deploy/record-release-success.py:192-197 | Archiving forgets no committed sequence and takes no anchored receipt away. |
| `SuccessPast.RestoringKeepsPast` | deploy/record-release-success.py:198-202 | Nor does putting the previous receipt back, even under a guard that is not durable. |
| `SuccessPast.AnchoredWhenGuardIsGone` | deploy/record-release-success.py:161-169 | A receipt in place stays, as itself or as a newer one of its release, if and only if no guard for it can be found any more. |
| `SuccessRecorder.SuccessDirectory.AtomicReceipt` | deploy/record-release-success.py:107-169 | A publication refuses without writing; or returns the committed receipt with the next sequence, above every sequence ever committed, all other names unchanged; or is interrupted by a call that did not return. A failed candidate write that is the only trouble (or is followed by a failed last fsync) is revoked: the files are as before plus the journal in the history. The guard stays only if its own write or removal had trouble, the process was killed, or the revocation had trouble of its own. |
| `SuccessHistory.Record` | deploy/record-release-success.py:213-245 | Refuses, without any change, exactly for an unverified package, a pending guard, a missing observation or another package than the one already recorded, in this order; with the revoke flag it works on whatever publication is pending and does nothing when none is; otherwise it is the publication of the observed package. |
| `SuccessHistory.VerifiedSuccess` | deploy/cleanup-releases.py:153-161 | Evidence is given exactly when there is no guard and the release has a receipt for these package bytes; it is then committed and unrevoked. |
| `SuccessHistory.Project` | deploy/publish-governance-releases.py:60-93 | Every receipt becomes an unrevoked fact and every archive a revoked one under its own sequence, and nothing else does; pending publication, more than 2048 files and a missing current receipt are reported exactly; the duplicate and unknown-file refusals never fire. |
| `SuccessRecovery.PowerLossKeepsConverging` | deploy/record-release-success.py:172-210 | A power loss during the revocation of a durable guard does not change where the revocation ends. |
| `SuccessRecovery.RevocationKeepsConverging` | deploy/record-release-success.py:172-210 | Neither does an attempt that is cut short. |
| `SuccessRecovery.LostGuardLeavesPrevious` | deploy/record-release-success.py:149-153 | A guard that a power loss takes away leaves the previous receipt of its release in place, and at most its own archive. |
| `SuccessRecovery.PowerLossKeepsHeading` | deploy/record-release-success.py:172-210 | From any start with a guard, a power loss stays on the way to one of the classified ends. |
| `SuccessRecovery.RevocationKeepsHeading` | deploy/record-release-success.py:172-210 | So does an attempt, however it ends. |
| `SuccessRecovery.RecoverThroughInterruptions` | deploy/record-release-success.py:172-210 | From every state with a guard, durable or not, any number of revocation attempts with any packages, interrupted by errors and power losses, leaves without a guard one of three ends: the revocation; the publication vanished, or the revocation, where the guard could be lost; the revocation of an older guard over either. Where the end is determined, it is the one of an uninterrupted revocation. |
| `SuccessRecovery.EveryEndComesAbout` | deploy/record-release-success.py:172-210 | Each of these ends comes about by at most one attempt that is cut short, one power loss and one completed recovery. |
| `SuccessRecovery.DeterminedWhen` | deploy/record-release-success.py:149-153 | The end is determined if and only if the guard is durable, or everything else that can be found in its place is harmless: its archive is there for good, and an older guard was already revoked. |
| `SuccessRecovery.FreshGuardCanVanish` | deploy/record-release-success.py:149-153 | A first guard, renamed and not synced, can be lost, and then nothing is revoked. |
| `SuccessRecovery.OlderGuardCanReturn` | deploy/record-release-success.py:164-168 | An unsynced removal of a guard can be undone under the next guard, and then a committed receipt is revoked. |
| `SuccessRecovery.GuardedReceiptCanBeRevoked` | deploy/record-release-success.py:172-210 | A receipt whose guard can still be found can be taken back: the guard returns, and its revocation leaves an older receipt or none. |
| `SuccessHistory.InvIsTrustworthy` | deploy/record-release-success.py:107-210 | What the invariant means for a reader: without a guard, receipts are committed, unrevoked and distinct in sequence. |
| `SuccessHistory.Run` | deploy/record-release-success.py:107-245 | After any interleaving of recordings, revocations, errors, kills and power losses, and after one more power loss, the directory is trustworthy; no sequence is ever committed twice, and a receipt that was anchored at the start still is. |
| `ActivityFeed.OwnerPageIsFirstRows` | cmd/aicrm/open_platform_activity.go:167-206 | An owner read is a sorted selection of its window; a row of the window is left out only if the page is full of rows before it. |
| `ActivityFeed.BeforeMeans` | cmd/aicrm/open_platform_activity.go:211-219 | The order of the feed, case by case: newest first, then by type name in the alphabet, then by descending id. |
| `ActivityFeed.SortedIsUnique` | cmd/aicrm/open_platform_activity.go:211-219 | The order is strict: two sorted sequences of the same activities are equal. |
| `ActivityPaging.NormalizeTypes` | cmd/aicrm/open_platform_activity.go:234-259 | The accepted type names are the known, distinct ones (all four for none), and the result is their set in alphabetical order. |
| `ActivityPaging.ReadActivities` | cmd/aicrm/open_platform_activity.go:161-221 | One bounded read of every requested owner in turn, failing with the first owner that is down, merged and sorted. |
| `ActivityPaging.CustomerActivities` | cmd/aicrm/open_platform_activity.go:81-136 | Each answer has its exact condition: invalid for ill-formed input or a cursor that does not fit, denied exactly for a well-formed request outside the scope, unavailable exactly when a requested owner is down after that; a page is given only in scope, holds sorted rows of the requested owners behind the positions of the cursor and at or before its watermark, at most as many as asked for, and a next cursor only when it is full. |
| `ActivityPaging.NamesMean` | cmd/aicrm/open_platform_activity.go:234-259 | The requested owners, read off the names: all for none, otherwise the named ones, in alphabetical order; refused exactly for an unknown or repeated name. |
| `ActivityRefinement.LastOfPrefix` | cmd/aicrm/open_platform_activity.go:114-116 | The position of an owner after the first n activities of the feed separates exactly its delivered rows from the rest. |
| `ActivityRefinement.WindowIsRest` | cmd/aicrm/open_platform_activity.go:164-205 | What an owner may still return behind the cursor is exactly its share of the undelivered feed. |
| `ActivityRefinement.NextStretch` | cmd/aicrm/open_platform_activity.go:161-221 | One read of limit+1 rows per owner starts with the next stretch of the feed, and is longer than the limit exactly when more follows. |
| `ActivityRefinement.OnePage` | cmd/aicrm/open_platform_activity.go:105-134 | One call delivers the next stretch of the feed and mints a cursor that stands right behind it, or none when the feed is exhausted. |
| `ActivityRefinement.FollowingFrom` | cmd/aicrm/open_platform_activity.go:105-134 | From any position, following the cursors with any limits delivers the feed from there on. |
| `ActivityRefinement.FollowingYieldsTheFeed` | cmd/aicrm/open_platform_activity.go:81-136 | From the first page, with a different limit on each call and rows arriving after the watermark, the concatenated pages are the feed in order; a page without a cursor means exhaustion. |
| `ActivityRefinement.FeedExists` | cmd/aicrm/open_platform_activity.go:211-219 | Every set of owner histories has such a feed. |
| `ActivityRefinement.PageMintsCursor` | cmd/aicrm/open_platform_activity.go:128-134 | The minted cursor is bound to the customer, types, grant and watermark of its page, and advanced by the shown rows. |
| `ActivityRefinement.MintedCursorIsBound` | cmd/aicrm/open_platform_activity.go:138-159 | A minted cursor is accepted exactly for the same customer, types and grant, and then resumes at the same watermark and positions. |
| `ActivityRefinement.ForgedCursorIsRejected` | cmd/aicrm/open_platform_activity.go:309-332 | A cursor whose MAC was not made with the key is refused. |
| `ActivityRefinement.PositionsMoveBackward` | cmd/aicrm/open_platform_activity.go:114-116 | A position stays, is set for the first time, or moves strictly backward in (time, id). |
| `EnvRender.Render` | deploy/configure-ops-runtime.py:66-91 | The loop over the lines renders as the specification does; what is refused, which lines are kept and what the gates say are proved of it below. |
| `EnvRender.GatesSay` | deploy/configure-ops-runtime.py:87-91 | Read back, the rendered file has each of the five gates once: inspections and notifications true exactly when enabled, retention true exactly when it was requested, and the two fixed references. |
| `EnvRender.RefusedExactly` | deploy/configure-ops-runtime.py:66-86 | Rendering is refused exactly for retention without inspections, a line that is not understood, or a name that two lines set. |
| `EnvRender.ClassifyMeans` | deploy/configure-ops-runtime.py:73-83 | A line is understood exactly when it is blank, a comment, or a name, an equals sign and a value with balanced quotations; and which name it sets. |
| `EnvRender.LexesMeans` | deploy/configure-ops-runtime.py:81 | The lexer accepts exactly the values that are made of plain characters, escaped characters and closed quotations. |
| `EnvRender.KeptAre` | deploy/configure-ops-runtime.py:71-86 | The kept lines are, whole and in order, exactly those that set none of the five gates. |
| `EnvRender.RenderedBytes` | deploy/configure-ops-runtime.py:88-91 | The bytes of a rendering: the kept lines, a missing last newline, and the gate lines. |
| `EnvRender.LinesMean` | deploy/configure-ops-runtime.py:72 | Every line but the last ends in LF, CRLF or a CR before no LF, and no line has such an end before its own. |
| `EnvRender.JoinOfSplit` | deploy/configure-ops-runtime.py:72 | Splitting into lines loses no byte. |
| `EnvRender.JoinedLinesReadTheSame` | deploy/configure-ops-runtime.py:72-88 | Taking lines out can merge a bare CR with a following LF, and still no remaining setting changes or appears. |
| `EnvRender.KeptSettings` | deploy/configure-ops-runtime.py:85-86 | Removing the managed lines removes exactly the managed settings and keeps the others in order. |
| `EnvRender.RenderedReads` | deploy/configure-ops-runtime.py:66-91 | The rendered file consists of the kept bytes and the gate lines; read back, it has every unrelated setting in order with its text, then the gates, and is acceptable input. |
| `EnvRender.RenderAbsorbs` | deploy/configure-ops-runtime.py:66-91 | Rendering twice equals rendering the original once with the last arguments. |
| `OpsRuntime.InvIsSafe` | deploy/configure-ops-runtime.py:210-248 | Without a record the environment file is a trusted configuration; with one, it is one of the two that the record names, and the record leads back to a trusted one. |
| `OpsRuntime.DisturbanceKeepsInv` | deploy/configure-ops-runtime.py:102-149 | The recovery invariant survives a power loss or write-back. |
| `OpsRuntime.RecordPublished` | deploy/configure-ops-runtime.py:127-149 | Writing the recovery record over an untouched configuration keeps the invariant. |
| `OpsRuntime.EnvReplaced` | deploy/configure-ops-runtime.py:233-236 | Under a durable record the configuration may be replaced. |
| `OpsRuntime.EnvRestored` | deploy/configure-ops-runtime.py:222-224 | The original may be put back under any live record, durable or not, even while an older record can resurface. |
| `OpsRuntime.RecordRemoved` | deploy/configure-ops-runtime.py:246-248 | Over a durable, trusted configuration the record may be unlinked. |
| `OpsRuntime.RecoveryIsAccepted` | deploy/configure-ops-runtime.py:210-221 | In every reachable state with a record, recovery for its release refuses if and only if the configuration in place is longer than 1048576 bytes. |
| `OpsRuntime.RecoveryRefusalMeans` | deploy/configure-ops-runtime.py:210-221 | Each refusal of a recovery holds of the files it found, and none holds when it is accepted. |
| `OpsRuntime.InvConverges` | deploy/configure-ops-runtime.py:210-229 | In every reachable state with a record, recovery is bound for the original of some record that can be found. |
| `OpsRuntime.DisturbanceKeepsConverging` | deploy/configure-ops-runtime.py:222-229 | A power loss during recovery adds no other end. |
| `OpsRuntime.EveryRecordCanReturn` | deploy/configure-ops-runtime.py:145-146 | Any record that can be found in place of one that is not durable can return, and recovery then accepts it. |
| `OpsRuntime.RecoveryEndIsDetermined` | deploy/configure-ops-runtime.py:210-229 | Recovery is bound to end in the original of the live record if and only if no other record with another original can be found. |
| `RuntimeConfigurator.RuntimeConfiguration.Replace` | deploy/configure-ops-runtime.py:102-114 | A replacement that returns is durable; one that does not leaves the old or the new file, possibly unsettled. |
| `RuntimeConfigurator.RuntimeConfiguration.Verify` | deploy/configure-ops-runtime.py:175-194 | Only a verification that succeeds makes a configuration trusted, and only the one the services run. |
| `RuntimeConfigurator.RuntimeConfiguration.Recover` | deploy/configure-ops-runtime.py:210-229 | A recovery that finishes leaves exactly the original, running and without record; it refuses, without any change, only for a missing or invalid record, another release, or a configuration that is unreadable or changed, and accepts only when none of these holds; otherwise a call did not return, and the record or the original is left. |
| `RuntimeConfigurator.RuntimeConfiguration.Apply` | deploy/configure-ops-runtime.py:232-248 | An activation that returns leaves the update in place, running, verified and without record. A single failure in its guarded part, for an update that can be read back, ends with the original in place, running, settled and without record. Otherwise either the record of this activation is there and the file is one of its two, or the file is the original or the verified update. |
| `RuntimeConfigurator.RuntimeConfiguration.Activate` | deploy/configure-ops-runtime.py:234-239 | The guarded part of an activation: it ends verified, or under its record. |
| `RuntimeConfigurator.RuntimeConfiguration.Configure` | deploy/configure-ops-runtime.py:255-295 | Retention without enabling, an existing record, an unreadable configuration, an invalid target and unacceptable input are refused, each for its own reason, without any write; an inspection writes nothing; otherwise the outcome is that of the activation of the rendered file, and it fails only when a call did not return. |
| `RuntimeHistory.RecoverThroughInterruptions` | deploy/configure-ops-runtime.py:210-229 | From every state with a record, durable or not, any number of interrupted recoveries and power losses leaves without a record exactly the original bytes and group of a record that could be found: of the live one, where these agree. |
| `RuntimeHistory.OlderRecordCanWin` | deploy/configure-ops-runtime.py:246-248 | An unsynced removal of a record can be undone under the next record, and recovery then undoes both activations. |
| `RuntimeHistory.MidActivationIsReachable` | deploy/configure-ops-runtime.py:232-236 | The two durable writes of an activation lead to a state of the invariant with the record and the update in place. |
| `RuntimeHistory.RollbackNeedsRoom` | deploy/configure-ops-runtime.py:219-241 | An unfinished activation that left its record can be rolled back if and only if it failed before the update was in place, or the kept bytes and the gate lines together fit the read limit. |
| `RuntimeHistory.Run` | deploy/configure-ops-runtime.py:210-295 | After any interleaving of inspections, activations, recoveries, exceptions, kills and power losses, and after one more power loss, the files are safe. |
| `RuntimeHistory.FullFileCannotBeRolledBack` | deploy/configure-ops-runtime.py:54-63 | A readable file of the full size is accepted for rendering, and its failed activation is refused recovery. |
| `CleanupPlan.ReportIsUnique` | deploy/cleanup-releases.py:434-487 | An inventory is determined by the packages, the evidence and what it got to see. |
| `CleanupPlan.RollbackIsUnique` | deploy/cleanup-releases.py:469-473 | There is one pair of latest successes. |
| `CleanupPlan.ReportDescribes` | deploy/cleanup-releases.py:461-482 | The rollback releases are intact, readable packages of the installed schema, not current, with a readable receipt for exactly their bytes; no other such release has a later success; and what is eligible is exactly every other intact release that is not current, protected or referenced, once the pair is complete. |
| `CleanupPlan.RefusalIsObstacle` | deploy/cleanup-releases.py:438-472 | Each refusal of the inventory names something that is so: an unfinished publication, an unmanaged or unverified current release, a missing schema, a release that is not ready, unknown references, or two successes with one sequence. |
| `CleanupPlan.AcceptableMeans` | deploy/cleanup-releases.py:494-512 | A saved plan is still valid if and only if two rollback releases remain, current release and schema are those of the plan, no candidate is named twice, and each candidate that is still there may be removed and has the manifest, inode, device and size of the plan. |
| `CleanupPlan.ReducedReports` | deploy/cleanup-releases.py:446-487 | Removing eligible releases, wholly or half, leaves the inventory unrefused, with the same rollback pair and the rest of the eligible releases. |
| `CleanupPlan.ReplayIsAccepted` | deploy/cleanup-releases.py:498-512 | After an interruption the same plan validates again over the same references if and only if no candidate was left half removed. |
| `CleanupPlan.LatestSuccessesSurvive` | deploy/cleanup-releases.py:461-477 | One of the two latest schema-equal successes is eligible for removal if and only if its receipt could not be read by this inventory and nothing else protects it. |
| `CleanupPlan.SequencesAreDistinct` | deploy/cleanup-releases.py:469-472 | On a success directory that the recorder wrote, the duplicate-sequence refusal never fires. |
| `CleanupPlan.RollbackWasCommitted` | deploy/cleanup-releases.py:461-473 | Each rollback release is an intact package with a committed, unrevoked receipt for these bytes. |
| `CleanupWitness.HalfRemovedCandidateBlocksReplay` | deploy/cleanup-releases.py:500-509 | A host whose plan validates before the removal of a release is cut off half way, and not after it. |
| `CleanupWitness.HalfRemovedHostIsReported` | deploy/cleanup-releases.py:446-487 | The inventory of that half-removed host is not refused. |
| `CleanupWitness.UnreadReceiptUnprotectsTheLatest` | deploy/cleanup-releases.py:465-480 | A host on which the latest success becomes eligible because its receipt could not be read. |
| `ReleaseCleanup.LatestTwo` | deploy/cleanup-releases.py:473 | The first two of the successes sorted by descending sequence. |
| `ReleaseCleanup.ReleaseHost.Inventory` | deploy/cleanup-releases.py:434-487 | The inventory over packages and receipts that may be unreadable: it reports the pair and the eligible releases as described, and refuses only for an obstacle that is there. |
| `ReleaseCleanup.ReleaseHost.Select` | deploy/cleanup-releases.py:497-512 | Validation passes exactly for distinct release names of which each present one is eligible with the same identity, and splits them into selected and absent. |
| `ReleaseCleanup.ReleaseHost.DeleteOne` | deploy/cleanup-releases.py:515-532 | A removal starts only for a release that is unreferenced in its own inventory of references and still the expected package by manifest, inode, device and size; it touches nothing else, and is bracketed by its two audit events. With every call returning, an unreferenced expected package is removed. |
| `ReleaseCleanup.ReleaseHost.DeleteAll` | deploy/cleanup-releases.py:513-535 | Removal stops at the first problem; the audit trail says what was begun, with at most the last one not completed. |
| `ReleaseCleanup.ReleaseHost.ApplyPlan` | deploy/cleanup-releases.py:490-535 | Nothing is touched unless the whole plan validates against a fresh inventory; every release touched may be removed, is the very package of a candidate of the plan, and was unreferenced at its own check; a completed run removes exactly the candidates. When every call returns, only an obstacle, an outdated plan or a candidate that became referenced stops it. |
| `CleanupHistory.TrailNamesRemovals` | deploy/cleanup-releases.py:525-529 | Every removal begun has a start event, and all but the last a completion event. |
| `CleanupHistory.RollbackPairSurvives` | deploy/cleanup-releases.py:469-477 | The two latest successes, if their receipts were readable, are the two latest successes after the run. |
| `CleanupHistory.SparedStays` | deploy/cleanup-releases.py:447-480 | The current release and the explicitly protected ones are untouched. |
| `CleanupHistory.Run` | deploy/cleanup-releases.py:490-551 | Over any number of runs with any plans: every missing or damaged release has a start event; current and protected releases are untouched; the rollback pair stays, if its receipts were readable. |
| `CleanupHistory.InterruptThenReplay` | deploy/cleanup-releases.py:500-507 | Cut short anywhere and replayed to the end, a plan leaves what one uninterrupted run leaves, and replaying it again removes nothing. |
| `ReleaseQueue.Queue.Enqueue` | scripts/release_queue.py:15-20 | A new candidate goes to the end of the queue, a known one changes nothing; all invariants stay. |
| `ReleaseQueue.Queue.AdoptAccepted` | scripts/release_queue.py:56-60 | An accepted receipt of an unknown candidate is appended, waiting for merge; anything else changes nothing; candidate ids stay unique and at most one item is merged, in production or observed. |
| `ReleaseQueue.Queue.Transition` | scripts/release_queue.py:21-39 | Accepted exactly for a known candidate whose next status it is (or that is not merged yet, when it becomes stale), with nobody else active, nobody waiting in front and the base still the main branch where that matters; each refusal has its exact reason and changes nothing. An accepted one moves one item and records one event, and keeps unique ids, a single item in merged, production or observing, valid event paths and entry in list order, and without adoption a single active item and release in list order. |
| `ReleaseQueue.TransitionMeans` | scripts/release_queue.py:21-37 | The checks accept exactly the permitted steps of known candidates, and give each refusal exactly when its reason applies. |
| `ReleaseQueue.ReasonsExclude` | scripts/release_queue.py:25-37 | No two reasons to refuse apply at once, and none applies to a permitted step. |
| `ReleaseQueue.MoveKeepsExclusion` | scripts/release_queue.py:30-32 | A transition keeps at-most-one for any set of active statuses. |
| `ReleaseQueue.MoveKeepsEntered` | scripts/release_queue.py:33-34 | Items enter preview building in list order. |
| `ReleaseQueue.MoveKeepsReleased` | scripts/release_queue.py:28-39 | Without adoption, items are released in list order. |
| `ReleaseQueue.TransitionNeverCrowds` | scripts/release_queue.py:30-39 | A transition into an active status leaves one active item; any other makes none active. |
| `ReleaseQueue.AdoptionKeepsOneOwner` | scripts/release_queue.py:56-60 | Adoption keeps a single active item if and only if none was active or the candidate is known. |
| `ReleaseQueue.AdoptionCanCrowd` | scripts/release_queue.py:56-60 | A queue with one active item that adoption gives a second one. |
| `ReleaseQueue.CrowdedQueueOnlyDrains` | scripts/release_queue.py:25-32 | While two items are active, only releases and invalidations are accepted. |
| `ReleaseQueue.TerminalIsAbsorbing` | scripts/release_queue.py:25-29 | A released or stale item never leaves its status (a stale one may be marked stale again). |
| `ReleaseQueue.QueueTerminalMeans` | deploy/cleanup-source-bundles.py:49-54 | For a reachable item the retention check holds if and only if its status is terminal and every event into it precedes the boundary. |
| `ReleaseQueue.Run` | scripts/release_queue.py:14-60 | Any interleaving of the commands keeps the invariants, and finished items keep their status. |
| `Cutover.NamesDiffer` | scripts/cutover_paid_audience_apply.py:51-55 | The steps of a plan have pairwise different names, hence different keys. |
| `Cutover.OneRequestPerKey` | scripts/cutover_paid_audience_apply.py:51-61 | All requests ever sent with one idempotency key are the same request. |
| `Cutover.AtMostOnce` | scripts/cutover_paid_audience_apply.py:51-66 | Each step takes effect at most once. |
| `Cutover.StepJournaled` | scripts/cutover_paid_audience_apply.py:53-56 | Journaling the next step before sending it keeps journal, server and wire in agreement. |
| `Cutover.RequestSent` | scripts/cutover_paid_audience_apply.py:60-61 | Sending it keeps them in agreement, whether or not it arrives, and a known key is only met with its own request. |
| `Cutover.ResultJournaled` | scripts/cutover_paid_audience_apply.py:64-65 | So does journaling its answer. |
| `Cutover.PlanDone` | scripts/cutover_paid_audience_apply.py:68-86 | When all steps have results, the effects on the server are the whole plan in order. |
| `CutoverDriver.Driver.Save` | scripts/cutover_paid_audience_apply.py:36-43 | The journal file is the old or the new journal, whole. |
| `CutoverDriver.Driver.Step` | scripts/cutover_paid_audience_apply.py:51-66 | A step that returns is journaled with the answer of the server, under the key, path, method and body that the inputs prescribe for it; the request-conflict check never fires. |
| `CutoverDriver.Driver.Migrate` | scripts/cutover_paid_audience_apply.py:69-85 | The four steps of one source, with the package that the server created for it. It returns only if reads of this run showed that package bound to nothing, then its configuration as the rule has it, then active and still bound to nothing; it gives up for a binding or a drift only if the last read shows it, and for a binding before anything but the creation was sent. |
| `CutoverDriver.Driver.CreateAudience` | scripts/cutover_paid_audience_apply.py:70-75 | The creation, and the read that has to show a package bound to nothing. |
| `CutoverDriver.Driver.ConfigureAudience` | scripts/cutover_paid_audience_apply.py:76-79 | The configuration, and the read that has to show the rule. |
| `CutoverDriver.Driver.ActivateAudience` | scripts/cutover_paid_audience_apply.py:80-84 | Activation and refresh, and the read that has to show an active package bound to nothing. |
| `CutoverDriver.Driver.Apply` | scripts/cutover_paid_audience_apply.py:14-86 | A normal return means that the effects are exactly the plan: every source in ascending order, each created, configured, activated and refreshed once, and read back in this run. A missing target, missing or non-positive rule keys, incomplete rules and other inputs than those of the journal are refused exactly, without a request; anything else that stops a run is a call that did not return or a read that shows why. |
| `CutoverDriver.JournaledPath` | scripts/cutover_paid_audience_apply.py:57-59 | A journaled request has the path and method that the step would compute now. |
| `CutoverDriver.RequestsAreShaped` | scripts/cutover_paid_audience_apply.py:70-81 | Every request ever sent has the method, the path for the package that the server created, and the body of its step: name and template, schedule and definition, or reference time. |
| `CutoverDriver.FingerprintTells` | scripts/cutover_paid_audience_apply.py:27-34 | Two inputs leave the same fingerprint if and only if they are the same rules, or the same default definitions. |
| `CutoverDriver.Rerun` | scripts/cutover_paid_audience_apply.py:14-86 | Over any number of crashes and reruns, even with other inputs: one request per key, each step at most once, effects always a prefix of the plan; every request has the shape of its step, and claims only a version that was read from its package. |
| `OwnerHandoff.Discoverer.Discover` | cmd/aicrm/customer_owner_handoff_adapters.go:170-256 | The all-range selection is ascending and within the limit: in local mode exactly the own customers of the source and those without a local owner whose known primary it is, which are the ones resolution marks ready; with WeCom first exactly the customers it follows. Bad arguments, an unknown source and a missing user id are refused exactly; refusals for size or emptiness are justified. |
| `OwnerHandoff.Discoverer.DiscoverLocal` | cmd/aicrm/customer_owner_handoff_adapters.go:191-234 | Local assignments first, then primaries without another local owner; a full primary page fails closed. |
| `OwnerHandoff.Discoverer.Add` | cmd/aicrm/customer_owner_handoff_adapters.go:178-190 | Collects the positive ids and stops as soon as the limit is exceeded. |
| `OwnerHandoff.CollectedIsComplete` | cmd/aicrm/customer_owner_handoff_adapters.go:196-220 | Asking for one more than the limit shows that nothing was cut off. |
| `OwnerHandoff.Resolve` | cmd/aicrm/customer_owner_handoff_adapters.go:40-131 | One row per input in order, ready exactly when the customer may be handed over. |
| `OwnerHandoff.ResolveOne` | cmd/aicrm/customer_owner_handoff_adapters.go:66-129 | Each row names what is missing, or carries the evidence of its mode, with the versions that a later execution has to find unchanged. |
| `OwnerHandoff.DiscoverAndResolve` | cmd/aicrm/customer_owner_handoff_adapters.go:40-256 | Resolving what local discovery found yields ready rows only, and any other customer resolves to something else. |
| `SettlementScan.PageContinues` | cmd/aicrm/ops_payment_consistency.go:31-46 | Reading on from the last order id yields the next rows, none twice and none left out. |
| `SettlementScan.Scan.Compare` | cmd/aicrm/ops_payment_consistency.go:97-138 | The comparison raises exactly the counters whose condition holds for the payment and its order. |
| `SettlementScan.Scan.CountPage` | cmd/aicrm/ops_payment_consistency.go:50-69 | A page adds each of its payments once to each counter that applies. |
| `SettlementScan.Scan.Collect` | cmd/aicrm/ops_payment_consistency.go:29-94 | Every counter is the count over the paid orders seen, which are all of them exactly when the scan is not truncated; the scan is truncated exactly beyond 10000; the verdict is the one over payments and orders; and it fails only when a read failed. |
| `SettlementScan.HealthyMeansClean` | cmd/aicrm/ops_payment_consistency.go:80-93 | The verdict is ok if and only if the scan was complete and every payment has an order that settles it, field by field, with all the evidence; it is critical if and only if some payment has none, whatever evidence is missing. |
| `GoStripper.Strip` | scripts/check-architecture.py:36-78 | For every input the output is one character per token of the token grammar: code as it is, a newline for a line comment, a blank for any other comment or literal; and no quote, backtick or comment opener is left. |
| `GoStripper.LexingIsUnique` | scripts/check-architecture.py:36-78 | The grammar is unambiguous, so the tokens are determined by the source. |
| `GoStripper.QuotedTextMeans` | scripts/check-architecture.py:63-73 | A quoted body, position by position: a delimiter in it follows an odd run of backslashes, and the run before the closing one is even. |
| `GoStripper.OutputIsClean` | scripts/check-architecture.py:43-77 | The output has no quote, backtick or comment opener. |
| `GoStripper.StrippingIsIdempotent` | scripts/check-architecture.py:36-78 | Stripping twice changes nothing more. |
| `GoStripper.AdjacentCodeWasAdjacent` | scripts/check-architecture.py:47-77 | Two adjacent code characters of the output are the token at their own place in the source and the character right behind it: no identifiers are joined. |
| `GoStripper.TokensAreTheSource` | scripts/check-architecture.py:40-77 | The tokens are all of the source, in order. |
| `ManifestClosure.Closure.Include` | cmd/aicrm/distribution_routes.go:64-76 | The recursion ends for any manifest, adds only what the name reaches, and closes what it adds. |
| `ManifestClosure.Closure.Collect` | cmd/aicrm/distribution_routes.go:62-79 | The allowed files are exactly those reachable from the six entries through files of the manifest. |
| `ManifestClosure.OnlyManifestFiles` | cmd/aicrm/distribution_routes.go:68-72 | Only files of the manifest are allowed. |

## Left out

What the models abstract from, and what they do not cover.

- Ownership, mode, link and inode checks on protected files, and installer locks: a read returns what was written, and commands do not overlap.
- JSON, base64, SHA-256 and HMAC as bytes: digests are injective, and only the key holder makes a MAC. The 4096-character bound on cursors and the 16384-byte bound on receipts are not modelled.
- systemd, `/proc`, HTTP and SQL: readiness, restarts, references and reader failures are arbitrary outcomes.
- Temporary files of atomic writes (`.pending-*`, `.ops-runtime-*`, `.tmp`): they are never records. They do count toward the 2048 bound of the projection, which the model does not show.
- A directory fsync that returns is taken to settle every name of the directory; file contents are durable before their rename.
- The check that a receipt is not dated in the future, and the schema comparison (`schema_is_compatible`) that precedes a recording: both are part of the observation that a recording presupposes.
- SuccessRecorder.SuccessDirectory.RevokePending: the package is read as verified digests or as unverifiable; why it is unverifiable is not modelled.
- SuccessHistory.Project: the publication of the projected facts to the governance page is not modelled, and neither is their sorted output.
- EnvRender.Render: characters stand for bytes, for files in ASCII; invalid UTF-8 (refused by the program) and Unicode white space are not modelled.
- RuntimeConfigurator.RuntimeConfiguration.Configure: a missing environment file, edits of the file by others while a record exists, and argument parsing are not modelled; a signal is an exception at the next call.
- ActivityPaging.CustomerActivities: the payload of an activity is opaque, and the request arrives decoded.
- ReleaseCleanup.ReleaseHost.ApplyPlan: releases are removed in any order, which includes the sorted one; an audit line is written whole or not at all, and a power loss that undoes an unsynced removal is not modelled.
- ReleaseQueue.Queue.Transition: the queue file is replaced as a whole, and a status name outside the ten known ones is refused like any other invalid transition. Candidate ids and base commits are always present.
- CutoverDriver.Driver.Apply: processes crash but the file system does not, because the program does not sync the directory; the content of readbacks is an input.
- OwnerHandoff.Discoverer.Discover: all reads see one snapshot, listers are complete up to their limit, and provider user ids are unique among staff, as the database enforces.
- SettlementScan.Scan.Collect: order ids are positive and unique per payment, and the readers answer as their queries say or fail.
- The inventory and removal of source bundles repeat the validate-then-remove shape of the release cleanup with fewer protections; of that file only the terminal check of queue items is modelled.
- Host wiring, security headers, provider gates, webhooks, other single-source pages and presenters: delegation or easier cases of what is here.
