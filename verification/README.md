# A verified model of the OTA updater

The system ships binaries to a fleet of devices as compressed binary diffs, or whole when no diff can be made.
A server keeps content-addressed binaries, tracks what is current under each artifact key, generates diffs in the
background, and answers each heartbeat with a signed manifest. A device downloads what the manifest offers, rebuilds
the target, writes it to the inactive one of two slots, flips a symbolic link, restarts, watches its own health, and
rolls back when it is not well. Devices lose power and links are slow, so everything on a device has to survive a
crash between any two writes, and everything on the server that makes it fast must not change what it says.

Code that changes state in place is modelled by classes and methods whose contracts equate the new state with a
function of the old one; what the design promises is then proved about those functions, over all runs. What the main
operations answer is also said without those functions, in terms of what the caller meets: which boots roll back
(`Updater.BootPhase`), which cycles update (`Updater.RunOnce`, `Fleet.DeviceIsUpdated`), which downloads succeed
(`DownloadEndsIff`, `SucceedsIffSomeRequestCompletes`), which artifact and which outcome a heartbeat gets
(`AnswersNameTheArtifact`, `RefusesIff`, `DeltasAreForDiffable`), which files a sweep takes (`SweepKeepsIff`).

| files | about |
|---|---|
| `directory.dfy`, `atomicio.dfy` | a file system with a cached and a durable view, and crash-atomic replacement on it |
| `durability.dfy`, `device_files.dfy`, `device_runs.dfy` | the device's disk in those directories: each write, flip and removal is one change of the protocol's disk, crashes leave exactly that disk's images, and the protocol's runs are runs of the directories |
| `device.dfy`, `device_safety.dfy` | the A/B protocol as a transition system of single durable writes, fsynced or not, and its invariants |
| `device_counterexamples.dfy`, `confirmation.dfy` | the runs that break stronger claims, and exactly when they hold |
| `slots.dfy`, `watchdog.dfy`, `updater.dfy` | the agent's methods; each durable change they make is proved to be the next step of that protocol |
| `transfer.dfy`, `transfer_steps.dfy`, `transfer_crashes.dfy`, `downloader.dfy` | the resumable download: a whole call, its micro-steps, kills and power losses between any two, and the loop itself |
| `messages.dfy`, `acceptance.dfy`, `signing.dfy`, `hex.dfy`, `primitives.dfy` | messages, the checks before a swap, the signed payload, and the laws assumed of SHA-256, Ed25519, bsdiff and zstd |
| `artifact_key.dfy`, `names.dfy`, `routes.dfy` | keys, file names, cache keys, paths and their parsers |
| `recency.dfy`, `lru.dfy` | LRU caches as recency orders, and the linked-list classes that refine them |
| `history.dfy`, `registry.dfy`, `orphans.dfy`, `retention.dfy`, `sweeps.dfy` | publication tracks, the registry, what sweeps take and leave, and that the sweeper's loops are those sweeps |
| `flights.dfy`, `flight_answers.dfy` | generation and reading of derived files by any number of interleaved requests, and what they are answered |
| `serving.dfy`, `serving_laws.dfy`, `promises.dfy` | the server between heartbeats as a function, its invariant, and what devices may rely on |
| `miss_cache.dfy`, `miss_race.dfy` | the negative cache, one call at a time and interleaved |
| `stores.dfy`, `manifester.dfy` | the store and the manifester with their caches, proved to compute that function |
| `fleet.dfy` | server and device together |

Where the code does not support a claim that looks natural, there is a lemma that says exactly when it does:

- A directory fsync may fail with only a warning, and a kill may come between a rename and its fsync. What a device
  runs is authorised all the same (`ActiveIsAuthorised`), and rollbacks land on the right binary
  (`RollbacksLandIffShared`). But that every unconfirmed binary has a marker after any power loss takes exactly that
  markers and link flips are fsynced and that the files share one directory (`AlwaysGuardedIff`), and that the next
  cycle writes no slot the link may return to takes exactly that flips are (`DurablyActiveIsNeverWrittenIff`).
- A removed state file is not followed by a directory fsync. Rollbacks still land right because the shipped agent keeps
  its state files in the slots directory, whose next fsync settles them; with a separate state directory they do not
  (`RollbacksLandIffShared`).
- A power loss can bring the boot counter back and roll back a binary that was confirmed (`ConfirmedCanBeRolledBack`):
  in steady state exactly when it may bring back a marker naming the active binary (`SteadyRollsBackIff`), and at the
  next boot exactly when the counter that returns is spent (`NextBootRollsBackIff`).
- A kill between clearing the marker and rolling back after a failed restart leaves an unconfirmed binary without a
  marker (`RestartWindowLosesTheMarker`), exactly when it was never confirmed and the removal survives
  (`WindowLosesTheMarkerIff`), and until the marker of the next cycle after a confirmed one (`NextMarkerCoversAll`).
- Boots are bounded exactly when the counter is fsynced (`BootsAreBoundedIff`). A kill between the flip of a rollback and the
  removal of the counter leaves it spent (`RollbackLeavesItsCounter`), and the same binary offered again is rolled back
  without a health window exactly when it finds its counter so (`FirstBootIsWatchedIff`).
- A last health check that fails because its own time slot ran out is reported like a cancelled context, so the device
  does not roll back until the boot counter runs out (`Updater.Verify`).
- The state of a download is replaced with a directory fsync, which may fail; the bytes it counts, and the creation,
  move and removal of the file they are in, are not fsynced at all. A power loss spares what can be resumed exactly when
  each state that may come back counts only bytes on disk in the file that comes back with it
  (`PowerLossIsHarmlessIff`, `CutOffLosesItsTail`, `UnsyncedSaveMeetsTheDrop`, `SecondFetchMeetsTheFirst`), a kill exactly
  when the file was not truncated or dropped since the offset was saved, or has been fetched again so far
  (`KillIsHarmlessIff`, `RestartedFetchLosesTheOffset`). Either way the next downloads recover (`EveryCrashIsRecovered`).
- Over ranged HTTP a saved offset at or past the payload's length is never made good (`RangedProgress`).
- The signature alone does not fix the two digests (`VerifiedIsNotSigned`); the comparisons after it do
  (`AcceptedIsSigned`).
- Registering an old file again does not renew its age (`OldOrphanIsNotProtected`), and a sweep deletes by what it saw
  live when it began (`SlowSweepTakesTheTarget`): a sweep is safe exactly when what became live meanwhile is still young
  as it ends (`EndSweepIsSafeIff`), a publish, whatever others do, exactly when its file will be (`CommitIsSafeIff`).
- A Build that memoizes late leaves a wrong answer exactly when the artifact has the bytes it resolved under another
  label by then, whatever came between (`OvertakenIsHarmlessIff`).
- "Retry later" is said without a generation under way exactly when the target's bytes are gone (`RetryIsBackedIff`).
- A binary that is there is answered as missing exactly when a miss found before it was written was recorded after the
  wipe and has not expired (`HiddenIff`, `RaceHides`).
- `name//` parses as the key `name` (`StringOfParse`, `DoubleSlashAccepted`).
- Publishing and removing can leave a sole artifact that is not the default (`PublishKeepsDefaultIff`,
  `RemoveLosesDefaultIff`).

## Model

| member | source | states |
|---|---|---|
| DeviceSafety.ActiveIsAuthorised | pkg/agent/updater.go:432-637 | in every reachable state of either layout, and in everything a power loss may leave of link and files, fsynced or not, the linked slot holds a whole binary that was provisioned or is the target of a pair the server signed |
| DeviceSafety.ActiveIsNeverWritten | pkg/agent/slots.go:102-129 | no step but a power loss changes the slot the link names, in either layout, and a power loss does not when link and files are settled |
| DeviceSafety.MarkerNamesTheWayBack | pkg/agent/updater.go:581-603 | whenever a marker names the active binary, cached or in whatever a power loss may leave of link and files, the other slot holds the binary it says came before, whatever directory fsyncs failed |
| DeviceSafety.RollbackLands | pkg/agent/updater.go:399-426 | so the unchecked toggle of a rollback always activates the pre-update binary, after any crashes and cycles |
| DeviceSafety.FailedRestartIsUndone | pkg/agent/updater.go:616-636 | undoing a failed restart activates the binary the cycle started from |
| DeviceSafety.UnconfirmedIsMarked | pkg/agent/updater.go:377-387 | with one directory and markers and flips fsynced, an active binary never confirmed has a marker naming it, cached and after any power loss, unless its marker went in the window of a failed restart |
| DeviceSafety.WindowLosesTheMarkerIff | pkg/agent/updater.go:627-634 | going down in that window leaves an unconfirmed binary unmarked if and only if it was never confirmed and the removal of the marker survives |
| DeviceSafety.LostOnlyInTheWindow | pkg/agent/updater.go:627-634 | no other step of any run makes a binary lose its marker |
| DeviceSafety.UnconfirmedIsMarkedOutsideTheWindow | pkg/agent/updater.go:586-634 | over every run from a provisioned device without a crash in that window, an active binary never confirmed has a marker naming it, cached and after any power loss |
| DeviceSafety.NextMarkerCoversAll | pkg/agent/updater.go:594-603 | and once the active binary is a confirmed one again, the next cycle's marker ends every exception |
| DeviceSafety.BootsAreBounded | pkg/agent/watchdog.go:244-258 | over any run of boots of one hash with any crashes, the fsynced count grows by one per CheckBoot, exactly the first MaxBoots enter the health window and every later one rolls back |
| DeviceCounterexamples.BootsAreBoundedIff | pkg/agent/watchdog.go:114-135 | from no reachable state do boots of one binary enter the window more than MaxBoots times, if and only if the count is fsynced |
| DeviceSafety.StepInv | pkg/agent/updater.go:322-637 | every single durable write, fsynced or not, boot, kill and power loss keeps as much of the invariant as layout and fsyncs allow |
| DeviceSafety.ReachableInv | pkg/agent/updater.go:322-637 | so it holds after every run from a provisioned device |
| DeviceCounterexamples.RestartWindowLosesTheMarker | pkg/agent/updater.go:627-634 | a concrete run ending in steady state on an unconfirmed binary with no marker |
| DeviceCounterexamples.SplitLayoutRollsBackWrongly | pkg/agent/updater.go:836-840 | with a separate state directory, a concrete run whose rollback would activate a binary that is not the previous one, and does activate one that is neither confirmed nor marked |
| DeviceCounterexamples.RollbacksLandIffShared | pkg/agent/updater.go:399-426 | rollbacks land on the previous binary in all runs, whatever fsyncs fail, if and only if state files live in the slots directory |
| DeviceCounterexamples.AlwaysGuardedIff | pkg/atomicio/atomicio.go:60-68 | every unconfirmed binary a power loss may make active is marked, in all runs, if and only if the files share a directory and markers and link flips are fsynced |
| DeviceCounterexamples.DurablyActiveIsNeverWrittenIff | pkg/atomicio/atomicio.go:117-136 | no run ever writes a slot that a power loss may make active if and only if link flips are fsynced |
| DeviceCounterexamples.UnsyncedLinkIsOverwritten | pkg/atomicio/atomicio.go:127-136 | a concrete run in which a flip cut off before its fsync is confirmed and the slot it may return to is then overwritten |
| DeviceCounterexamples.UnsyncedMarkerIsMissed | pkg/agent/updater.go:594-603 | a concrete run in which the link survives a power loss that the marker does not |
| Confirmation.SteadyRollsBackIff | pkg/agent/updater.go:377-387 | from steady state, some run without another update rolls back if and only if a power loss may bring back a marker naming the active binary |
| Confirmation.NextBootRollsBackIff | pkg/agent/watchdog.go:244-258 | the boot after a power loss rolls back at once if and only if the marker returns with MaxBoots on the counter |
| Confirmation.SettledNeverRollsBack | pkg/agent/updater.go:377-387 | once the removals are settled no such run exists |
| Confirmation.ConfirmedCanBeRolledBack | pkg/agent/watchdog.go:139-146 | a reachable state in which the binary is confirmed and its counter removed, and a power loss after which the next boot rolls it back |
| Confirmation.FirstBootIsWatchedIff | pkg/agent/updater.go:346-360 | the first boot of a staged binary opens the health window if and only if the count persisted for it when it was staged is not spent; otherwise it is rolled back unseen |
| Confirmation.RollbackLeavesItsCounter | pkg/agent/updater.go:399-407 | a reachable steady state in which a rollback has left a spent counter |
| Updaters.Updater.RunOnce | pkg/agent/updater.go:432-637 | each result of a cycle exactly when the cooldown, the answer, the policy and the trigger say so: it updates only when allowed or forced and with no cooldown in force, and does whenever the transport delivers a transfer that rebuilds; replaced, it runs the signed target, marked, with the old binary in the other slot; a failed restart is taken back; otherwise only a spent cooldown goes. The trigger is consumed exactly by an offer. The durable writes, in order, form a run of the protocol |
| Updaters.Updater.FetchAndApply | pkg/agent/updater.go:518-637 | the part after the checks: what has been downloaded, has the signed digest and rebuilds to the signed target is applied; a failure before that changes nothing |
| Updaters.CycleResultIs | pkg/agent/updater.go:432-637 | the specified cycle ends in each result exactly when cooldown, answer, policy, trigger, checks, transport and restart say so |
| Updaters.EarlyResultIs | pkg/agent/updater.go:438-517 | and goes on to download exactly when awake, offered, allowed or forced, and the manifest passes |
| Updaters.FailedRestartWaitsIff | pkg/agent/updater.go:438-456 | after a failed restart a cycle comes to nothing if and only if it is not forced and begins before the cooldown is over |
| Fleet.DeviceIsUpdated | pkg/agent/updater.go:432-637 | a device that is awake, allowed or forced, is answered with a signed manifest and gets its bytes through, however often cut off within its retries, ends replaced by the published binary when the restart takes |
| Updaters.Updater.BootPhase | pkg/agent/updater.go:322-393 | with the marker naming the active binary, it rolls back exactly when the count is spent, or every check fails, the last of itself, before any cancellation; it is steady exactly when the marker names another or a check passes in time; link, marker and counter afterwards in each case. The writes form a run of the protocol, and from any reachable state a rollback ends on the marker's previous binary |
| Updaters.Updater.Verify | pkg/agent/updater.go:362-393 | it confirms exactly when some check passes before a cancellation, rolls back exactly when all fail uncancelled and the last of itself, and otherwise (a timed-out last check included) stops without either; link, marker and counter in each case |
| Updaters.Updater.RollbackAndExec | pkg/agent/updater.go:399-426 | flips the link, resets the counter, removes the marker, in that order; the inactive binary becomes active |
| Updaters.Updater.Apply | pkg/agent/updater.go:581-637 | slot, marker, link, restart, in that order, each a protocol step; the other slot holds the binary, and the link leads there exactly when the restart takes |
| Updaters.Updater.Undo | pkg/agent/updater.go:616-637 | marker, link, cooldown, in that order, back to steady state: the old link, no marker, the cooldown armed from now |
| Updaters.Updater.Gate | pkg/agent/updater.go:432-530 | which cycles end before a download, that they change nothing but an expired or overridden cooldown, and that exactly an offer consumes the trigger |
| Updaters.RollbackFindsPrevious | pkg/agent/updater.go:399-426 | a rollback decided on in a reachable state finds the marker's previous binary in the inactive slot |
| Slots.SlotManager.WriteToInactive | pkg/agent/slots.go:117-129 | replaces the unlinked slot and nothing else |
| Slots.SlotManager.SwapTo | pkg/agent/slots.go:190-195 | flips the link if the inactive slot has the expected digest, and otherwise changes nothing |
| Slots.SlotManager.RollbackTo | pkg/agent/slots.go:200-205 | the same for the way back |
| Watchdogs.BootCounter.Increment | pkg/agent/watchdog.go:114-135 | counts on for the same hash, starts at one for another, refuses the empty hash |
| Watchdogs.Watchdog.CheckBoot | pkg/agent/watchdog.go:244-258 | exceeded exactly when this boot is past the allowance; the count is persisted first |
| Watchdogs.Watchdog.WaitForHealth | pkg/agent/watchdog.go:264-309 | passed exactly when some attempt passes before a cancellation, and failed outright exactly when none passes, nothing cancels and the last fails of itself |
| Watchdogs.PassedIff | pkg/agent/watchdog.go:264-309 | the window is passed if and only if some attempt passes before the context is cancelled |
| Watchdogs.NotPassedIff | pkg/agent/watchdog.go:264-309 | it runs out if and only if no attempt passes and the context is not cancelled before the last, whose result is reported |
| Watchdogs.WindowEnds | pkg/agent/watchdog.go:264-309 | the three ends of the window, from the checks and the context alone |
| Directory.StagingIsAtomic | pkg/atomicio/atomicio.go:42-60 | while a temporary file is filled, a crash leaves every other name as it could have been before |
| Directory.RenameIsAtomic | pkg/atomicio/atomicio.go:60-68 | after the rename, a crash leaves the old state or the complete new content, every earlier change included |
| Directory.SyncSettles | pkg/atomicio/atomicio.go:140-167 | after the directory fsync no crash undoes it |
| Directory.NeverMissing | pkg/atomicio/atomicio.go:42-136 | a destination that existed is never missing after a crash in the middle of its replacement |
| Directory.SettledSurvivesOthers | pkg/atomicio/atomicio.go:42-136 | replacing one name cannot unsettle another |
| Directory.SettledSurvivesCrash | pkg/atomicio/atomicio.go:157-167 | what is settled survives every later crash |
| Directory.RemoveMayBeUndone | pkg/agent/updater.go:836-840 | exactly what crashes may leave after a removal without a directory fsync |
| AtomicIo.FileSystem.WriteFile | pkg/atomicio/atomicio.go:42-68 | on error the destination is unchanged; on success it has the data; crash-atomic throughout; settled when the directory fsync succeeded |
| AtomicIo.FileSystem.WriteReader | pkg/atomicio/atomicio.go:72-108 | the same for streamed content, a failing source included |
| AtomicIo.FileSystem.ReplaceSymlink | pkg/atomicio/atomicio.go:117-136 | the same for a link |
| AtomicIo.FileSystem.Publish | pkg/atomicio/atomicio.go:60-68 | the rename and directory fsync that end all three |
| DeviceFiles.WriteRefines | pkg/atomicio/atomicio.go:42-108 | WriteFile and WriteReader in the slots directory are one change of the protocol's disk, fsynced as reported; at every point on the way the directory shows the disk before it or after it |
| DeviceFiles.StateFileRefines | pkg/agent/updater.go:828-834 | the same for a separate state directory |
| DeviceFiles.ReplaceSymlinkRefines | pkg/atomicio/atomicio.go:117-136 | the same for the link: cut off before its fsync, the new link is cached and the old one still an image |
| DeviceFiles.SlotsRemoveRefines | pkg/agent/updater.go:836-840 | a removal adds one image and settles nothing |
| DeviceFiles.StateRemoveRefines | pkg/agent/updater.go:836-840 | the same in a separate state directory |
| DeviceFiles.ProvisionedShows | pkg/agent/slots.go:49-84 | the directories of a provisioned device show the protocol's initial disk |
| DeviceFiles.EveryCrashIsAPowerLoss | pkg/atomicio/atomicio.go:140-167 | every crash of the directories, whatever it keeps of each and makes of unsynced data, is one of the protocol's power losses |
| DeviceFiles.EveryPowerLossIsACrash | pkg/atomicio/atomicio.go:140-167 | and each of those is what some crash leaves |
| DeviceFiles.DeviceDirs.WriteFile | pkg/agent/slots.go:117-129 | writing a slot, the counter or a state file through the crash-atomic operation makes exactly the protocol's change |
| DeviceFiles.DeviceDirs.Flip | pkg/agent/slots.go:147-181 | so does flipping the link |
| DeviceFiles.DeviceDirs.Remove | pkg/agent/watchdog.go:139-146 | and removing a file |
| DeviceFiles.DeviceDirs.WriteStateFile | pkg/agent/updater.go:828-834 | and writing a state file in a directory of its own |
| DeviceFiles.DeviceDirs.RemoveStateFile | pkg/agent/updater.go:836-840 | and removing one |
| DeviceRuns.StepShows | pkg/agent/updater.go:322-637 | whatever performs a step of the protocol on directories that show its disk shows the disk after the step |
| DeviceRuns.RunShows | pkg/agent/updater.go:322-637 | over every run, with whatever failed fsyncs, kills and power losses, the directories show the protocol's disk |
| DeviceRuns.RunCanBeCarried | pkg/agent/updater.go:322-637 | and every run of the protocol can be carried out on directories |
| DeviceRuns.CrashIsCarried | pkg/atomicio/atomicio.go:140-167 | no crash of the directories escapes the protocol's power losses |
| DeviceRuns.CutShortIsCarried | pkg/atomicio/atomicio.go:42-108 | nor does a kill at any point of a write: it is a kill before it, or after it, fsynced or not |
| DeviceRuns.LinkLeadsToAuthorised | pkg/agent/slots.go:229-244 | so after any run and any crash the link on disk leads to a slot file with a whole, authorised binary |
| Durability.RenamedShows | pkg/atomicio/atomicio.go:60-68 | a replacement without its directory fsync adds exactly one image to those a crash may leave |
| Durability.SyncedShows | pkg/atomicio/atomicio.go:157-167 | the fsync leaves only the last |
| Transfer.SuccessIsVerified | pkg/agent/downloader.go:188-205 | for any transport at all and any files on disk, a nil return means OutPath has the expected digest and no state is left |
| Transfer.SuccessIsPayload | pkg/agent/downloader.go:188-205 | with a collision-free digest, OutPath is the payload |
| Transfer.OneDownload | pkg/agent/downloader.go:124-204 | from any partial file and any offset inside the payload, a fault-free Download succeeds, or removes both files after a mismatch, or resets the offset after a refusal with no retries left; nothing else |
| Transfer.TwoDownloadsSuffice | pkg/agent/downloader.go:93-205 | so two Downloads always reach success |
| Transfer.RangedProgress | pkg/agent/downloader_http.go:30-55 | over ranged HTTP, repeated Downloads ever succeed if and only if the saved offset is zero or inside the payload |
| Transfer.DownloadEndsIff | pkg/agent/downloader.go:124-186 | exhausted if and only if uncancelled and each of maxRetries + 1 requests, each at the offset the one before left, has failed; as far as the digest if and only if one of them completes before that |
| Transfer.ExhaustedIsResumed | pkg/agent/downloader.go:245-286 | the next download starts where the last request of an exhausted one ended |
| Transfer.SucceedsIffSomeRequestCompletes | pkg/agent/downloader.go:93-205 | over a transport that refuses, fails or cuts off as often as it likes but sends no wrong byte, a download starting clean succeeds, with the payload in place, if and only if some request completes within the retries and before a cancellation |
| Transfer.ForeignStateIsIgnored | pkg/agent/downloader.go:245-262 | state left by another target or over another transport counts for nothing |
| TransferCrashes.BoundariesAreExact | pkg/agent/downloader.go:120-186 | at every attempt boundary, after any cut-off, ignored or refused requests and any careful kills and power losses, the first offset bytes of the partial file are the payload's, and so are those up to the saved offset |
| TransferCrashes.KillIsHarmlessIff | pkg/agent/downloader.go:209-243 | a kill leaves a file that can be resumed from if and only if it was not truncated, dropped or moved since the offset was saved, or as much as the offset counts has been fetched again |
| TransferCrashes.PowerLossIsHarmlessIff | pkg/agent/downloader.go:264-293 | a power loss back to any image of the directory does, whatever becomes of bytes not on disk, if and only if the state of that image counts only bytes on disk in the partial file of that image |
| TransferCrashes.EveryCrashIsRecovered | pkg/agent/downloader.go:93-205 | after kills and power losses anywhere, back to any image and leaving anything, two fault-free Downloads succeed unless the offset is the whole length, and over ranged HTTP repeated ones do exactly unless it is |
| TransferCrashes.CutOffLosesItsTail | pkg/agent/downloader.go:264-286 | one chunk, a cut-off and a saved offset already reach a state a power loss can spoil |
| TransferCrashes.UnsyncedSaveMeetsTheDrop | pkg/agent/downloader.go:147-170 | after a refused resume saved without its fsync, the old offset may come back over no file |
| TransferCrashes.SecondFetchMeetsTheFirst | pkg/agent/downloader.go:188-205 | while a target is fetched once more, the first download's state may come back without its file |
| TransferCrashes.RestartedFetchLosesTheOffset | pkg/agent/downloader.go:216-236 | a concrete run in which a kill while fetching again leaves the offset past the file |
| Downloading.Downloader.Download | pkg/agent/downloader.go:93-205 | the loop over files and state computes the specified Download, whose outcomes DownloadEndsIff pins, and every change it makes is one of the micro-steps |
| Downloading.Downloader.Attempt | pkg/agent/downloader.go:209-243 | one request and copy, truncating only when the effective offset differs |
| Downloading.Downloader.Conclude | pkg/agent/downloader.go:188-205 | verify, then move into place or remove both files |
| Acceptance.AcceptedIsSigned | pkg/agent/updater.go:501-579 | for any response whatsoever, getting as far as the slot means its two digests are exactly a pair the server signed and the staged binary has the first |
| Acceptance.VerifiedIsNotSigned | pkg/protocol/signing.go:31-44 | from every accepted signature on a signed pair, moving bytes across the boundary gives an unsigned pair that passes the same checks |
| Acceptance.ManifestPassesIff | pkg/agent/updater.go:488-526 | the checks before a download pass if and only if there is a hex signature over both digests' bytes, and an endpoint |
| Signing.PayloadPinsDigests | pkg/protocol/signing.go:31-44 | on well-formed digests the payload determines both |
| Signing.PayloadBoundaryMoves | pkg/protocol/signing.go:31-44 | without the length check it does not: bytes can move across the boundary |
| Hex.DecodeEncode | pkg/protocol/signing.go:31-44 | decoding undoes encoding, which is lowercase and twice as long |
| Hex.EncodeDecode | pkg/protocol/validate.go:32-46 | encoding undoes decoding on lowercase hex |
| ArtifactKeys.ParseOfString | pkg/protocol/artifact.go:46-122 | parsing a valid key's text gives the key back |
| ArtifactKeys.KeyStringInjective | pkg/protocol/artifact.go:46-51 | two valid keys with one text are one key |
| ArtifactKeys.StringOfParse | pkg/protocol/artifact.go:60-80 | printing what an accepted text parses to gives the text back, except exactly for `name//` |
| ArtifactKeys.DoubleSlashAccepted | pkg/protocol/artifact.go:64-79 | `name//` is accepted for every valid name |
| ArtifactKeys.AcceptedTextsIff | pkg/protocol/artifact.go:60-156 | the parser accepts exactly a name, or a name, an operating system and an architecture between slashes, the last two both empty or both not |
| Messages.RefusedHeartbeatIff | pkg/protocol/validate.go:68-97 | what makes a heartbeat unacceptable, character by character; its version hash never does |
| Routes.RoutedEndpoint | pkg/protocol/constants.go:26-41 | the path printed in a manifest is routed to the transfer it was printed for |
| Routes.EndpointOfRouted | pkg/server/http_handler.go:46-47 | and no other path is routed there |
| Names.ParseOfName | pkg/server/retention.go:348-363 | the sweeper parses every transfer file name the store writes back to its transfer |
| Names.NameOfParse | pkg/server/retention.go:348-363 | and accepts no other name |
| Names.KeysAreDistinct | pkg/server/store.go:410-601 | different transfers share neither a flight nor a hot-cache entry, deltas and whole binaries included |
| Names.ManifestKeyInjective | pkg/server/manifest.go:120-122 | the joined manifest cache key determines its three parts |
| Recency.BudgetPutLaws | pkg/server/lru.go:140-170 | an accepted Put is in front, within the budget, and evicts exactly the shortest least-recent suffix; a rejected one changes nothing |
| Recency.EvictIsLongestFittingPrefix | pkg/server/lru.go:155-168 | what eviction leaves is the longest recent prefix that fits |
| Recency.BudgetRunLaws | pkg/server/lru.go:115-179 | over any run: distinct keys, total within the budget, and a hit is the last accepted Put of its key |
| Recency.CountedPutLaws | pkg/server/lru.go:53-70 | the same for the entry-counted cache: only the last entry of a full cache of other keys goes |
| Recency.CountedRunLaws | pkg/server/lru.go:28-78 | over any run: distinct keys, count within the cap, a hit is the last Put |
| Recency.TouchLaws | pkg/server/lru.go:40-49 | a hit reorders and changes no entry |
| Lru.ByteBudgetLru.Put | pkg/server/lru.go:140-170 | the list, index and byte total after Put are those of the recency order |
| Lru.ByteBudgetLru.Get | pkg/server/lru.go:127-135 | Get answers the order's lookup and moves the entry to the front |
| Lru.EntryLru.Put | pkg/server/lru.go:53-70 | Put of the entry-counted cache on list and index |
| Lru.EntryLru.Get | pkg/server/lru.go:40-49 | Get of the entry-counted cache |
| Lru.LinkedList.Remove | pkg/server/lru.go:53-70 | unlinking an element of the doubly linked list keeps all others in order |
| History.HistoryIsExact | pkg/server/registry.go:155-190 | after any publishes, the history is the first HistoryDepth of all superseded hashes, most recent first, without duplicates |
| History.PushOfTake | pkg/server/registry.go:170-183 | truncating at every step loses nothing against truncating once |
| Registries.TracksAreExact | pkg/server/registry.go:155-365 | the same for every track of a registry under any interleaving of publishes, removals and default changes |
| Registries.LastPublishIsResolved | pkg/server/registry.go:155-228 | after any run, a key resolves to what was published last under it, digest, size, label, time and source, and to nothing after its removal |
| Registries.LiveIff | pkg/server/registry.go:370-430 | after any run, live is exactly the last hash of each track and the first HistoryDepth it superseded, and the targets are exactly the last hashes |
| Registries.NamedIsResolvedIff | pkg/server/registry.go:271-287 | the text of a valid key resolves if and only if that key is registered, and then to its artifact |
| Registries.UnnamedIsResolvedIff | pkg/server/registry.go:258-270 | no text resolves if and only if there is an artifact under the default key, and then to it |
| Registries.ParsedIsResolved | pkg/server/registry.go:271-275 | any other text is refused, or gets what the key it parses to gets |
| Registries.ChangesIff | pkg/server/registry.go:166-222 | OnChange is spared exactly by a publish of what the key resolves to, bytes and label |
| Registries.DefaultMovesIff | pkg/server/registry.go:191-348 | exactly which publishes, removals and default changes move the default, and where to |
| Registries.Registry.SetTarget | pkg/server/registry.go:155-228 | the whole new registry state, and when OnChange fires |
| Registries.Registry.Remove | pkg/server/registry.go:331-365 | the whole new state, the default's succession included |
| Registries.Registry.LiveHashes | pkg/server/registry.go:370-383 | exactly the live hashes, which LiveIff spells out over any run |
| Registries.Registry.CurrentTargets | pkg/server/registry.go:387-397 | exactly the current targets, which LiveIff spells out over any run |
| Registries.PublishKeepsDefaultIff | pkg/server/registry.go:191-195 | a publish leaves a sole artifact that is not the default exactly when it is to the only track and the default names another one |
| Registries.RemoveLosesDefaultIff | pkg/server/registry.go:339-348 | a removal does exactly when it goes from two artifacts to one while the default names none of them |
| Orphans.NothingLiveIsLost | pkg/server/retention.go:119-154 | over any run of publishes, removals and sweeps, with timely set-targets and with what becomes live during a sweep still young at its end, every target and history hash stays in the store |
| Orphans.EndSweepIsSafeIff | pkg/server/retention.go:272-313 | the end of a sweep takes nothing live if and only if what became live since it looked at the registry is still young |
| Orphans.SlowSweepTakesTheTarget | pkg/server/retention.go:119-134 | a concrete run in which a timely set-target is swept by a sweep that began before it |
| Orphans.CommitIsSafeIff | pkg/server/retention.go:272-313 | a set-target some time from now is safe, whatever other publishes, removals and sweeps there are until then and while a sweep under way ends, if and only if its file will still be younger than the grace period |
| Orphans.OldOrphanIsNotProtected | pkg/server/store.go:244-247 | a re-registered old orphan can be swept before its set-target |
| Retentions.SweepIsExact | pkg/server/retention.go:165-270 | a delta sweep deletes exactly the condemned and the shortest oldest-first prefix the cap needs; which are condemned is SweepKeepsIff; survivors fit a positive cap |
| Retentions.CapTakesShortestPrefix | pkg/server/retention.go:236-270 | one file fewer would leave too much |
| Retentions.LeftAfterSweep | pkg/server/retention.go:165-270 | what a sweep leaves has nothing left to condemn and the young end of the age order |
| Retentions.SecondSweepDeletesNothing | pkg/server/retention.go:165-270 | a second sweep with the same registry and clock deletes nothing |
| Retentions.Sweeper.SweepDeltas | pkg/server/retention.go:165-232 | the loops delete what is specified, refused removals included, and BytesReclaimed grows by exactly the sizes deleted; with SweepKeepsIff, exactly which files go and which stay |
| Retentions.Sweeper.SweepBinaries | pkg/server/retention.go:272-313 | deletes exactly the binaries neither live nor young |
| Retentions.Sweeper.Sweep | pkg/server/retention.go:119-154 | both together, when the hot cache is dropped, and every statistic: deltas, whole binaries and bytes deleted, files scanned |
| Sweeps.BinarySweepIsSweep | pkg/server/retention.go:272-313 | what the pass over the binaries leaves is what a sweep of the store's model leaves, so the safety results are about this loop |
| Sweeps.SweepIsSwept | pkg/server/retention.go:165-232 | and the pass over the derived files is a sweep of the served store |
| Sweeps.SweepKeepsIff | pkg/server/retention.go:165-270 | against the registry: a file outlives all but the cap if and only if it is not over age and is a delta from a live binary to a current target, or a live whole binary; the cap takes the shortest oldest prefix of those; names that do not parse always stay |
| Sweeps.OfferableIsKept | pkg/server/retention.go:190-215 | no young transfer that can be offered for a registered artifact to a device on a live or unknown binary is lost to anything but the cap, and then only with everything younger kept |
| Flights.AtMostConcurrencyDiffs | pkg/server/store.go:455-500 | in every interleaving at most DeltaConcurrency diffs are under way |
| Flights.OneGenerationPerKey | pkg/server/store.go:400-450 | two requests generating one artifact are one request |
| Flights.FlightsAreNotShared | pkg/server/store.go:576-673 | whoever joins a flight waits for its own artifact: deltas and whole binaries never share one |
| Flights.CachesAgree | pkg/server/store.go:455-673 | every file, hot entry, cached target and answer is what its key stands for, under sweeps and evictions at any moment |
| Flights.NoCircularWait | pkg/server/store.go:455-673 | chains of waiting requests have at most three links and no repetition |
| Flights.SomebodyCanMove | pkg/server/store.go:455-673 | an unfinished request can move or waits, at most two links away, for one that can |
| Flights.EveryRequestIsShort | pkg/server/store.go:400-673 | no request takes more than fourteen steps, whatever the others do |
| Flights.EveryRequestFinishes | pkg/server/store.go:705-721 | from every reachable state, every run without arrivals can be prolonged until each request has its answer, and none takes more steps than the requests were from their ends |
| FlightAnswers.AnswersAreEarned | pkg/server/store.go:400-673 | in every interleaving, when the binaries are there and nothing spoils it, no finished request for a transfer is told it is missing: generations leave the file, whole binaries are read or packed even when swept between look and read, deltas are read if they were there |
| Flights.InvMove | pkg/server/store.go:400-673 | the invariant behind these is kept by every step of every request |
| MissCache.NeverContradictsDisk | pkg/server/store.go:275-302 | in sequential runs HasBinary answers exactly what is on disk, at any time and whatever was evicted |
| MissRace.HiddenIff | pkg/server/store.go:240-302 | over all interleavings of looking, recording, writing and wiping, a binary that is there is answered as missing if and only if a recorded miss of it stands, not wiped, evicted or expired; and each such miss was found before the binary was written |
| MissRace.RaceHides | pkg/server/store.go:286-301 | the interleaving in which it happens |
| MissRace.EntryIff | pkg/server/store.go:275-302 | the cache holds a miss exactly when one stands, believed until its own deadline |
| Stores.Store.HasBinary | pkg/server/store.go:275-302 | the answer is what is on disk, and the negative cache is left as specified: a new miss is believed for 30 seconds, and at most 256 are kept |
| Stores.Store.RegisterBinary | pkg/server/store.go:240-253 | adds the binary under its digest, wipes recorded misses, changes no existing file |
| Stores.Store.CanDiff | pkg/server/store.go:371-395 | the size budget: cached deltas always, unknown binaries ignored, none when it is off |
| Stores.Store.StartDeltaGeneration | pkg/server/store.go:427-450 | dispatches exactly when the delta is missing, both binaries are there and the budget allows |
| Stores.Store.GetDeltaBytes | pkg/server/store.go:532-538 | RAM, then disk, then dispatch, with the caches left as specified |
| Stores.Store.GetBinaryBytes | pkg/server/store.go:576-627 | RAM, then disk, then compression on the spot |
| Stores.Store.GenerateAndCacheDelta | pkg/server/store.go:455-500 | the end of a dispatched generation |
| Manifesters.Manifester.Build | pkg/server/manifest.go:134-230 | with memo, hot cache and negative cache in play, answer and new state are those of the specified Build, whose answers AnswersNameTheArtifact, RefusesIff and DeltasAreForDiffable pin |
| Manifesters.Manifester.SourceFor | pkg/server/manifest.go:154-180 | the source is the reported hash exactly when it is well-formed, in the store and within the budget |
| Manifesters.PublishBytes | pkg/server/registry.go:129-228 | register, set the target, clear memoized manifests exactly on a change; a bad key changes nothing |
| Manifesters.Remove | pkg/server/registry.go:331-365 | remove and clear memoized manifests |
| ServingLaws.BuildLaws | pkg/server/manifest.go:134-230 | Build answers a function of registry, store and what is ready, in which no cache order, hit or miss appears, and keeps the invariant |
| ServingLaws.HitIsOffer | pkg/server/manifest.go:181-183 | a memo hit for a registered artifact is what signing gives for it now |
| ServingLaws.PublishInv | pkg/server/registry.go:166-222 | a publish that fires no OnChange leaves every memoized manifest right |
| ServingLaws.StepInv | pkg/server/manifest.go:108-329 | the server invariant is kept by publishes, removals, heartbeats, downloads, generations, sweeps and restarts |
| ServingLaws.GetDeltaLaws | pkg/server/store.go:532-673 | bytes served are the derived ones, and a generation is dispatched exactly by a miss with both binaries there and within the budget |
| ServingLaws.GetFullLaws | pkg/server/store.go:576-627 | bytes are found exactly when hot, on disk or compressible, are the derived ones, and are on disk or hot afterwards |
| ServingLaws.GeneratedLaws | pkg/server/store.go:455-500 | a generation that ended is under way no more; with both binaries there its file is, and is hot if it fits |
| Promises.MemoIsTransparent | pkg/server/manifest.go:181-183 | over any run, a memo hit equals what the signing path would build now from the artifact as it is now |
| Promises.NoUpdateIff | pkg/server/manifest.go:148-150 | with full downloads on, "no update" if and only if the device runs the target |
| Promises.AnswersNameTheArtifact | pkg/server/manifest.go:135-147 | in every reachable state every answer carries the artifact asked for, with its digest, label and size as registered now; the text of a key asks for that key, no text for the default |
| Promises.RefusesIff | pkg/server/manifest.go:135-278 | a heartbeat fails exactly when it is malformed, when no such artifact is registered, and when the target is held in no form |
| Promises.DeltasAreForDiffable | pkg/server/manifest.go:154-219 | exactly devices on a well-formed, stored binary within the budget get a delta or are told to wait for one |
| Promises.FullAtOnce | pkg/server/manifest.go:154-282 | sources that are unknown, malformed or, by their sizes in bytes, over the budget get the signed full manifest at once |
| Promises.RetryIsBackedIff | pkg/server/manifest.go:198-219 | "retry" is said, with the configured delay, only about a source that is there with both sizes within the budget, and with a generation under way if and only if the target is in the store or one was already |
| Promises.SignedOnceGenerated | pkg/server/manifest.go:198-253 | once that generation has ended well, and no publish, sweep or restart came between, the next answer is the signed delta manifest |
| Promises.ServedIsAccepted | pkg/server/manifest.go:287-321 | a signed manifest of either mode, and the bytes that its endpoint, routed, brings then or later, make a device on the reported source rebuild exactly the target |
| Promises.SignedIsServedIff | pkg/server/http_handler.go:193-290 | right after a signed answer its endpoint brings bytes, past the handlers' gates, except exactly when the answer was remembered and they have been swept meanwhile |
| Promises.AnswersAreRemembered | pkg/server/manifest.go:246-274 | a signed answer is in the memo afterwards, under the key its repetition looks up, as the most recent |
| Promises.OfferDescribesTransfer | pkg/server/manifest.go:287-342 | version, sizes, chunk count and the literal path of an offer are those of the target and transfer, source before target; the chunks are the fewest that cover it |
| ServingLaws.GetCachedLaws | pkg/server/store.go:642-682 | reads answer the derived bytes exactly when hot or on disk, and what was read and fits is hot afterwards |
| Promises.OvertakenIsHarmlessIff | pkg/server/manifest.go:324-329 | a Build that memoizes what it signed for an artifact resolved any time before leaves a wrong answer if and only if the artifact now has the same bytes under another label |
| Promises.RepublishIsInvisibleIff | pkg/server/registry.go:166-222 | a publish leaves the memo alone exactly when it repeats the bytes and label the key resolves to, and otherwise clears it |

## Left out

- HTTP and CoAP clients, handlers, middleware, admin routes, bearer auth, rate limiting: only the contract of a ranged fetch, the two download routes and their gates are kept.
- SHA-256, Ed25519, bsdiff and zstd: functions with their laws as hypotheses (`Crypto.Lawful`); that nobody else can sign is the hypothesis `Unforged`, and freedom from collisions is assumed only of the contents in play (`Represents`, `OneContent`).
- File watcher, metrics, logging, disk-space probes, key generation, YAML configuration, JSON and CBOR: persisted records are datatypes.
- Semantic-version policy: one boolean per cycle. Heartbeat fallback between transports and update reports: one answer per cycle.
- Jitter, backoff lengths and sleeps; clocks are parameters or arbitrary.
- I/O faults on the agent's own files count as crashes; unreadable markers, a link that names neither slot, and `SweepStaleTemp` are not modelled.
- Device.Step: the link is in a directory of its own. A directory that reaches the disk without an fsync only narrows what a power loss may leave and is not a step.
- Registry load, persist and the order of concurrent snapshots; republishing from a source file, which is a publish.
- Retentions.Sweeper.Sweep: directories are listed once; entries that are directories, failing stats and cancellation half-way are not modelled there (the server model does allow a sweep cut short before the hot cache is dropped).
- Flights.CachesAgree: both RAM caches are maps that may drop any entry at any time; which entries they drop is the subject of the LRU modules. Registering, sweeping and evicting are arbitrary events of the environment, and a cancelled context, an over-budget pair and a failed generator are one choice.
- Serving.Step: one event at a time; the target cache and the generation slots appear only among the concurrent requests, and write errors of the store's own files do not appear.
- Stores.Store.GenerateAndCacheDelta: runs to a good end without waiting for a slot and without the target cache; slots, target cache and failing generators are among the concurrent requests, and a failed generation is an event of the server's runs.
- TransferCrashes.PowerLossIsHarmlessIff: bytes written again over synced ones count as unsynced, although they are the same bytes. What a power loss leaves under the output path, and entries that reach the disk without an fsync of this download, which only narrow what may come back, are not modelled.
- Manifesters.Manifester.BuildFresh: the two builders for deltas and whole binaries are one method, because they differ only in where the bytes come from, the endpoint, and what nothing found means.
