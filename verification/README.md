# Verified models of yoloAI's state machines

yoloAI runs AI agents in sandboxes and keeps, around them, a handful of small
protocols whose comments promise strong invariants. This project models those
protocols in Dafny and proves the promises, or states exactly when they hold.
`dafny verify dfyconfig.toml` checks everything.

| module | models |
|---|---|
| `CaretCodec` | the path-name encoder and decoder, over sequences of Unicode scalar values |
| `ProgressWriter` | the streaming line splitter against a batch split of the whole stream |
| `JsonDocument` | reading and writing a section of a nested JSON document |
| `DocumentHandle` | `Load`, `Update` and `Migrate` with their version gate |
| `SerialUpdates` | any interleaving of `Update`, `Migrate`, lock-free `Load` and process death |
| `AtomicWrite` | temp file, fsync, rename, directory fsync over a cache and stable storage |
| `EnvironmentRecord` | directory addressing and the migration ladder of `environment.json` |
| `BaselineCas` | compare-and-swap of baselines inside one shared record |
| `RefResolution` | short SHAs and ranges resolved against the commit list |
| `ReplaySquash` | the per-commit series against the single net diff |
| `BaselineApply` | the baseline over runs of commits and applies of every kind |
| `LockProtocol` | lock files as inodes: sorted multi-lock, retry, unlink, sweep, crash |
| `BlockingLock` | opening a lock file and taking its flock as two steps |
| `StartupGate` | first-run initialisation that may die after any change to the disk |
| `InjectorHost` | the injector's spawn, respawn, stop and the sweep for leaked ones |
| `Prune` | what happens to sandbox directories whose metadata does not load |
| `ResearchHarness` | the experiment harness and its verdict |
| `Runs` | runs of a step function, and what lasts through them |

Machines are total: a step that is not enabled leaves the state as it is, so a run
is any sequence of steps. Where the source changes things in place the model has a
class or a method with loops, tied by its postcondition to a function on values, and
the theorems are about runs of that function.

What the proofs show the code does not do, although a comment or the design suggests
otherwise. Each has a concrete witness and an exact condition:

* A JSON `null` on the way to a section is accepted by `Load` and makes `Update` panic
  (`NullIntermediateWitness`; exactly when: `NullIntermediatePanics`,
  `StoresIffTraversable`).
* A child handle named `version` makes its parent's version unreadable
  (`ChildNamedVersionHidesVersion`; `UpdateKeepsVersionIff`, over runs
  `VersionsNeverDecreaseIff`).
* A write whose directory fsync fails has replaced the document although it reports an
  error, and a crash may bring the old one back (`FailedWriteMayLandAndVanish`;
  `AtomicWriteJson` says which failures leave which document).
* The environment ladder drops legacy directories that have no legacy workdir, or that
  stand beside a non-empty new list (`LegacyDirectoryIsDropped`; `LadderKeepsDirsIff`).
* A commit made while a full apply runs is passed over for good
  (`CommitMeanwhileIsSkipped`; `FullAdvanceSafeIff`, over runs `BaselineSafeIff`).
* A commit landed by an earlier selective apply does not count towards a later one's
  prefix (`SecondFirstStopsShort`; `SelectiveStopsAtUnlandedIff`, over runs
  `SelectiveStopsInRunsIff`).
* Series and squash leave different baselines when the commits cancel out
  (`RevertedWorkSplitsBaselines`; `BaselinesAgreeIff`).
* A name given twice to the multi-lock blocks on itself (`RepeatedNameWitness`; that
  `AcquireMultiLock` needs distinct names is part of its iff).
* Unlinking a lock file while another caller has it open and waits lets two callers in,
  although the comment on `RemoveLockFile` calls it safe (`UnlinkWhileAnotherWaits`;
  `ExclusionLostIff`).
* The gate cannot finish a build that died at four particular disk changes, although
  the sentinel was in place for three of them (`EmptyCliDirectoryWedges`,
  `LeftoverIsListed`; `InterruptedRecoverableIff`).
* The injector's record is written in place: a torn write loses the port and can leave
  an injector behind (`TornRecordLosesPortWitness`; `PortStableIff`, `NothingLeaksIff`),
  and a sweep that cannot list the sandboxes kills the injectors it should keep
  (`UnlistedSweepKillsRecorded`; `ReapSparesIff`).
* Prune's probe sees neither loose files nor unlistable directories under `work/`
  (`LooseFileIsDeleted`; `DeleteIsHarmlessIff`).
* The harness's baseline index can lag behind the log (`StaleIndexStillDecides`;
  `IndexAgreesWithLogIff`), and a sample may precede its baseline (`SampleMayPrecedeBaseline`;
  `StepKeepsOrderIff`, over runs `RunOrderedIff`, for an expectation `OppositeFirstIff`).

## Model

| member | source | states |
|---|---|---|
| `CaretCodec.ParseHex` | internal/config/encode.go:172-188 | the number the digits denote, an error exactly when one is not a hex digit, and a value that fits the digits given |
| `CaretCodec.EncodePath` | internal/config/encode.go:80-101 | the loop builds the encoding the round-trip and safety lemmas are about |
| `CaretCodec.ReadCaret` | internal/config/encode.go:108-165 | one turn of the loop: plain character, shortcut, width modifier, input too short in bytes, bad digit or invalid code point |
| `CaretCodec.DecodePath` | internal/config/encode.go:104-169 | the loop computes the decoding function, errors included |
| `CaretCodec.HexRoundTrip` | internal/config/encode.go:61-77 | every number below 16^width is read back from its hex digits |
| `CaretCodec.RuneDecodes` | internal/config/encode.go:61-77 | the hex form of any scalar value, whatever follows it, decodes to that value and consumes exactly the form |
| `CaretCodec.RoundTrip` | internal/config/encode.go:80-169 | for every sequence of scalar values decoding the encoding succeeds and returns it |
| `CaretCodec.EncodeInjective` | internal/config/encode.go:80-101 | two host paths never share a directory name |
| `CaretCodec.EncodedNameIsSafe` | internal/config/encode.go:14-101 | only safe ASCII and carets, no slash, no trailing dot, never "." or "..", empty only for the empty path |
| `CaretCodec.CaretFormIsShortest` | internal/config/encode.go:61-165 | no caret sequence the decoder accepts for a character is shorter than the caret form used for it |
| `CaretCodec.CopiedExactly` | internal/config/encode.go:80-101 | letters, digits, six marks and dots that neither end the path nor stand before a slash are copied, and exactly those; every other character takes its caret form |
| `CaretCodec.ShortcutTable` | internal/config/encode.go:36-43 | the twenty-two characters with a shortcut and their codes |
| `CaretCodec.HexElsewhere` | internal/config/encode.go:93-98 | every other caret form is hexadecimal |
| `CaretCodec.RuneForm` | internal/config/encode.go:61-77 | width letter by size, as few upper-case digits as hold the code point, which they denote |
| `CaretCodec.ShortestName` | internal/config/encode.go:80-101 | no name of safe ASCII and carets that decodes to a path, and lets no dot end a component of it, is shorter than the encoder's |
| `CaretCodec.EncodedHoldsDots` | internal/config/encode.go:83-89 | the encoder's name lets no dot end a component |
| `CaretCodec.ShortcutsRead` | internal/config/encode.go:47-58 | the decoder reads every code, letters in either case |
| `CaretCodec.WidthLetters` | internal/config/encode.go:127-142 | the width letters, in either case, and how many digits they announce |
| `CaretCodec.HexIgnoresCase` | internal/config/encode.go:172-188 | a number reads the same in any mixture of cases |
| `CaretCodec.DecoderAnswers` | internal/config/encode.go:104-157 | everything but a caret is copied; a caret cut short, digits missing and digits that are none are told apart |
| `CaretCodec.DecoderRefusesCodepoint` | internal/config/encode.go:159-163 | a code point is refused exactly when it is a surrogate or beyond U+10FFFF |
| `ProgressWriter.LineWriter.Write` | feedback/progress.go:132-144 | appends the non-blank segments that the chunk completes and keeps the open tail |
| `ProgressWriter.LineWriter.Flush` | feedback/progress.go:148-156 | emits the tail, if not blank, and empties the buffer |
| `ProgressWriter.LineWriter.EmitLine` | feedback/progress.go:160-165 | one record for a line that is not all spaces, none otherwise |
| `ProgressWriter.SplitIsUnique` | feedback/progress.go:120-144 | the reference split is the only way to cut a stream into terminator-free segments and an open tail |
| `ProgressWriter.RunIsBatchSplit` | feedback/progress.go:132-165 | after any calls the records are the non-blank segments of the whole stream and the buffer its open tail |
| `ProgressWriter.ChunkingIndependence` | feedback/progress.go:120-144 | call sequences that deliver one stream leave the same records and buffer, wherever chunks were cut |
| `ProgressWriter.CrlfIsInvisible` | feedback/progress.go:120-144 | rewriting every LF as CR LF changes neither records nor buffer |
| `ProgressWriter.BlankExactly` | feedback/progress.go:160-163 | a line is skipped exactly when it is the UTF-8 text of Unicode white space |
| `ProgressWriter.TerminatorsAre` | feedback/progress.go:135-141 | line feed and carriage return end a line and no other byte does |
| `ProgressWriter.RecordsCarryLines` | feedback/progress.go:164-165 | each record carries its line unchanged under the writer's event |
| `JsonDocument.ExtractSection` | store/handle.go:201-240 | the section and version at a sub-path, absent and malformed intermediates told apart |
| `JsonDocument.SetNestedInPlace` | store/handle.go:330-353 | the map after the write in place, untouched on failure, a panic exactly on a nil map |
| `JsonDocument.StoresIffTraversable` | store/handle.go:330-353 | the write goes through exactly when each intermediate key is missing or an object, and panics exactly when a null blocks the way |
| `JsonDocument.PutThenGet` | store/handle.go:201-226 | what was written at a path is read back there and at every path below it |
| `JsonDocument.PutFrames` | store/handle.go:311-353 | sections at paths neither above nor below the written one are unchanged |
| `JsonDocument.PutInsideEnclosing` | store/handle.go:311-353 | an enclosing section changes by that write alone |
| `JsonDocument.GetThenPut` | store/handle.go:311-353 | writing back the section found leaves the document as it was |
| `JsonDocument.PutsCommute` | store/handle.go:311-353 | writes at two paths apart from each other commute |
| `JsonDocument.LastPutWins` | store/handle.go:311-353 | a second write at a path makes the first one invisible |
| `DocumentHandle.StoredDocument.Load` | store/handle.go:254-284 | absent, refused by version, undecodable or found, without changing the file |
| `DocumentHandle.StoredDocument.Update` | store/handle.go:384-435 | file and error after read, gate, mutation, stamp and write, whatever step fails |
| `DocumentHandle.StoredDocument.Migrate` | store/handle.go:440-500 | file and error after migration; nothing written when absent, current or newer |
| `DocumentHandle.StoredDocument.WriteSection` | store/handle.go:311-326 | the whole document with the one section replaced, or the error with the file untouched |
| `DocumentHandle.WriteAndVersions` | store/handle.go:288-353 | what writing a stamped section does to the version of any other section |
| `DocumentHandle.UpdateKeepsVersionIff` | store/handle.go:384-435 | an update keeps a section's version readable and not lower exactly when it neither passes through its version key nor replaces it from above with less |
| `DocumentHandle.MigrationKeepsVersionIff` | store/handle.go:440-500 | the same for a migration |
| `DocumentHandle.VersionsNeverDecreaseIff` | store/handle.go:243-251 | over every run of updates and migrations with any failures a section's version is never lost or lowered exactly when every write keeps it |
| `DocumentHandle.VersionsNeverDecrease` | store/handle.go:243-251 | in particular when no operation is at an enclosing path or through the version key |
| `DocumentHandle.RefusalChangesNothing` | store/handle.go:384-435 | an error means an unchanged file, except a failed directory fsync |
| `DocumentHandle.MigrateThenLoad` | store/handle.go:440-500 | after a successful migration `Load` accepts the record and migrating again is a no-op |
| `DocumentHandle.UpdateThenLoad` | store/handle.go:254-435 | an update is read back stamped, and sections apart from it load as before |
| `DocumentHandle.NullIntermediatePanics` | store/handle.go:330-353 | once loaded and mutated, the only obstacle to the write is a null intermediate, and it panics |
| `DocumentHandle.NullIntermediateWitness` | store/handle.go:330-353 | a document with a null at "a" loads section a/b as absent and panics when it is updated |
| `DocumentHandle.ChildNamedVersionHidesVersion` | store/handle.go:504-514 | a sub-handle named "version" makes the parent's version unreadable |
| `DocumentHandle.LoadGate` | store/handle.go:243-284 | a section above the schema is too new, below it needs migration, and loads exactly at it |
| `DocumentHandle.LoadAbsentIff` | store/handle.go:183-226 | when nothing is found, and when the file cannot be read |
| `DocumentHandle.LoadDecodes` | store/handle.go:278-284 | a section its record does not decode is an error |
| `DocumentHandle.VersionOfSection` | store/handle.go:229-240 | the version key's integer, 0 when missing or null, an error otherwise or beyond 64 bits |
| `DocumentHandle.UpdateGate` | store/handle.go:384-435 | an update of a section at another version reports why and leaves the file |
| `DocumentHandle.UpdateWrites` | store/handle.go:288-308 | what is written is the mutated record field by field, with the schema as its version |
| `DocumentHandle.UpdateOutcome` | store/handle.go:384-435 | file and error for a refused mutation and for each end of the write |
| `DocumentHandle.MigrateGate` | store/handle.go:440-500 | current is left alone, newer refused, undecodable and refused migrations write nothing, older is replaced by the migrated record |
| `DocumentHandle.MigrateAbsent` | store/handle.go:440-500 | migrating an absent section does nothing |
| `SerialUpdates.Serialisable` | store/handle.go:254-500 | in every interleaving of updates, migrations, loads and deaths the document is the finished operations in lock order, each reported what it would alone, each `Load` saw a completed write and none went back |
| `SerialUpdates.OneWriter` | store/handle.go:384-392 | at most one process is between taking and dropping the lock |
| `SerialUpdates.VersionsInLockOrderIff` | store/handle.go:243-251 | in every interleaving a section's version is never lost or lowered in lock order exactly when every write keeps it |
| `SerialUpdates.VersionsInInterleavings` | store/handle.go:254-284 | then one lock-free `Load` after the other sees it not decrease |
| `SerialUpdates.SuccessSurvives` | store/handle.go:384-435 | a successful update is still there when only sections apart from it were updated or migrated later |
| `SerialUpdates.OperationAlone` | store/handle.go:384-435 | from a free lock an undisturbed operation takes it and leaves the file and report of carrying it out alone |
| `SerialUpdates.LockExcludes` | store/handle.go:384-392 | nobody takes a lock that is held |
| `SerialUpdates.LoadSees` | store/handle.go:254-284 | a load sees the file as it is, lock or no lock |
| `SerialUpdates.KillFrees` | store/handle.go:384-392 | a dead process gives up the lock and changes no file |
| `AtomicWrite.Storage.AtomicWriteJson` | store/handle.go:130-179 | success is visible and survives a crash; each failure leaves the old document except a failing directory fsync, which leaves the new |
| `AtomicWrite.CrashSafe` | store/handle.go:128-179 | after any run with crashes anywhere a reader finds one complete document, the last successful write or one attempted after it, and finds none only before the first success |
| `AtomicWrite.NeverMissingAgain` | store/handle.go:128-179 | once a document is on stable storage, no continuation of the run makes it missing, to a reader or after a crash |
| `AtomicWrite.FailureLeavesOldOrNew` | store/handle.go:130-179 | a failure at any point leaves what readers saw |
| `AtomicWrite.FailedWriteMayLandAndVanish` | store/handle.go:166-176 | a write that reports failure can be read, and a crash can take it back |
| `AtomicWrite.UnsyncedRenameMayPersist` | store/handle.go:160-176 | without the directory fsync a rename may survive a crash or not |
| `AtomicWrite.UnsyncedBytesMayBeLost` | store/handle.go:145-156 | without the file fsync the bytes may survive a crash or not |
| `EnvironmentRecord.Dir` | store/environment.go:150-160 | the first entry for "", else the first with that path, none only when there is no such entry |
| `EnvironmentRecord.DirIndexExactly` | store/environment.go:150-160 | the index is that position and no other |
| `EnvironmentRecord.AddressingIgnoresBaselines` | store/environment.go:150-160 | moving baselines never changes which entry a path addresses |
| `EnvironmentRecord.EnvironmentObject.Migrate` | store/environment.go:166-214 | the record after the ladder; a newer one is refused unchanged |
| `EnvironmentRecord.LadderIdempotent` | store/environment.go:166-214 | a second climb changes nothing and the version never falls |
| `EnvironmentRecord.LadderKeepsDirsIff` | store/environment.go:184-210 | every directory survives, workdir first, exactly when the record is past the collapse, has a legacy workdir and no new list, or has no legacy entry |
| `EnvironmentRecord.LegacyDirectoryIsDropped` | store/environment.go:204-210 | a legacy auxiliary directory without a legacy workdir is lost |
| `EnvironmentRecord.LadderBackfills` | store/environment.go:166-214 | each field after the climb: docker, yoloai-base and the backend's host file system for an unversioned record that lacks them, everything else kept |
| `BaselineCas.LoadedRecord.CommitBaseline` | copyflow/baseline.go:93-178 | the record saved and the refusal returned, mode and compare checks included |
| `BaselineCas.MovesFormChains` | copyflow/baseline.go:93-157 | in every interleaving the moves of each directory form a chain ending at its baseline, compared moves start from what was expected, and moves on other directories survive |
| `BaselineCas.CommitIsCompareAndSwap` | copyflow/baseline.go:139-157 | success only from the expected baseline; a conflict writes nothing |
| `BaselineCas.ConsecutiveMovesMeet` | copyflow/baseline.go:139-157 | the next move of a directory starts where the previous one ended |
| `BaselineCas.ComparedMoveIff` | copyflow/baseline.go:93-192 | a compared move goes through exactly for a copy, read-only or unset directory at the expected baseline, with a target and a save, and changes that baseline alone |
| `BaselineCas.ComparedMoveRefusals` | copyflow/baseline.go:108-150 | wrong mode, conflict with both values, and unresolved target, in that order |
| `BaselineCas.ApplyMoveIff` | copyflow/baseline.go:163-178 | the apply path moves any directory but a live one and passes over a missing or live one |
| `BaselineCas.MoverAlone` | copyflow/baseline.go:93-157 | from a free lock an undisturbed mover loads, commits and releases |
| `BaselineCas.KillFrees` | copyflow/baseline.go:99-103 | a dead mover gives up the lock and changes no record |
| `RefResolution.BuildShaIndex` | copyflow/apply.go:500-506 | the index is a bijection between SHAs and positions |
| `RefResolution.ResolveShortRef` | copyflow/apply.go:510-524 | succeeds exactly when one commit matches the prefix, and returns it; absent means none matches, ambiguous that two do |
| `RefResolution.SelectRefRange` | copyflow/apply.go:453-474 | marks exactly the commits after the start up to the end; fails when an end is unresolved or reversed |
| `RefResolution.SelectRefs` | copyflow/apply.go:528-545 | fails when some ref fails, else marks exactly the selected commits |
| `RefResolution.ResolveRefs` | copyflow/apply.go:478-496 | succeeds exactly when every ref resolves, and returns the chosen commits |
| `RefResolution.ResolutionIsExact` | copyflow/apply.go:478-545 | the result is in history order, free of duplicates, and exactly the commits some ref names or has in range |
| `RefResolution.OrderAndRepetitionIrrelevant` | copyflow/apply.go:528-545 | success and result depend on the set of refs alone |
| `RefResolution.MatchesExactly` | copyflow/apply.go:510-518 | a ref matches the SHAs it begins, letter case aside |
| `RefResolution.CutExactly` | copyflow/apply.go:528-534 | a ref is a range around its first two dots and a single one without |
| `RefResolution.SingleResolves` | copyflow/apply.go:535-541 | a single ref one commit matches resolves to that commit alone |
| `RefResolution.RangeResolves` | copyflow/apply.go:453-474 | start..end resolves exactly when the start is not after the end, to the commits after the start up to the end |
| `ReplaySquash.GenerateFormatPatch` | copyflow/apply.go:620-670 | one patch per commit beyond the baseline, oldest first, empty ones skipped |
| `ReplaySquash.ApplyFormatPatch` | internal/git/ops.go:217-289 | the patches applied in order, or nothing when one does not fit |
| `ReplaySquash.ApplySeries` | copyflow/apply.go:178-227 | host tree and baseline after a series without refs or paths; a dry run changes neither |
| `ReplaySquash.ApplyAll` | copyflow/apply.go:69-117 | host tree and baseline after a net diff; an empty one advances nothing; a dry run fails exactly when the real one would |
| `ReplaySquash.ReplayEqualsSquash` | copyflow/apply.go:69-200 | both give the same host tree, also when the host has edits of its own in untouched paths, and HEAD's tree from a host at the baseline |
| `ReplaySquash.BaselinesAgreeIff` | copyflow/apply.go:69-227 | both advance to the same baseline exactly when the commits do not cancel out |
| `ReplaySquash.RevertedWorkSplitsBaselines` | copyflow/apply.go:69-227 | a commit and its revert: series at HEAD, squash at the old baseline |
| `ReplaySquash.SeriesSucceedsIff` | internal/git/ops.go:256-275 | a series applies exactly when the host holds the baseline's content in every path a commit touches |
| `ReplaySquash.SquashSucceedsIff` | copyflow/apply.go:97-107 | a net diff applies exactly when the host holds it in every path that differs, and changes those paths alone |
| `ReplaySquash.SquashAcceptsMore` | copyflow/apply.go:69-200 | what the series accepts the net diff accepts |
| `ReplaySquash.HostEditIsKept` | copyflow/apply.go:97-99 | a host edit in a touched path is refused by both, never overwritten |
| `BaselineApply.ContiguousPrefixEnd` | internal/git/ops.go:397-407 | the last index of the longest applied prefix, -1 when empty |
| `BaselineApply.BaselineSafe` | copyflow/apply.go:147-302 | in every run without a commit inside a full apply, every commit at or before the baseline has landed |
| `BaselineApply.BaselineSafeIff` | copyflow/apply.go:147-302 | in every run whatsoever every commit at or before the baseline has landed at every moment exactly when no full apply advances past a non-empty commit made while it ran |
| `BaselineApply.BaselineNeverBack` | copyflow/apply.go:595-614 | in every run the baseline never moves back |
| `BaselineApply.FullAdvanceSafeIff` | copyflow/apply.go:206-227 | a full advance is safe exactly when every commit made since its patches were written is empty |
| `BaselineApply.SelectiveAdvance` | copyflow/apply.go:286-302 | it stops exactly before the first commit not asked for, whatever the agent commits meanwhile |
| `BaselineApply.CommitDuringFullApplyIsSkipped` | copyflow/apply.go:605-614 | one commit during a full apply ends at or before the baseline without having landed |
| `BaselineApply.SelectiveStopsAtUnlandedIff` | copyflow/apply.go:283-302 | a selective advance ends exactly before the first commit that has not landed iff no landed commit it was not asked for stands right after a stretch of those it was |
| `BaselineApply.SelectiveStopsInRunsIff` | copyflow/apply.go:283-302 | the same at every moment of every undisturbed run |
| `BaselineApply.EarlierSelectionNotCounted` | copyflow/apply.go:283-302 | a commit landed by an earlier selection does not extend a later prefix |
| `BaselineApply.SecondFirstStopsShort` | copyflow/apply.go:283-302 | from the first state: two commits, the second applied and then the first, and the baseline stops before the landed second |
| `BaselineApply.CommitMeanwhileIsSkipped` | copyflow/apply.go:605-614 | from the first state: a run whose baseline ends at a commit that never landed |
| `BaselineApply.DryRunsInvisible` | copyflow/apply.go:178-180 | taking the dry runs out of any sequence of steps leads to the same state |
| `BaselineApply.DryRunChangesNothing` | copyflow/apply.go:100-102 | a dry run leaves everything as it was |
| `BaselineApply.FullSeriesLands` | copyflow/apply.go:147-227 | an undisturbed full series lands every commit and moves the baseline to HEAD, or does nothing when all patches are empty |
| `BaselineApply.SquashLands` | copyflow/apply.go:69-117 | an undisturbed net diff does so unless it is empty |
| `BaselineApply.SelectionLands` | copyflow/apply.go:263-302 | an undisturbed selection lands exactly its commits and advances over those it has in front |
| `BaselineApply.FilteredCountsNothing` | copyflow/apply.go:206-213 | an apply with a path filter lands nothing for good and moves no baseline |
| `BaselineApply.FailureLandsNothing` | copyflow/apply.go:190-200 | neither does a failing step or a death |
| `BaselineApply.NothingToApply` | copyflow/apply.go:170-176 | nothing beyond the baseline, or a selection that is not, returns at once |
| `BaselineApply.CommitAppends` | copyflow/apply.go:376-409 | an agent's commit is added to the history and changes nothing else |
| `LockProtocol.MutualExclusion` | store/lock_unix.go:103-145 | in every reachable state at most one process per name is between its acquire and its unlink or release |
| `LockProtocol.NoWaitCycle` | store/lock_unix.go:70-101 | no walk along the wait-for relation of processes locking distinct names returns to its start |
| `LockProtocol.RepeatedNameWaitsForItself` | store/lock_unix.go:78-98 | a repeated name makes its process wait for itself |
| `LockProtocol.RepeatedNameWitness` | store/lock_unix.go:78-98 | one process, one name twice, and it waits for itself after its first lock |
| `LockProtocol.StepsTouchOwnLocksOnly` | store/lock_unix.go:78-145 | a step changes no flock and no state of any other process |
| `LockProtocol.IdleHoldsNothing` | store/lock_unix.go:83-96 | a process whose acquire failed, that released or crashed, holds nothing |
| `LockProtocol.LockDirectory.AcquireWithRetry` | store/lock_unix.go:106-145 | within its budget it takes exactly the wanted lock if it is free; otherwise only budget is spent |
| `LockProtocol.LockDirectory.ReleaseAll` | store/lock_unix.go:84-88 | every lock of the caller is dropped, no file removed, nobody else touched |
| `LockProtocol.LockDirectory.AcquireMultiLock` | store/lock_unix.go:78-101 | succeeds exactly when the names are distinct and free, then holds just those; a failure leaves all flocks as before |
| `LockProtocol.LockDirectory.SweepOne` | store/lock_unix.go:240-267 | removes the file exactly when nobody holds its lock and the removal works, and leaves all flocks as they were |
| `LockProtocol.LockDirectory.SweepStaleLocks` | store/lock_unix.go:218-270 | removes exactly the unheld, removable lock files without a sandbox; a dry run reports the unheld ones and removes nothing |
| `LockProtocol.CrashFrees` | store/lock_unix.go:153-158 | a dead process holds nothing and its files stay |
| `LockProtocol.AbortGivesBack` | store/lock_unix.go:92-96 | an error other than contention makes the acquirer give back what it has |
| `LockProtocol.TriesAre` | store/lock_unix.go:106-132 | thirty tries for each name, one spent by each refusal |
| `LockProtocol.UnlinkRemoves` | store/lock_unix.go:189-203 | the holder's unlink takes the file off its path and leaves the flock |
| `BlockingLock.NoneStaleExcludes` | internal/locking/flock.go:46-56 | while no caller has open or holds a file somebody else unlinked, one caller at most is in charge of each name |
| `BlockingLock.StepStaleIff` | internal/locking/flock.go:104-113 | a caller gets into that state exactly by an unlink between its open and its flock |
| `BlockingLock.NeverStaleIff` | internal/locking/flock.go:46-113 | at every moment of a run nobody is in that state exactly when no unlink of it falls so |
| `BlockingLock.ExclusionHolds` | internal/locking/flock.go:46-100 | in every run without such an unlink one caller at most is in charge of each name |
| `BlockingLock.StaleBreaks` | store/lock_unix.go:189-203 | from any state with such a caller, steps without a further unlink put two callers in charge of one name |
| `BlockingLock.ExclusionLostIff` | store/lock_unix.go:189-203 | a step opens the way to two callers in charge exactly when it is an unlink between another's open and flock |
| `BlockingLock.UnlinkWhileAnotherWaits` | store/lock_unix.go:189-203 | a three-step run after which the holder's unlink is one |
| `BlockingLock.FlockBlocks` | internal/locking/flock.go:51-56 | a caller blocks while another has the flock and is in charge once it does not |
| `BlockingLock.ReleaseFrees` | internal/locking/flock.go:117-122 | a release gives up the flock and nothing else |
| `BlockingLock.CrashFrees` | internal/locking/flock.go:72-79 | a caller that dies or gives up closes its file and drops its flock |
| `StartupGate.DataDirectory.DirAbsentOrEmpty` | internal/cli/gate.go:223-237 | true exactly when TOP is missing or its listing holds nothing but the sentinel; a failed listing is an error |
| `StartupGate.DataDirectory.InitFreshDataDir` | internal/cli/gate.go:76-95 | the disk after any number of the build's changes |
| `StartupGate.GateExempt` | internal/cli/gate.go:195-206 | exempt exactly when the command or an ancestor is a completion command or carries the annotation |
| `StartupGate.DataDirectory.CheckDataDirStatus` | internal/cli/gate.go:99-157 | the decision tree over both realms and the sentinel, with the disk it leaves |
| `StartupGate.DataDirectory.RunMigrationGate` | internal/cli/gate.go:46-60 | disk and outcome of a gate run, from its command and listing, that dies after any number of changes |
| `StartupGate.GateSucceedsIff` | internal/cli/gate.go:46-157 | an uninterrupted run succeeds exactly on absent, fully stamped or resumable directories, then both realms are current, the sentinel gone, the user's files unchanged; otherwise nothing changes |
| `StartupGate.GateRecovers` | internal/cli/gate.go:62-95 | after any runs interrupted between the build's calls one uninterrupted run completes |
| `StartupGate.InterruptedRecoverableIff` | internal/cli/gate.go:62-95 | a run cut after any change leaves a recoverable directory except at exactly the listed points |
| `StartupGate.WedgeIsForever` | internal/cli/gate.go:116-134 | from such a point every later gate run refuses and changes nothing |
| `StartupGate.EmptyCliDirectoryWedges` | internal/cli/cliutil/clischema.go:56-61 | a death between creating and stamping the first realm is one |
| `StartupGate.LeftoverIsListed` | internal/cli/cliutil/topinit.go:26-28 | a death inside writing the sentinel leaves its temporary file, which the next run lists and refuses |
| `StartupGate.NeverWritesUnconverted` | internal/cli/gate.go:142-148 | with a realm to migrate, newer or unreadable, every run of gates leaves the disk as it was |
| `StartupGate.NeverWritesUnmarked` | internal/cli/gate.go:121-141 | a populated directory without the sentinel is never written, in any run |
| `StartupGate.StatusExactly` | internal/config/schema.go:118-151 | the status or error of a realm for everything that can be on disk |
| `StartupGate.RefusalsAre` | internal/cli/gate.go:99-157 | which error an older, newer, missing or foreign directory meets with |
| `StartupGate.ExemptExactly` | internal/cli/gate.go:195-206 | the commands that pass the gate |
| `InjectorHost.SidecarHost.Ensure` | internal/broker/host.go:116-125 | reuse, respawn on the recorded port, or spawn on an ephemeral one |
| `InjectorHost.SidecarHost.Spawn` | internal/broker/host.go:153-226 | processes and record after every way a spawn can end |
| `InjectorHost.SidecarHost.Stop` | internal/broker/host.go:140-149 | the injector killed and the record removed; a torn record is an error and nothing changes |
| `InjectorHost.SidecarHost.LiveInjectorPids` | system.go:1010-1029 | the pids recorded by loadable sandboxes, none when the listing fails |
| `InjectorHost.SidecarHost.ReapOrphanInjectors` | internal/broker/reap.go:41-57 | reports exactly the running injectors outside the keep set and kills them unless dry |
| `InjectorHost.StepPinnedIff` | internal/broker/host.go:116-149 | a step keeps the recorded port exactly when it neither tears the record nor stops or deletes the sandbox |
| `InjectorHost.PortStableIff` | internal/broker/host.go:116-149 | the record keeps its port at every moment of a run exactly when no operation tears it, stops the injector or deletes the sandbox |
| `InjectorHost.PortStable` | internal/broker/host.go:121-137 | then every successful `Ensure`, at any later moment, returns that port |
| `InjectorHost.TornRecordLosesPort` | internal/broker/host.go:299-326 | after a torn write the next injector takes any port, `Stop` does nothing, and a surviving child is unrecorded |
| `InjectorHost.TornRecordLosesPortWitness` | internal/broker/host.go:314-326 | a dead injector, a CLI that dies saving its successor: the port is lost and the successor runs on |
| `InjectorHost.EnsureAgain` | internal/broker/host.go:116-125 | a second `Ensure` returns the same address and changes nothing |
| `InjectorHost.StepLeaksIff` | internal/broker/host.go:185-217 | a step leaves an unrecorded running injector exactly when the CLI dies between start and saved record or a live sandbox is deleted |
| `InjectorHost.FailedSpawnLeavesNothing` | internal/broker/host.go:185-217 | a spawn that fails while the CLI lives leaves no new process |
| `InjectorHost.NothingLeaksIff` | internal/broker/host.go:116-226 | a process is never a running injector without a record, at any moment of a run, exactly when no step of it leaks that process |
| `InjectorHost.StopIsLocal` | internal/broker/host.go:140-149 | in every run stopping one sandbox leaves the others' injectors as they were |
| `InjectorHost.ReapIsExact` | system.go:992-1029 | after a sweep exactly the injectors recorded by loadable sandboxes run on |
| `InjectorHost.ReapSparesIff` | system.go:1010-1015 | no such injector is killed exactly when the run was dry, could not enumerate, could list the sandboxes, or there was none |
| `InjectorHost.UnlistedSweepKillsRecorded` | system.go:1010-1015 | a sweep that cannot list the sandboxes kills the one recorded injector |
| `InjectorHost.EnsureStarts` | internal/broker/host.go:116-226 | address, process and record of a first, a repeated and a respawning `Ensure` |
| `InjectorHost.EnsureReports` | internal/broker/host.go:185-217 | how each failing spawn is reported, and that the record stays where it must |
| `InjectorHost.StopKills` | internal/broker/host.go:140-149 | the recorded injector is killed and forgotten; without a readable record nothing happens |
| `InjectorHost.ReapOnlyKills` | internal/broker/reap.go:41-57 | a sweep changes which injectors run and nothing else, a dry one nothing at all |
| `Prune.ProbeWorkData` | internal/orchestrator/status/status.go:130-168 | the strongest signal among the payloads, whatever their order |
| `Prune.ClassifyBroken` | system.go:1113-1133 | the disposition from the metadata failure and the probe |
| `Prune.ClassifySandboxes` | system.go:1067-1088 | the instances of loadable sandboxes, and each broken one with its disposition, in listing order |
| `Prune.KnownExactly` | system.go:1101-1107 | an instance is known exactly when a loadable sandbox may own it, by its present or its legacy name |
| `Prune.Pruner.QuarantineSandbox` | store/paths.go:352-365 | the directory under a trash name that was free, or an error and no change |
| `Prune.Pruner.ApplyBrokenClassifications` | system.go:838-874 | disk and report after every disposition, dry or not |
| `Prune.PrunePreservesData` | system.go:1056-1133 | each directory is in place unchanged, in trash unchanged under a previously free name, or had no metadata and no visible work data; loadable and data-bearing ones stay; trash is kept |
| `Prune.DryRunForetells` | system.go:838-874 | a dry run gives the real run's refusals, removals with failures, and candidates for the trash |
| `Prune.TrashGainsQuarantined` | store/paths.go:343-365 | after a prune the trash holds what it held and exactly the quarantined directories, each under a name of its own that was free |
| `Prune.TrashIsForever` | store/paths.go:343-365 | over any number of prunes nothing in the trash changes |
| `Prune.DeleteIsHarmlessIff` | internal/orchestrator/status/status.go:130-168 | a deleted directory had no work data exactly when none was out of the probe's sight |
| `Prune.LooseFileIsDeleted` | internal/orchestrator/status/status.go:137-140 | a file directly under the work directory goes with it |
| `Prune.Disposition` | system.go:1056-1133 | the whole matrix: refuse, delete or quarantine from the metadata and what each work entry shows |
| `Prune.QuarantineGoes` | store/paths.go:352-365 | the plain name when free, else the name with the clock's digits, else nothing moves |
| `Prune.DeletionRemoves` | system.go:845-858 | a deletion removes the directory and nothing else |
| `Prune.InstancesAre` | system.go:1101-1107 | the present instance name, and the legacy one for a record without a principal |
| `ResearchHarness.Harness.Probe` | scripts/research_harness_v2.py:289-300 | refused exactly when the name has a baseline |
| `ResearchHarness.Harness.TakeBaseline` | scripts/research_harness_v2.py:136-169 | logged before it is judged; indexed only when it agrees with `want` |
| `ResearchHarness.Harness.TakeSample` | scripts/research_harness_v2.py:171-186 | logs booleans and refuses anything else |
| `ResearchHarness.Harness.ExpectThat` | scripts/research_harness_v2.py:318-380 | accepted exactly for a recorded boolean with an opposite baseline or a waiver |
| `ResearchHarness.Harness.Report` | scripts/research_harness_v2.py:425-504 | True exactly when it renders and every live expectation holds; raises exactly when it does not render |
| `ResearchHarness.PassedReportIsSound` | scripts/research_harness_v2.py:318-504 | in every run a passing report implies stated bounds, a control, truthy controls outside voided arms and, for each live expectation, truth of a recorded measurement with, unless waived, an opposite baseline in the log |
| `ResearchHarness.LogIsAppendOnly` | scripts/research_harness_v2.py:136-186 | later calls never change or drop what was recorded |
| `ResearchHarness.StepUpToDateIff` | scripts/research_harness_v2.py:160-168 | the index stays at the latest logged baseline exactly unless a call disagrees with both `want` and the index |
| `ResearchHarness.IndexAgreesWithLogIff` | scripts/research_harness_v2.py:136-169 | index and log agree at every moment of a run exactly when it has no such call |
| `ResearchHarness.StaleIndexStillDecides` | scripts/research_harness_v2.py:160-168 | a report can pass on a baseline the log has superseded |
| `ResearchHarness.StepKeepsOrderIff` | scripts/research_harness_v2.py:136-186 | a call keeps every sample after a baseline with the indexed answer exactly unless it samples an unbaselined probe or moves the index to an answer some sample has no baseline of before it |
| `ResearchHarness.RunOrderedIff` | scripts/research_harness_v2.py:136-186 | a run has that order at every moment exactly when no call of it is one of the two |
| `ResearchHarness.OppositeFirstIff` | scripts/research_harness_v2.py:347-369 | for each unwaived claim the opposite baseline came before its sample exactly when some call logged that sample with the baseline already in the log |
| `ResearchHarness.OppositeBaselineCameFirst` | scripts/research_harness_v2.py:347-369 | it did for every claim of a run without those two calls |
| `ResearchHarness.SampleMayPrecedeBaseline` | scripts/research_harness_v2.py:354-369 | without that discipline a report can pass on a sample taken first |
| `ResearchHarness.VoidedArmPassesIff` | scripts/research_harness_v2.py:246-253 | after voiding an arm the report passes exactly when bounds are stated, there is a control, and everything that fails is of that arm |
| `ResearchHarness.VoidingTheDefaultArm` | scripts/research_harness_v2.py:246-253 | voiding the arm "" passes a rendering report whose expectations name no arm |
| `ResearchHarness.WaivedMayRestOnEqual` | scripts/research_harness_v2.py:334-346 | Python equality lets a waived claim on True rest on a logged 1 |
| `ResearchHarness.ProbesMayShareAName` | scripts/research_harness_v2.py:295-300 | two probes of one name can be declared before either is baselined |
| `ResearchHarness.PassedExactly` | scripts/research_harness_v2.py:425-504 | the verdict spelled out over the log and the expectations |
| `ResearchHarness.ControlVerdict` | scripts/research_harness_v2.py:443-449 | which control values let a report pass |
| `ResearchHarness.AcceptedExactly` | scripts/research_harness_v2.py:334-369 | when a recorded boolean is accepted, with and without a waiver |
| `ResearchHarness.ExpectationRecorded` | scripts/research_harness_v2.py:370-380 | what an accepted claim records: truth, arm and place |
| `ResearchHarness.CallsRecord` | scripts/research_harness_v2.py:136-186 | what each recording call adds, and when the index moves |
| `ResearchHarness.EqualExactly` | scripts/research_harness_v2.py:334-338 | equality of values as Python has it |

## Left out

- Backends, git subprocesses, HTTP proxying, pipes, signals and command wiring: foreign calls, present only as outcomes given as parameters.
- `Save`: it checks no version and is meant for first creation, so version claims exclude it.
- `ForceUnlock` and the recorded holder PID: best effort, written after the flock, no part of the exclusion argument.
- `SerialUpdates` takes the document lock as one mutex; `BlockingLock` says exactly when a lock file is one.
- User baseline verbs in the landed-on-host invariant: they move the baseline on purpose and appear in `BaselineCas` only.
- Uncommitted edits and path filters in `ReplaySquash`: both sides are compared on committed history.
- ReplaySquash.ApplyAll: models a patch as before and after content per path, not hunks with context, as `ApplySeries` does.
- ReplaySquash.ApplySeries: models a patch as before and after content per path, not hunks with context, because git's fuzzy matching is outside the repository.
- ReplaySquash.ApplyFormatPatch: takes git am, aborted on failure, without its three-way fallback and without the stash of the host's uncommitted changes around it.
- BaselineApply.BaselineSafe: excludes commits made between writing a full apply's patches and reading HEAD, because the code skips those; `BaselineSafeIff` gives the exact condition.
- LockProtocol.LockDirectory.AcquireWithRetry: nobody else moves between its tries; interleavings are covered by the steps of `Run`.
- LockProtocol.LockDirectory.AcquireMultiLock: nobody else moves during the call, because its iff speaks of one state; interleavings are covered by the steps of `Run`.
- LockProtocol.LockDirectory.SweepOne: nobody else moves during the call.
- LockProtocol.LockDirectory.SweepStaleLocks: nobody else moves during the call.
- DocumentHandle.VersionsNeverDecrease: excludes writes at an enclosing path or through the version key; `VersionsNeverDecreaseIff` gives the exact condition.
- InjectorHost.PortStable: excludes torn record writes, because the code then forgets the port; `PortStableIff` gives the exact condition.
- Prune.PrunePreservesData: speaks of the work data the probe sees; `DeleteIsHarmlessIff` says when that is all of it.
- RefResolution.ResolveShortRef: lower-cases ASCII letters only, which is what a SHA is made of.
- CaretCodec.DecodePath: error values do not carry the byte position printed in messages.
- Invalid UTF-8 in host paths: Go's range turns it into U+FFFD before the encoder sees it.
- PID reuse, concurrent `Ensure` calls and a launch racing the sweep: not guarded by the code; the broker's calls are sequential here.
- Prune of backend resources, temp files and the sizes reported for the trash: counting and foreign calls.
- `system migrate` and the schema migrators behind it: only the gate's side is modelled.
- The harness's rendered text, `run`, `require` and the `detail` strings: they do not enter the verdict.
- Network allow lists, agent hook merging, configuration merges and isolation tables: small list and map facts that would only add easy members.
