# Verified model of a local file library

This project models the parts of the library where correctness spans many steps, and proves what they
guarantee in every run. `dafny verify dfyconfig.toml` checks all of it.

**Atomic publication** (`Disk`, `AtomicProtocol`, `AtomicBegin`, `AtomicInvariant`, `AtomicHistory`,
`AtomicTheorems`, `AtomicReports`, `AtomicCauses`, `AtomicProgress`, `AtomicWitness`, `LocalAtomicWriter`). The Host and Rooted writers are one
transition system: owner calls, native calls that succeed or fail, and steps of any other actor are
interleaved freely. The file system keeps, for every directory entry, all values a crash may bring back, and for every
inode whether its bytes are on stable storage. One inductive invariant gives crash consistency, no
overwriting of a concurrent creator, exactly-once publication over retries, truthful reports and ownership
of the staging name. Beside what never happens stands what does: an undisturbed commit or abort succeeds exactly
under a condition its caller could check, and otherwise says what stood in its way. `LocalAtomicWriter.Writer` is the Unix program as an object with real loops and
branches; each of its states is reachable in the transition system, so all of this holds of it.

**Bounded reads** (`Stream`, `Collectors`, `ConsistentRead`). The two collectors are loops over an arbitrary
input (short reads, interruptions, errors, rewrites by others), each equal to a reference function that
meets an exact specification; the bracketed read returns one instant of the file.

**Paths and directory authority** (`Paths`, `RelativePath`, `ComponentPolicy`, `Lexical`, `Locations`,
`DirectoryChain`, `ChainTheorems`, `PathBinding`, `CombinedBinding`). Path text and its components,
normalization with parent steps, chains of retained directories under budgets, and their verification.

**Temporary resources** (`Lifecycle`, `LifecycleTheorems`). A state machine over fourteen operations with
answers of the library constrained only by its contract, and whole-run safety.

**Errors** (`FileError`, `CleanupChain`). The owned cleanup chain, appended to in place, and conservation of
the recovery owners it carries.

Where code and documentation differ, the model follows the code. Some results are about limits of the code,
each with a concrete run or input and the condition under which it does not happen:

- The installation takes whatever the staging name names. If someone rebinds it first, a commit publishes that
  file and may even report it durable (`AtomicWitness.RenamePublishesForeign`); what is published is the
  writer's own exactly if nobody rebound the name before (`AtomicReports.PublishesItsOwnExactly`).
- In the same way the writer can take away a name that is not its own: by the rename, by the unchecked unlink
  of the link fallback (`AtomicWitness.LinkFallbackRemovesForeign`), or between the identity check and the
  removal (`AtomicWitness.AbortRemovesForeign`); exactly when is `AtomicReports.ForeignUnlinkExactly`.
- A consuming commit that finds its destination missing leaves its staging entry behind, with nobody left to
  remove it (`AtomicWitness.FinalizeLeavesStaging`). On Unix it does so exactly if the failure it finalizes says
  Missing, which means that a call of the run found the destination absent (`AtomicReports.FinalizeLeavesExactly`).
- Turning an error into its source drops the owners of its cleanup errors unless the error owns something
  itself (`FileError.IntoSourceDropsOwner`, `FileError.IntoSourceConserves`).
- A read bracketed by equal stamps can be torn if a write need not advance the stamp
  (`ConsistentRead.TornWithoutAdvance`).
- The prefix collector trusts the count an input reports (`Collectors.PrefixOverrun`,
  `Collectors.PrefixBounded`).

## Model

| member | source | states |
|---|---|---|
| AtomicBegin.BeginEstablishes | src/local/local_atomic_writer.rs:126-220 | creating a writer, with any number of missing parents created first, establishes the protocol invariant |
| AtomicBegin.BeginsExactly | src/local/local_atomic_writer.rs:126-208 | a writer is created if and only if every existing parent is a directory, missing ones may be created, and the destination is absent or, unless create-new was asked for, a regular file or a link that may be replaced (a Rooted writer told not to look accepts anything); a refusal names the stage that could not be passed |
| AtomicBegin.BeginKnows | src/local/local_atomic_writer.rs:161-218 | a new writer has the options it was asked for; it takes its destination for existing, and for regular, exactly if the disk it was created on says so; create-new has found nothing there |
| AtomicInvariant.KeepsStep | src/local/local_atomic_writer.rs:277-333 | every action of owner, native calls and other actors keeps the invariant |
| AtomicInvariant.KeepsTrace | src/local/local_atomic_writer.rs:277-333 | the invariant holds in every state of every interleaving |
| AtomicTheorems.CrashNeverTears | src/local/local_atomic_writer.rs:299-333 | when the staging file must be synchronized, no crash at any point of any run, whatever others do, shows a destination with part of the staged bytes |
| AtomicTheorems.CrashConsistent | src/local/local_atomic_writer.rs:277-333 | from a settled path left alone by others, a crash at any point resolves the path to the old file, with its old bytes if they were durable and nobody wrote to it, or to a file with every byte accepted so far |
| AtomicTheorems.DurableSuccess | src/local/local_atomic_writer.rs:621-638 | after a success reported durable every crash keeps the path, through all created parents, to what was published; that is the staging file with every accepted byte if and only if the staging name was not rebound before the installation |
| AtomicTheorems.TornWithoutSync | src/local/internal/atomic_commit_state.rs:76-100 | without the synchronization an installed destination may come back with any bytes at all |
| AtomicReports.DestinationStays | src/local/internal/atomic_file_install.rs:57-145 | between any two points of a run the destination stays as it is unless the writer installs or someone else rebinds it |
| AtomicReports.NeverReplacesEntry | src/local/internal/atomic_file_install.rs:161-175 | in every interleaving a writer that was asked to create, was told not to look, or whose destination was absent on the disk it was created on never changes a destination entry that is there |
| AtomicReports.NeverOverwritesCreator | src/local/internal/atomic_file_install.rs:242-330 | in every interleaving an entry someone creates at the destination of such a writer survives everything that happens afterwards, as long as nobody else rebinds it, and that writer never installs or commits |
| AtomicReports.OnlyWindowIsVerifyToInstall | src/local/local_atomic_writer.rs:281-330 | in every run the installation displaces nothing (absent destination), or the inode its attempt verified at an earlier step `v`, unless an action of someone else strictly between `v` and the installation rebinds the destination |
| AtomicReports.VerificationIsExact | src/local/internal/atomic_namespace_race.rs:37-74 | in every run verification lets the installation start if and only if the destination names what the same attempt observed; otherwise nothing changed, staging stays open, and a Windows writer says at once whether the destination is gone or another one |
| AtomicReports.MismatchHandsBack | src/local/internal/atomic_namespace_race.rs:96-110 | after a mismatch the writer's next step changes nothing and hands the writer back, Missing reported exactly when that look finds the destination gone |
| AtomicReports.PublishesWritesOnce | src/local/local_atomic_writer.rs:238-247 | over any writes, failures and retries the staged bytes are the accepted writes in order, installation happens at most once, and what it puts at the destination is that file if and only if the staging name was not stolen |
| AtomicReports.TakesItsOwn | src/local/internal/atomic_file_install.rs:57-145 | an installation publishes the staging file exactly if the staging name names it just before |
| AtomicReports.PublishesItsOwnExactly | src/local/internal/atomic_file_install.rs:57-145 | in every run what is installed is the staging file if and only if nobody rebound the staging name before the installation |
| AtomicReports.MetadataIsPreserved | src/local/local_atomic_writer.rs:384-401 | a commit that preserves metadata installs the staging file with metadata read, at some step of the run, from the observed destination |
| AtomicReports.HandedBackExactly | src/local/internal/atomic_commit_state.rs:33-43 | a failed attempt hands the writer back exactly while the staging handle is open, that is before an installation is attempted |
| AtomicReports.FailureIsTruthful | src/local/local_atomic_destination_state.rs:18-37 | Replaced is reported if and only if this writer installed; Unchanged and Missing mean it did not |
| AtomicReports.MissingWasObserved | src/local/local_atomic_writer.rs:349-371 | Missing is reported only if a call of the run found the destination absent |
| AtomicReports.DurabilityIsTruthful | src/local/local_root_atomic_writer.rs:484-508 | success under Required is durable, NotRequired never is, Rooted Windows never is and never commits under Required; durable means the path to what was published is on stable storage, and its bytes if that is the staging file |
| AtomicReports.DurableExactlyWhenBothSynced | src/local/local_atomic_writer.rs:555-572 | in every run durable is reported if and only if the staging file was synchronized at its step of the attempt and every directory of the chain was |
| AtomicReports.StagingAccountedFor | src/local/local_atomic_writer.rs:534-572 | left alone, the staging name names the staging file exactly while armed or abandoned; when the writer is gone, a staging file still there was reported as a cleanup failure or a missing destination, or its owner dropped the writer |
| AtomicReports.FinalizeLeavesExactly | src/local/internal/atomic_commit_state.rs:49-62 | in every Unix run with the staging name left alone, a consuming commit gives its staging file up where it is if and only if the failure it finalizes says Missing, and then some call of the run found the destination absent; otherwise it goes on to the cleanup still armed |
| AtomicReports.ForeignUnlinkExactly | src/local/internal/staged_file.rs:180-205 | in every run a name that is not the writer's is taken away exactly by the rename, by the unlink of the link fallback and by the removal after the identity check, when the name names something else at that step |
| AtomicReports.RemovalWindow | src/local/internal/staged_file.rs:190-202 | in every run each removal relies on an identity check at an earlier step `c` that found the staging file; the name is still the writer's own at the removal if and only if no action between `c` and the removal rebinds it |
| AtomicCauses.FailureHasCause | src/local/local_atomic_writer.rs:349-572 | in every run a failure is reported at a stage only if the request makes that stage decisive: a failed synchronization of file or parents only where it was required, metadata only where it is read or preserved, Missing only where a regular file was expected |
| AtomicCauses.ReplacedFailureSyncs | src/local/internal/atomic_install_recovery.rs:72-128 | in every Unix run with durability asked for, a failure that tells of a replaced destination is reported while the parents are synchronized: it says so exactly if that failed, and otherwise all of them were |
| AtomicCauses.StagingMetadataStays | src/local/local_atomic_writer.rs:384-401 | in every run in which no metadata is to be preserved the staging file keeps its own |
| AtomicCauses.TriedTwice | src/local/internal/atomic_file_install.rs:359-420 | in every run the link fallback gives the staging name up only after unlinking it has failed twice |
| AtomicProgress.CommitsExactly | src/local/local_atomic_writer.rs:277-333 | every undisturbed commit that has come to its end has published what the staging name named and achieved all the durability asked for, if and only if the expected regular file is there, nothing must not be replaced and the staging name is there; otherwise it reports the stage and state that stood in its way |
| AtomicProgress.CommitFinishes | src/local/local_atomic_writer.rs:277-333 | and it comes to its end: where nothing stands in the way, commit and native calls that succeed lead to that success, whether there was nothing, a file or a link |
| AtomicProgress.StaysCommittable | src/local/local_atomic_writer.rs:161-196 | in every run, as long as nobody else has rebound destination or staging name, nothing stands in the way of a commit |
| AtomicProgress.WritesArePublished | src/local/local_atomic_writer.rs:238-247 | so from every point of every such run at which the owner has the writer, a commit can be carried through to the destination naming the staging file with every byte written so far |
| AtomicProgress.RefusedExactly | src/local/internal/atomic_file_install.rs:57-175 | in every run the installation is refused if and only if the staging name is gone, or there is an entry that the writer must not replace, or a directory |
| AtomicProgress.AbortFinishes | src/local/internal/staged_file.rs:180-205 | from every state in which the owner has an armed writer an undisturbed abort removes its staging file and says so, if and only if it can tell the name is its own or nothing is left; otherwise it stays armed; the destination is not touched |
| AtomicWitness.LinkFallbackRemovesForeign | src/local/internal/atomic_file_install.rs:359-420 | a concrete reachable run in which the link fallback removes another actor's file and reports success |
| AtomicWitness.RenamePublishesForeign | src/local/internal/atomic_file_install.rs:57-145 | a concrete reachable run in which the rename publishes another actor's file, reports a durable success, and a crash may leave any bytes at the destination |
| AtomicWitness.AbortRemovesForeign | src/local/internal/staged_file.rs:180-205 | a concrete reachable run in which an abort removes another actor's file that came after the identity check |
| AtomicWitness.FinalizeLeavesStaging | src/local/local_root_atomic_writer.rs:1013-1023 | a concrete reachable run of a Rooted writer: someone removes the destination, the commit reports it missing, and the staging file stays behind disarmed |
| LocalAtomicWriter.ReachedIsReachable | src/local/local_atomic_writer.rs:277-333 | every state of the writer object is a state of a run of the protocol |
| LocalAtomicWriter.Writer.constructor | src/local/local_atomic_writer.rs:126-220 | a request that can be met gives a valid start of a run with the options asked for and what the disk says about the destination |
| LocalAtomicWriter.NewWriter | src/local/local_atomic_writer.rs:126-220 | a writer exactly for a request that can be met, and otherwise the stage of the refusal |
| LocalAtomicWriter.Writer.Write | src/local/local_atomic_writer.rs:586-604 | appends exactly the bytes to the private staging file |
| LocalAtomicWriter.Writer.OpenDestinationForCommit | src/local/local_atomic_writer.rs:349-371 | observes a regular destination exactly if there has to be one; every failure hands the writer back |
| LocalAtomicWriter.Writer.ApplyDestinationMetadata | src/local/local_atomic_writer.rs:384-401 | on success staging has the metadata of the observed destination where it is to be preserved; every failure hands the writer back |
| LocalAtomicWriter.Writer.SyncTemporaryFile | src/local/internal/atomic_commit_state.rs:76-100 | the stronger of two requests decides; true means the bytes are durable, nothing requested gives false, and it fails only when required |
| LocalAtomicWriter.Writer.VerifyDestinationForCommit | src/local/local_atomic_writer.rs:466-475 | on success the destination names what was observed and the handle is closed; otherwise the writer is handed back |
| LocalAtomicWriter.Writer.Cleanup | src/local/internal/staged_file.rs:180-205 | removes the staging name only after its identity check, is done or failed exactly as reported, and leaves no staging name of its own when done; undisturbed it is done exactly if it can tell the name is its own or nothing is left |
| LocalAtomicWriter.Writer.SyncParentChain | src/local/local_atomic_writer.rs:621-638 | success means that the destination's directory and the entries of all created ones can only come back as they are; the reply follows; undisturbed it succeeds |
| LocalAtomicWriter.Writer.LinkThenUnlink | src/local/internal/atomic_file_install.rs:359-420 | links without replacing, then unlinks in two tries; failures say whether the destination was replaced; undisturbed it succeeds exactly if nothing is in the way |
| LocalAtomicWriter.Writer.RecoverInstallError | src/local/internal/atomic_install_recovery.rs:72-128 | after a failed installation staging is cleaned up; a replaced destination counts as success exactly when that worked |
| LocalAtomicWriter.Writer.InstallAndSyncParent | src/local/local_atomic_writer.rs:523-573 | ends committed with the achieved durability or failed for good, guard armed or done; undisturbed it succeeds exactly if the staging name is there and no entry that must not be replaced |
| LocalAtomicWriter.Writer.CommitAttempt | src/local/local_atomic_writer.rs:277-333 | runs all stages in order; a failure with the handle open hands the writer back |
| LocalAtomicWriter.Writer.CommitRecoverable | src/local/local_atomic_writer.rs:238-247 | retained exactly on failure with the handle open, with nothing installed and all bytes staged; success has installed once, its own file exactly if the staging name was not stolen, and is durable if required; a guard left armed was reported; with no native error and no interference it succeeds, with all that was asked for, exactly if nothing stands in its way |
| LocalAtomicWriter.Writer.Abort | src/local/local_atomic_writer.rs:257-269 | removes staging without touching the destination, or stays armed for another try; a Rooted writer may be aborted again; undisturbed it succeeds exactly if it can tell the name is its own or nothing is left |
| LocalAtomicWriter.Writer.Drop | src/local/internal/staged_file.rs:217-222 | one silent cleanup; nothing is installed; undisturbed it removes the staging file it can tell is its own |
| Collectors.CollectLimited | src/observation/local_observed_reader.rs:41-101 | the loop computes the reference result, and its buffer is never sized past the maximum |
| Collectors.CollectPrefix | src/local_file_system/io.rs:1150-1189 | the loop computes the reference result for every input, overclaiming ones included |
| Collectors.LimitedExactly | src/observation/local_observed_reader.rs:41-101 | for every cut into short reads and interruptions: the whole content if and only if it fits the maximum, else a resource-limit error |
| Collectors.LimitedConsumes | src/observation/local_observed_reader.rs:41-101 | at most maximum + 1 bytes are consumed, whatever happens |
| Collectors.LimitedIsWhole | src/observation/local_observed_reader.rs:41-101 | a success during which nobody wrote delivers all that was left |
| Collectors.LimitedErrs | src/observation/local_observed_reader.rs:76-97 | each error has its cause: an overclaiming input, a failing call, or more bytes than the maximum |
| Collectors.LimitedTruthful | src/observation/local_observed_reader.rs:76-97 | for every input a read error is returned if and only if a call failed, the probe at the maximum included, and after a call that lied there is no success |
| Collectors.LimitedWithinMemory | src/observation/local_observed_reader.rs:67-71 | for every input no success holds more than the buffer was allowed to grow |
| Collectors.PrefixExactly | src/local_file_system/io.rs:1150-1189 | exactly the first min(maximum, length) bytes |
| Collectors.PrefixTruthful | src/local_file_system/io.rs:1150-1189 | for every input a read error is returned if and only if a call failed before the maximum or the end was reached, only a buffer that cannot grow is a resource limit, and a success during which nobody wrote and no call lied is exactly the first bytes |
| Collectors.PrefixWithinMemory | src/local_file_system/io.rs:1184-1186 | for every input no success holds more than the buffer was allowed to grow |
| Collectors.PrefixBounded | src/local_file_system/io.rs:1150-1189 | for every input the prefix stays within the maximum if and only if no call reported more bytes than were asked for, and only such a call makes it panic |
| Collectors.PrefixOverrun | src/local_file_system/io.rs:1180-1187 | a concrete overclaiming input whose prefix is longer than the maximum |
| Collectors.CollectorsAgree | src/local_file_system/io.rs:1150-1189 | on one and the same input, with any errors and rewrites in it, a success of the bounded collector is also the prefix collector's result |
| ConsistentRead.MatchMeans | src/observation/local_file_snapshot.rs:128-154 | observations match if and only if they are equal, complete and of the collected length |
| ConsistentRead.ReadConsistentWithOptions | src/local_file_system/io.rs:792-861 | the bracketed read computes the reference outcome |
| ConsistentRead.SnapshotIsOneInstant | src/local_file_system/io.rs:822-861 | if every write advances the change stamp, an accepted snapshot is the whole file at one instant, within the maximum, and nobody wrote between the observations |
| ConsistentRead.WriteIsNoticed | src/local_file_system/io.rs:851-860 | a write between the observations is never missed |
| ConsistentRead.OutcomeHasCause | src/local_file_system/io.rs:822-861 | each rejection has its cause and each cause is reported: either query failing, a file too long at first, a failing call, a lie, and a change only if somebody wrote or the observations are incomplete |
| ConsistentRead.ChangeIsReported | src/local_file_system/io.rs:851-860 | if writes advance the stamp, a write between the observations is reported as a change, or as too many bytes, unless something failed or lied |
| ConsistentRead.QuietReadSucceeds | src/local_file_system/io.rs:822-861 | left alone, a file is read if and only if it is no longer than the maximum |
| ConsistentRead.TornWithoutAdvance | src/local_file_system/io.rs:787-791 | a write that leaves the stamp unchanged can yield bytes the file never held |
| RelativePath.AcceptanceIsExact | src/local/local_relative_path.rs:47-64 | accepted exactly if non-empty, NUL-free, relative and without "." or ".." |
| RelativePath.ComponentsAreClean | src/local/local_relative_path.rs:47-64 | every component of an accepted path is a clean name |
| RelativePath.JoinConcatenates | src/local/local_relative_path.rs:92-100 | join succeeds exactly for accepted children and concatenates the components |
| RelativePath.JoinComponentAddsOne | src/local/local_relative_path.rs:113-121 | join_component accepts exactly one-component children and adds that component |
| RelativePath.JoinAssociates | src/local/local_relative_path.rs:92-100 | join is associative down to the text |
| ComponentPolicy.DenyNames | src/directory/local_component_policy.rs:78-91 | a policy is built exactly from single names |
| ComponentPolicy.CombinedWith | src/directory/local_component_policy.rs:99-107 | the combination denies exactly what either side denies and keeps the order of the first |
| ComponentPolicy.UnionKeepsDistinct | src/directory/local_component_policy.rs:99-107 | no name is added twice |
| ComponentPolicy.MissingInOrder | src/directory/local_component_policy.rs:99-107 | names are added in the order given |
| ComponentPolicy.DeniedByChain | src/directory/local_directory_handle.rs:536-550 | a handle denies exactly what its root or any option on the way denied |
| ComponentPolicy.DeniedOnlyGrows | src/directory/local_directory_handle.rs:528-531 | what is denied once stays denied for every handle below |
| Lexical.ValidateDirectInput | src/directory/local_directory_handle.rs:708-741 | accepts exactly relative paths in which no prefix has more parent steps than names and no name is denied; the counter is the height of the normalizing stack |
| Lexical.Normalize | src/directory/local_directory_handle.rs:458-495 | admits exactly the same requests, if the directories left by parent steps pass inspection, and computes the stack |
| Lexical.ValidateHostParentSteps | src/directory/local_directory_handle.rs:1270-1312 | the Host variant computes the root-clamped normal form and rejects nothing for climbing |
| Lexical.StackIsKept | src/directory/local_directory_handle.rs:1270-1312 | the stack read from the left equals the names no parent step takes back, read from the right |
| Lexical.NormalFormGoesTheSameWay | src/directory/local_directory_handle.rs:1270-1312 | on a link-free tree the normal form leads where walking the components with `..` leads |
| Lexical.TighterAdmitsLess | src/directory/local_component_policy.rs:115-123 | a combined policy admits exactly what both parts admit |
| DirectoryChain.PathBindingBudget.Debit | src/directory/internal/path_binding_budget.rs:24-38 | charges the bytes, fails exactly above the limit, and refuses an overflowing amount without charging it |
| DirectoryChain.RetainDirectoryChain | src/directory/local_directory_handle.rs:1096-1257 | succeeds exactly if the depth is allowed, every directory is there, no call fails and root path, all prefix paths and recipe fit the budget; charges exactly that; each error has its cause |
| DirectoryChain.OpenDirectory | src/directory/local_directory_handle.rs:536-702 | succeeds exactly if chain, inherited anchors and ancestor count fit their limits; charges the resolution, the chain and every inherited path and recipe; each error has its cause |
| ChainTheorems.OpeningKeepsBinding | src/directory/local_directory_handle.rs:622-690 | one opening, whatever happens meanwhile: as many observations as anchors, each anchor one name below the previous, ancestors within the limit |
| ChainTheorems.RetainedBytesFit | src/directory/local_directory_handle.rs:628-667 | the paths of all anchors of a new handle, the recipes it inherited and its request together fit its opening's byte limit |
| ChainTheorems.ChargedInFull | src/directory/local_directory_handle.rs:620-667 | every opening is charged exactly for resolving, the path it starts from, the paths of all anchors of the new handle, the recipe of each inherited one, and the request |
| ChainTheorems.NestingKeepsBinding | src/directory/local_directory_handle.rs:536-702 | for every nesting: as many anchors as observations, each one name below the previous, one ancestor for every name gone down, number and path bytes within the limits |
| ChainTheorems.PathIsMeasured | src/directory/local_directory_handle.rs:1199-1206 | the bytes charged for an anchor are the length of its path text |
| ChainTheorems.PathIsJoined | src/directory/local_directory_handle.rs:1197-1199 | an anchor's path is the root path joined with the prefix of names |
| ChainTheorems.NestingIsMeasured | src/directory/local_directory_handle.rs:1197-1206 | for every nesting below a path the bytes charged for the handle's path and for each anchor's are the lengths of the path texts |
| ChainTheorems.NestingIsCharged | src/directory/local_directory_handle.rs:620-667 | for every nesting of relative requests the charge of each opening is what resolving took plus the lengths of the texts of its start path, of all anchor paths, of all inherited recipes and of the joined request, and it is within the limit |
| ChainTheorems.NestingExtendsByOneName | src/directory/local_directory_handle.rs:1197-1199 | for every nesting the path text of each anchor is that of the one before joined with exactly one name |
| ChainTheorems.OpeningComposes | src/directory/local_directory_handle.rs:536-702 | on an unchanging link-free tree, opening in two steps gives the directories, paths and identities of opening the joined path |
| ChainTheorems.NestingComposes | src/directory/local_directory_handle.rs:536-702 | on an unchanging link-free tree any number of nested openings gives the directories, paths and identities of opening the concatenated path at once |
| ChainTheorems.NestingSpellsTheSame | src/directory/local_directory_handle.rs:1197-1199 | corollary of NestingComposes and of the text of a path: every anchor's path is spelt the same either way |
| ChainTheorems.OpensBothWays | src/directory/local_directory_handle.rs:1096-1257 | both ways of opening reach a directory or neither does |
| Locations.TextReads | src/directory/local_directory_handle.rs:1197-1199 | the components of a joined path's text are those of its steps |
| PathBinding.VerifyUntil | src/directory/directory_path_binding.rs:42-106 | Unchanged exactly when every anchor reopens to its captured identity; otherwise the first anchor that does not decides, as DecidedMeans says |
| PathBinding.DecidedMeans | src/directory/directory_path_binding.rs:57-102 | the first anchor at which a query does not find its directory decides: Missing if and only if the retained handle is as it was and its path is gone, Changed if and only if a query finds another directory, an error otherwise |
| PathBinding.FreshlyOpenedIsInPlace | src/directory/local_directory_handle.rs:1198-1245 | right after opening, with no namespace step in between, every recipe reopens to its captured identity |
| PathBinding.InPlaceVerifies | src/directory/directory_path_binding.rs:42-106 | such a handle verifies as unchanged |
| PathBinding.RecipeLeadsToPath | src/directory/local_directory_handle.rs:1236-1245 | wherever a recipe leads, with parent steps in it or not, the anchor's own path leads too |
| PathBinding.NestingKeepsRecipes | src/directory/local_directory_handle.rs:1236-1245 | for every nesting each anchor is reopened from an earlier anchor through components whose normal form is the names in between, parent steps included |
| PathBinding.VerificationIsExact | src/directory/directory_path_binding.rs:42-106 | on a link-free tree, for every binding: verification finds no change if and only if the first directory is in place, each next one still stands under its name, and the recipes can be walked |
| PathBinding.VerdictIsExact | src/directory/directory_path_binding.rs:66-102 | even while the tree changes: a verification stops at the first anchor whose recipe does not open its directory when its turn comes; Missing if and only if the recipe leads nowhere then, Changed if and only if it leads to another directory, an error if and only if it leads to something else |
| PathBinding.ReplacedIsNoticed | src/directory/directory_path_binding.rs:42-106 | if a bound directory is gone from its path, or no longer stands under its name in the one before, when its turn comes, the result is not Unchanged, and it is Changed or Missing if no query fails |
| CombinedBinding.VerifyUntil | src/observation/local_observed_reader.rs:340-355 | the result of any nesting is that of one left-to-right pass over the leaves |
| CombinedBinding.PassMeans | src/observation/local_observed_reader.rs:340-355 | the first error or change wins, otherwise anything missing is missing |
| CombinedBinding.PassDecides | src/observation/local_observed_reader.rs:340-355 | unchanged if and only if every leaf is; an error or a change if and only if that is the first leaf that is neither unchanged nor missing; missing if and only if none of those and some leaf is |
| CombinedBinding.DeadlineIsEarliest | src/observation/local_observed_reader.rs:333-338 | the deadline of any nesting is the minimum over the leaves |
| CombinedBinding.EarliestMeans | src/observation/local_observed_reader.rs:333-338 | the minimum is one of the deadlines and no later than any |
| CombinedBinding.AttachedLeaves | src/observation/local_observed_reader.rs:246-254 | bindings attached one by one are verified in the order attached |
| LifecycleTheorems.PublishesAtMostOnce | fuzz/fuzz_targets/support.rs:559-692 | in every run each resource is published at most once, from an owned source that was not replaced, with exactly its bytes |
| LifecycleTheorems.SourceNeverReturns | fuzz/fuzz_targets/support.rs:622-650 | ownership is never regained; Indeterminate and Released are absorbing |
| LifecycleTheorems.FailureAsExpected | fuzz/fuzz_targets/support.rs:622-680 | in every run, after each failed publication: the source is what it was if it was not owned or the operands were senseless, Indeterminate if it had been replaced or the outcome is unknown, Released or CleanupRequired after what was published all the same, and otherwise owned and still in place; nothing is recorded as published unless it was, and content and writability follow |
| LifecycleTheorems.SuccessPublishes | fuzz/fuzz_targets/support.rs:600-620 | in every run a successful publication hands the resource over and publishes all it held, a file with exactly its content |
| LifecycleTheorems.OthersLeaveIt | fuzz/fuzz_targets/support.rs:439-558 | in every run no other operation moves a source; it is replaced exactly when something else takes the path of an owned one |
| LifecycleTheorems.PublishedIsForever | fuzz/fuzz_targets/support.rs:389-402 | what was published or put in place by others is there, byte for byte, at every later point |
| LifecycleTheorems.StaysWithinBudget | fuzz/fuzz_targets/support.rs:441-453 | live entries never exceed one plus the entries debited, so listings stay below the limit and the budget never underflows |
| LifecycleTheorems.KeepsStep | fuzz/fuzz_targets/support.rs:439-770 | every operation with every permitted answer keeps the invariant |
| LifecycleTheorems.CleanupAsExpected | fuzz/fuzz_targets/support.rs:695-719 | the library's cleanup ends as an outside observer expects, unless the identity query itself fails |
| LifecycleTheorems.CleanupEndsAsExpected | fuzz/fuzz_targets/support.rs:695-719 | in every run each cleanup succeeds exactly if it has authority and no call fails, and leaves the source as an observer expects; a failing identity query costs an owned one its authority |
| LifecycleTheorems.RunModel | fuzz/fuzz_targets/support.rs:414-772 | the loop over at most 64 decoded operations and the final drop are a run, within the entry limit and with everything published or put in place at any point preserved |
| FileError.AppendConcatenates | src/error/local_file_error.rs:339-346 | appending yields the old chain followed by the new error and its own chain |
| FileError.AppendAssociates | src/error/local_file_error.rs:339-346 | appending is associative |
| FileError.AppendConserves | src/error/local_file_error.rs:339-346 | appending keeps the multiset of recovery owners |
| FileError.ReplacingConserves | src/error/local_file_error.rs:302-306 | replacing the chain keeps every owner if and only if the replaced chain had none |
| FileError.TransferMovesOneOwner | src/error/local_file_error.rs:383-386 | companion of AppendConserves: the transfer moves exactly one owner out and leaves the error otherwise unchanged |
| FileError.IntoSourceConserves | src/error/local_file_error.rs:534-540 | conversion into a source keeps every owner if and only if the error itself owns something or no cleanup error does |
| FileError.IntoSourceDropsOwner | src/error/local_file_error.rs:534-540 | a concrete error whose cleanup owner is dropped by the conversion |
| FileError.AccessorsSeeThrough | src/error/local_file_error.rs:496-520 | native source, resource limit and standard kind are seen through any depth of recovery wrapping |
| FileError.InnermostSpeaks | src/error/local_file_error.rs:496-605 | every error is an innermost one inside recovery errors, and native source, limit and standard kind are given by that one's source, case by case |
| FileError.ClassifyRoundTrips | src/error/local_file_error.rs:652-668 | classifying a standard kind and going back gives it again wherever it has a kind of its own, and exactly the three kinds of exhaustion are resource limits |
| FileError.CauseSeesThroughEffects | src/error/local_file_error.rs:413-428 | the cause is that of the outermost error that does not merely tell an effect |
| FileError.CauseOfEffects | src/error/local_file_error.rs:413-428 | the cause of an error that tells nothing but effects all the way in is that of its innermost source, case by case |
| FileError.RewrappingKeeps | src/error/local_file_error.rs:534-540 | corollary of AccessorsSeeThrough: converting any error and wrapping it again keeps native failure and limit, the standard kind if there was a source or an owner, and the owners of an owning error |
| FileError.NativeKindSurvives | src/error/local_file_error.rs:582-605 | corollary of AccessorsSeeThrough: a native failure keeps its exact standard kind under any wrapping |
| CleanupChain.OwnedError.WithAdditionalCleanupError | src/error/local_file_error.rs:339-346 | the in-place walk hangs the new chain onto the last box and changes nothing else; the error held is the value `Append` gives, with every owner conserved |
| CleanupChain.AppendedValue | src/error/local_file_error.rs:339-346 | errors in a row, the first list followed by the second, are the value `Append` gives, with every owner conserved |

## Left out

- LocalAtomicWriter.Writer: is the Unix program only; Rooted Windows is modelled as transitions, Host Windows (its replacement codes and the Indeterminate destination state) not at all.
- AtomicProtocol: inode numbers are never reused, so an identity is one object for ever. Two places of the code rely on that where no handle pins the inode: under UseStaging the destination is compared by number only (AtomicReports.VerificationIsExact, AtomicReports.OnlyWindowIsVerifyToInstall), and cleanup closes the staging handle before it compares (AtomicReports.RemovalWindow, AtomicReports.ForeignUnlinkExactly, LocalAtomicWriter.Writer.Cleanup).
- AtomicProtocol: other actors never rename the directories on the destination's path, never write to or hard-link the private staging inode, and never rename the staging file away and back; once they rebind the staging name, it is not the writer's again.
- AtomicProtocol: where another actor put a directory under the staging name, the model lets it be unlinked by the link fallback or renamed over a file, which the native calls refuse; a refusal is the failing call, which the model allows as well.
- AtomicProtocol: a native call that fails changes nothing, except that a failing metadata copy may leave any metadata; an `fsync` that succeeds covers all bytes written so far, also after an earlier one that failed.
- AtomicProtocol: the retry loop that generates staging names, copy permissions and the sync observer are left out; the staging name is fresh when the writer is created.
- Collectors: an overclaiming call leaves the read buffer as it was; what it might write there is not modelled.
- Collectors: the `u64` and `usize` counters are unbounded, since no buffer reaches their limits.
- Lexical: symlink resolution between normalization and opening is not modelled; errors of the directory inspection are one kind.
- DirectoryChain.OpenDirectory: is the opening with a binding, on a path already resolved; what the resolver charges is a parameter, an opening without a binding and option validation are left out.
- DirectoryChain: one step of a descent sees one state of the file system; deadlines are failures at a step.
- PathBinding: requests are resolved by their normal form, since there are no links in the tree.
- Lifecycle: the copy, delete and publication engines inside the library are represented by their contract; entries are identities, so the paths of saved and published entries are not modelled.
- FileError: operation, paths, reason and effect are one opaque context that is only carried along.
- Windows path syntax, option builders, metadata and security observations, tree copy and delete, the walker and the conditional-publication backend: each would add members without a property across several functions.
