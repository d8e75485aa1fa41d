# Model of a one-way HTTP mirror

A server turns a module's file tree into an index, cuts snapshots out of it, pages them out and guards modules with
expiring locks. A client fetches the manifest, plans against a scan of its target, downloads into a store of objects named
by checksum, replaces each path by a link to its object, and deletes what the remote no longer has. This project models
these parts and proves what they promise, from single calls up to whole runs and the path from a server tree to the
client's disk. `dafny verify dfyconfig.toml` verifies everything.

## Layout

| file | part of the system |
|---|---|
| `Text.dfy`, `Paths.dfy`, `Options.dfy` | splitting and trimming, `filepath.Clean` and `Join`, optional values |
| `Manifest.dfy` | manifest entries, byte-wise order, sorting, the path and checksum maps |
| `Overlap.dfy`, `LockManager.dfy` | lock paths and the manager itself |
| `LockRuns.dfy`, `LockFiles.dfy`, `LockRestarts.dfy` | runs in one process, lock files read back, runs with restarts |
| `LockFrees.dfy`, `LockProbe.dfy` | what is blocked is held, and released locks come free; probing |
| `Exclude.dfy`, `FileTree.dfy` | the excluder; trees and walks over them |
| `Snapshot.dfy`, `Indexer.dfy`, `Watch.dfy` | direct walk against index, the index and object lookup, the debounced rebuild loop |
| `Representatives.dfy`, `Sources.dfy` | which entry stands for a checksum; which source paths are accepted and what snapshot they get |
| `Paging.dfy`, `Sessions.dfy` | manifest pages, session and snapshot tables |
| `Store.dfy`, `Resumption.dfy`, `OwnStore.dfy` | the client's disk, one resumable download, one promotion; what broken transfers keep; the file system under that disk |
| `Parallel.dfy`, `ParallelRuns.dfy` | `downloadAll` as a state machine over every interleaving, and what its runs come to |
| `Directories.dfy`, `Completion.dfy` | links and directories over every schedule; when a schedule can succeed, and that all successes are alike |
| `Plan.dfy`, `Mirror.dfy`, `Converge.dfy` | scan, plan, guard, grouping; one run; convergence |
| `EndToEnd.dfy` | server and client together |
| `Histories.dfy`, `FirstRun.dfy` | any history of runs against one remote, and that some first run succeeds |

Objects that the source updates in place are classes (`Manager`, `Collector`, `ModuleIndex`, `Watcher`, `Service`,
`ObjectStore`, `Client`); their methods are tied to functions or step relations of the old state, and the properties are
proved about those. What the surroundings decide is a parameter: clock, directory listing errors, files that cannot be
removed, failing writes (`Env`), what the network delivers and where a transfer or the process stops (`Exchange`), the
interleaving of the download workers (`Choice`), the walk order and the removals that work (`Events`), the page sizes
asked for. The hash, `filepath.Match`, `regexp.Compile` and the timestamp codec are function parameters; nothing is assumed
of them except where a lemma says so. In `Job` and `Upstream` the field `truth` names the content that each checksum stands
for; `ParallelRuns.TruthUnused` shows that the program does not depend on it.

## What the proofs found

- The mirror converges in contents whenever a run succeeds under the stated conditions. It converges in mode and time
  **exactly** when entries that come to share an object agree on them (`Converge.ConvergesExactly`). Two equal files with
  different times never settle, after any number of successful runs (`Converge.NeverSettles`).
- Cancellation from outside can end the download loop with no error recorded, so that the deletes go ahead although nothing was
  downloaded (`Converge.CancelledRunDeletes`).
- A dangling link in the target ends the scan with a not-exist error that is taken for a missing root; stale files behind it
  outlive a successful run (`Converge.DanglingKeepsStale`).
- Downloads come before deletes, and deletes leave directories behind. So a stale file where the remote has a directory, or
  any file or directory, even an empty one, below a path where the remote has a file, is never got out of the way. With an
  honest server a run can succeed **exactly** when nothing is in the way like that and every planned object is cached at its
  size, empty, or left from earlier attempts as nothing or a strict prefix (`Completion.CompletesExactly`,
  `Converge.CanSucceedExactly`, `Converge.LeftoverDirectoryBlocks`).
- A module that is itself a client's target lists that client's object store (`EndToEnd.OwnStoreListed`) and its part files. A
  link made inside the store leaves all objects with their contents, through whatever downloads follow, **exactly** when
  it is neither at the path of an object nor at that of a part file (`OwnStore.StoreSurvivesExactly`): through the latter the
  next bytes of a download are written into another object. An object promoted to its own path becomes a link to itself, and
  the run fails, every time (`OwnStore.StampFindsObjectExactly`); at the path of another object the outcome depends on the
  schedule (`OwnStore.OrderDecides`). Links elsewhere in the client's own directories spare the objects but can make later
  downloads fail. All results about runs therefore ask for planned paths outside these directories, which a manifest
  meets exactly when the source offers no file there (`EndToEnd.ManifestProperExactly`).
- A run can change the mode and time of an excluded file: one that is a link from an earlier run to an object which the run
  stamps anew (`EndToEnd.ExcludedChangesExactly`). Its content stays (`EndToEnd.ExcludedUntouched`).
- A part file of full length, which a stop between the last byte and the rename leaves behind, is refused with 416 for ever
  (`Store.FullPartIsStuck`, `Store.CrashBeforeRenameSticks`).
- `Release` removes the lock file whoever calls it, and different paths can share a file. Inside one process neither does
  harm (`LockRuns.InProcessExclusion`); across a restart either breaks exclusion (`LockRestarts.WrongOwnerBreaks`,
  `LockRestarts.CollisionBreaks`).
- A released lock is free at once **exactly** when its lock file can be removed; otherwise it blocks until it expires
  (`LockFrees.ReleasedExactly`). When files can be removed and failed writes leave none, a path is blocked, in every
  run with restarts, **exactly** when a live grant overlaps it (`LockFrees.RunExact`, `LockFrees.GrantedExactly`).
- The overlap test is right on paths that stay below their directory or climb equally far, and on rooted paths other than
  `/`, which contains every rooted path and is found to overlap none but itself (`Overlap.OverlapExact`,
  `Overlap.OverlapMissesBelowRoot`). When one relative path climbs further than the other, the test only asks whether the
  other goes down at all (`Overlap.OverlapUnequalClimb`).
- A `dir/**` glob is a plain string prefix: it also takes, exactly, the siblings whose names begin with
  `dir` and all below them (`Exclude.DirGlobExactly`). The README of the system shows such globs as directory patterns; the model follows the code.
- The entry kept for a checksum is the first in walk order in one form and the least in path order in the other. They are
  the same **exactly** when those two files are, checksum by checksum (`Representatives.RepresentativesAgreeExactly`);
  `a/x` against `a-b` is a case where they are not (`Representatives.RepresentativesDiffer`).
- A source path that climbs out of the module root and back in by its own name passes the handler
  (`Sources.ReentryAccepted`, `Sources.AcceptsClimbingExactly`) and gets an empty snapshot; all others get that of the
  directory the handler looked at (`Sources.SnapshotFollowsSourceExactly`). A client that asks for such a path plans to
  delete every file it sees (`EndToEnd.ClimbingPlansDeletes`). The handler refuses a directory of the module whose name begins with `..`
  (`Sources.AcceptsStraightExactly`).
- A failed rebuild clears `pending`, and the change it missed is forgotten (`Watch.FailedScanForgets`).

## Model

| member | source | states |
|---|---|---|
| `Paths.CleanStable` | internal/lock/manager.go:49-56 | cleaning keeps rootedness and components and is idempotent |
| `Paths.SlashPrefix` | internal/lock/manager.go:67-69 | the string-prefix test with a slash is the proper-ancestor test on components |
| `Paths.JoinPathAssociative` | internal/server/snapshot_indexer.go:115 | joining root, prefix and entry path in two steps or in one leads to the same path |
| `Overlap.CleanPathIsClean` | internal/lock/manager.go:49-56 | the trimming after `Clean` never applies; cleaned lock paths are fixed points |
| `Overlap.OverlapIsSharedSubtree` | internal/lock/manager.go:58-71 | on paths that stay below their directory, two overlap exactly when some path lies at or under both |
| `Overlap.OverlapsReflexiveSymmetric` | internal/lock/manager.go:58-71 | the relation is reflexive, symmetric and unchanged by cleaning |
| `Overlap.OverlapExact` | internal/lock/manager.go:58-71 | for every pair of paths, rooted, relative or climbing, what the test decides in terms of their components |
| `Overlap.OverlapMissesBelowRoot` | internal/lock/manager.go:58-71 | of all rooted paths `/` is found to overlap only itself |
| `Overlap.OverlapSameClimb` | internal/lock/manager.go:58-71 | relative paths that climb equally far overlap exactly when one leads into the other, wherever they are taken from |
| `Overlap.OverlapUnequalClimb` | internal/lock/manager.go:58-71 | when one climbs further, what the test answers and what is true, so where it errs |
| `Overlap.CollisionExact` | internal/lock/manager.go:36-47 | two paths get the same lock file exactly when they differ only in `/` against `_`, or are `.` and `root` |
| `LockManager.Manager.PurgeMem` | internal/lock/manager.go:95-103 | the memory loop drops only expired records and answers with an overlapping live one, or leaves exactly the live, non-overlapping ones |
| `LockManager.Manager.SweepFiles` | internal/lock/manager.go:105-125 | the directory loop removes only malformed or expired lock files and answers with an overlapping live one, if there is any |
| `LockManager.Manager.Store` | internal/lock/manager.go:127-135 | memory and file are written together; a failed write takes the record back |
| `LockManager.Manager.TryAcquire` | internal/lock/manager.go:89-136 | locked exactly when a live overlapping lock is in memory or on disk, with the whole new state in each outcome, keeping records pairwise non-overlapping |
| `LockManager.Manager.Release` | internal/lock/manager.go:138-148 | the record goes only for its owner or an empty owner, and then nothing in memory overlaps the path; the file goes whoever asks, unless it cannot be removed |
| `LockManager.Manager.IsLocked` | internal/lock/manager.go:150-188 | true with a real holder, or false when nothing live overlaps; only dead records and files disappear |
| `LockManager.StillExclusive` | internal/lock/manager.go:94-103 | recording an unblocked path keeps all keys pairwise non-overlapping |
| `LockFrees.ReleaseFrees` | internal/lock/manager.go:138-148 | after a release by its owner, or with no owner named, no record overlaps the path; all other records stay |
| `LockFrees.ReleaseByOther` | internal/lock/manager.go:142-146 | a release by another owner leaves memory as it was |
| `LockFrees.AcquireSweeps` | internal/lock/manager.go:94-125 | a granted acquire leaves no expired record and no malformed or expired lock file that can be removed, and keeps everything else |
| `LockRuns.StepGuarded` | internal/lock/manager.go:89-188 | every step short of a restart, tampering with lock files included, keeps memory exclusive, live grants remembered and mutually exclusive |
| `LockRuns.InProcessExclusion` | internal/lock/manager.go:89-188 | over every run of one process no two live grants overlap |
| `LockFrees.StepMemBacked` | internal/lock/manager.go:89-188 | every step, restarts and tampering included, keeps every live record that of a live grant |
| `LockFrees.NothingLingers` | internal/lock/manager.go:89-188 | so over every run memory holds nothing but live grants |
| `LockFiles.ReadsBackExactly` | internal/lock/manager.go:73-87 | a lock file gives back expiry and path exactly when neither field has a bar and the path does not end in a blank |
| `LockFiles.OwnerReadsBack` | internal/lock/manager.go:73-87 | then the owner comes back too, but for blanks in front of it |
| `LockFiles.ReadsBackShorter` | internal/lock/manager.go:73-87 | otherwise it can only read back as a shorter path |
| `LockRestarts.OnDiskBlocks` | internal/lock/manager.go:105-125 | a readable lock file of a live grant blocks every overlapping path whatever the memory holds |
| `LockRestarts.AcquireDurableExactly` | internal/lock/manager.go:127-135 | a granted acquire keeps every live lock recoverable exactly when its fields are safe and no other live grant uses its file |
| `LockRestarts.ReleaseDurableExactly` | internal/lock/manager.go:138-148 | a release keeps every live lock recoverable exactly when each live grant on the file it removes is ended by it |
| `LockRestarts.RestartExclusion` | internal/lock/manager.go:89-148 | over every run of safe steps with restarts no two live grants overlap, and each still blocks all overlapping paths in a fresh process |
| `LockFrees.StepFilesBacked` | internal/lock/manager.go:105-148 | a safe step whose files can be removed keeps every live lock file that of a live grant with its path, expiry and owner |
| `LockFrees.BlockedExactly` | internal/lock/manager.go:89-125 | then a path is blocked exactly when a live grant overlaps it |
| `LockFrees.RunExact` | internal/lock/manager.go:89-148 | over every run of such steps with restarts, from a directory without live lock files, blocked means held, and held means blocked |
| `LockFrees.ReleasedExactly` | internal/lock/manager.go:138-148 | releasing a live grant unblocks its path exactly when its lock file can be removed |
| `LockFrees.GrantedExactly` | internal/lock/manager.go:89-136 | in every such run an acquire is granted exactly when no live grant overlaps its path and the lock file can be written |
| `LockFrees.HolderIsReal` | internal/lock/manager.go:100-123 | the holder that is named owns a live overlapping grant, but for blanks in front of the name |
| `LockRestarts.WrongOwnerBreaks` | internal/lock/manager.go:142-147 | a release by a stranger followed by a restart grants the same path twice |
| `LockRestarts.CollisionBreaks` | internal/lock/manager.go:36-47 | two paths with one lock file and a restart grant the same path twice |
| `LockProbe.PurgeInvisible` | internal/lock/manager.go:95-99 | what a purge removes no answer at that time or later can depend on |
| `LockProbe.SameAcquire` | internal/lock/manager.go:89-136 | from states equal up to dead entries an acquire ends alike and leaves states equal up to dead entries |
| `LockProbe.SameRelease` | internal/lock/manager.go:138-148 | so does a release |
| `LockProbe.ProbeAgrees` | internal/lock/manager.go:150-187 | a probe says locked exactly when an acquire in its place would |
| `LockProbe.RunsAlike` | internal/lock/manager.go:89-188 | runs of the same steps, restarts and tampering included, from states equal up to dead entries grant the same locks at every point |
| `LockProbe.LookingIsPure` | internal/lock/manager.go:95-125 | after a probe or a refused acquire every continuation grants what it grants without it, and blocks the same paths at every later point |
| `Exclude.Match` | internal/filter/exclude.go:36-60 | the search finds a match exactly when some glob, directory glob or expression takes the cleaned path |
| `Exclude.NewExcluder` | internal/filter/exclude.go:15-34 | fails exactly when a non-blank expression does not compile, and otherwise keeps the cleaned non-blank globs and compiled expressions in order |
| `Exclude.ExcludesExactly` | internal/filter/exclude.go:15-60 | what the excluder made of given patterns excludes: the cleaned paths that a non-blank glob, cleaned, matches or takes as `dir/**` by prefix, and those that a non-blank expression matches |
| `Exclude.LiteralDirsExact` | internal/filter/exclude.go:47-52 | with literal directory globs a path is excluded exactly when it begins with one of the directories |
| `Exclude.LiteralDirsClosed` | internal/filter/exclude.go:47-52 | such excluders are closed under descendants |
| `Exclude.DirGlobExactly` | internal/filter/exclude.go:47-52 | a literal directory glob takes what is at or below its directory and, beside that, exactly what is at or below a sibling whose name begins with the directory's |
| `Exclude.DirGlobTakesSiblings` | internal/filter/exclude.go:47-52 | a directory glob takes siblings that begin with the directory's name |
| `FileTree.WalkSound` | internal/server/snapshot.go:29-73 | everything a pruned walk lists is a file none of whose ancestors is skipped, with its own data |
| `FileTree.WalkComplete` | internal/server/snapshot.go:29-73 | every such file is listed |
| `FileTree.WalkDistinct` | internal/server/snapshot.go:29-73 | no path is listed twice |
| `Manifest.LessExact` | internal/server/snapshot_indexer.go:230 | the order is that of strings: a proper prefix comes first, otherwise the first difference decides |
| `Manifest.SortIncreasing` | internal/server/snapshot_indexer.go:230 | sorting distinct paths gives a strictly increasing arrangement of the same entries |
| `Manifest.IncreasingUnique` | internal/server/snapshot.go:78-80 | there is only one such arrangement |
| `Manifest.ByPathExact` | internal/server/snapshot.go:67 | the path map holds exactly the entries, each under its path |
| `Manifest.ByChecksumLeast` | internal/server/snapshot_indexer.go:107-109 | over increasing entries the one kept for a checksum has the least path of all that have it |
| `Sources.SourcePrefixExact` | internal/server/snapshot_indexer.go:72-81 | for every source path the prefix is the rendering of its components, unless it climbs; then it begins with `..` |
| `Sources.AcceptsStraightExactly` | internal/server/server.go:427-441 | a path that does not climb is accepted exactly when its first name does not begin with `..`, and leads to its own components |
| `Sources.AcceptsClimbingExactly` | internal/server/server.go:427-441 | a path that climbs is accepted exactly when it comes down again by the names of the module root it climbed out of, and goes on to a name that does not begin with `..`; what ends outside is refused |
| `Sources.AdmittedStraightExactly` | internal/server/server.go:427-445 | a path that does not climb gets a session exactly when it is accepted and the module has something there |
| `Sources.ReentryAccepted` | internal/server/server.go:427-441 | for every module root and every directory in it a climbing path leads there and is accepted |
| `Sources.ClimbingSourceIsEmpty` | internal/server/snapshot_indexer.go:88-96 | a prefix that climbs matches no index entry |
| `Sources.SnapshotFollowsSourceExactly` | internal/server/snapshot_indexer.go:72-96 | an accepted path gets the snapshot of the directory the handler looked at exactly when it does not climb or nothing is listed there |
| `Snapshot.ProjectedExact` | internal/server/snapshot_indexer.go:86-104 | the loop body keeps the indexed file exactly when it lies below the source and its relative path is not excluded, under that relative path |
| `Snapshot.ProjectIncreasing` | internal/server/snapshot_indexer.go:86-111 | stripping a common prefix keeps the strict order, so the final sort changes nothing |
| `Snapshot.DirectExact` | internal/server/snapshot.go:24-83 | the direct snapshot lists, in order, exactly the files no exclusion on the way hides |
| `Snapshot.IndexExact` | internal/server/snapshot_indexer.go:186-232 | the index lists, in order, exactly the files of the module |
| `Snapshot.SnapshotExact` | internal/server/snapshot_indexer.go:83-111 | the cut snapshot lists, in order, exactly the files below the source whose own path is not excluded |
| `Snapshot.WalkWithinIndex` | internal/server/snapshot.go:41-46 | for any excluder the direct walk lists a part of the cut snapshot |
| `Snapshot.IndexIsWalkExactly` | internal/server/snapshot_indexer.go:83-111 | for any tree and excluder both are equal exactly when no file that is not excluded lies in an excluded directory |
| `Indexer.Collector.Visit` | internal/server/snapshot.go:29-73 | the walk callback appends exactly the walk's entries and keeps both maps in step |
| `Indexer.BuildDirect` | internal/server/snapshot.go:24-83 | the direct snapshot as a function of the source tree |
| `Indexer.ScanModule` | internal/server/snapshot_indexer.go:186-232 | the module scan gives the index |
| `Indexer.ModuleIndex.Rebuild` | internal/server/snapshot_indexer.go:171-184 | a good scan replaces data and clears the error, a failed one keeps the data and records the error |
| `Indexer.ModuleIndex.BuildSnapshot` | internal/server/snapshot_indexer.go:60-121 | error without data, otherwise the snapshot cut by prefix and excluder |
| `Indexer.IndexRefinesWalk` | internal/server/snapshot_indexer.go:72-111 | with a descendant-closed excluder the index gives the entries and the path map of the direct walk |
| `Indexer.SnapshotConsistent` | internal/server/snapshot_indexer.go:83-120 | entries increase, the path map holds exactly them, and each checksum maps to the entry of least path that has it |
| `Representatives.WalkOrdered` | internal/server/snapshot.go:29-73 | a walk lists files in component-wise order |
| `Representatives.DirectKeepsFirstMet` | internal/server/snapshot.go:68-70 | the direct walk keeps for a checksum the first of its files in that order |
| `Representatives.CutKeepsLeastNamed` | internal/server/snapshot_indexer.go:107-109 | the cut snapshot keeps the one of least path |
| `Representatives.RepresentativesAgreeExactly` | internal/server/snapshot_indexer.go:107-109 | for any tree and excluder both keep the same exactly when those files are the same for every checksum |
| `Representatives.RepresentativesDiffer` | internal/server/snapshot.go:68-70 | on the tree with `a/x` and `a-b` of equal content they are not |
| `Indexer.StripAndRejoin` | internal/server/snapshot_indexer.go:115 | joining source directory and relative path leads to root joined with the indexed path |
| `Indexer.LookupServesIndexedFile` | internal/server/server.go:573-590 | what is opened for a query is a non-excluded file of the module at the joined path, with the asked checksum or path |
| `Indexer.LookupFoundExactly` | internal/server/server.go:573-585 | something is found exactly when a non-excluded file of the source has the asked checksum, or the asked path |
| `Watch.Watcher.OnEvent` | internal/server/snapshot_indexer.go:143-156 | an event with one of the five bits arms the timer unless one is pending; creates add watches |
| `Watch.ArmsExactly` | internal/server/snapshot_indexer.go:147-156 | a waiting loop is armed exactly by an event with a create, write, remove, rename or chmod bit; a pending one is left alone |
| `Watch.Watcher.OnTick` | internal/server/snapshot_indexer.go:157-161 | the index is rebuilt and only then `pending` cleared, also after a failed rebuild |
| `Watch.StepCovered` | internal/server/snapshot_indexer.go:136-168 | every step keeps `pending` in step with the timer and every unscanned creation, write, removal, renaming or chmod queued or covered |
| `Watch.NoLostRebuild` | internal/server/snapshot_indexer.go:136-168 | so does every interleaving |
| `Watch.QuiescentIsFresh` | internal/server/snapshot_indexer.go:136-184 | at rest the last scan started after the last change, and if it succeeded the index is the scan of the tree |
| `Watch.SettlesQuiescent` | internal/server/snapshot_indexer.go:141-168 | left alone the loop comes to rest |
| `Watch.FailedScanForgets` | internal/server/snapshot_indexer.go:157-161 | after a failed rebuild a change can be covered by nothing |
| `Paging.ServePage` | internal/server/server.go:515-540 | the page starts at the cursor, or at 0 without a usable one, and has the size asked for if that is from 1 to 20000, else the configured one, unless the entries end first; the next cursor is where it ends |
| `Paging.FetchManifest` | internal/client/client.go:269-309 | for any page sizes the loop ends, the pages concatenate to the entries, the map is their path map; it fails exactly when a request is not served |
| `Paging.ConstantSizeRequests` | internal/client/client.go:271-307 | with one page size it takes max(1, ceil(n / size)) requests |
| `Sessions.CleanupExact` | internal/server/server.go:644-652 | cleanup keeps the tables matched, removes exactly the pairs older than the allowed age and changes no other |
| `Sessions.CommitExact` | internal/server/server.go:633-637 | a commit marks its session committed and changes nothing else |
| `Sessions.Service.Cleanup` | internal/server/server.go:644-652 | the deleting loop, in any iteration order, does that |
| `Sessions.Service.Create` | internal/server/server.go:452-469 | both tables get the pair, then cleanup; the new session is active under the snapshot id made from its own; matched tables stay matched even when the session id repeats |
| `Sessions.Service.Commit` | internal/server/server.go:633-637 | only the status of that session changes |
| `Sessions.Service.ModuleForSnapshot` | internal/server/server.go:654-663 | in any iteration order the module whose index the snapshot was cut from, failing only for unknown snapshots |
| `Sessions.TablesStayMatched` | internal/server/server.go:452-469 | after any history snapshot keys are exactly the sessions' snapshot ids, unique, each from its session's module |
| `Sessions.CreateKeepsOwn` | internal/server/server.go:463-468 | a create keeps its own pair unless it is already over age |
| `Sessions.CreateKeepsOthers` | internal/server/server.go:463-468 | and of the others exactly those not over age, with their snapshots |
| `Store.ObjectStore.DownloadObject` | internal/client/client.go:469-545 | the new objects, part file and byte count as a function of disk and exchange; stored objects keep their names |
| `Store.ObjectStore.Relink` | internal/client/client.go:549-562 | one path is relinked exactly when nothing above it is a file, nothing is below it, and no operation fails; what each failure leaves |
| `Store.ObjectStore.PromoteObject` | internal/client/client.go:547-576 | succeeds exactly when each path can be placed after those before it and nothing fails; then all are links and the object carries the first entry's mode and time; a failure leaves exactly what came before it |
| `Store.FetchKeepsNamed` | internal/client/client.go:530-544 | whatever the server sends, only content with the named checksum is stored, and nothing else changes |
| `Resumption.CachedExactly` | internal/client/client.go:469-473 | nothing is asked of the network exactly when an object of that checksum and size is there |
| `Resumption.PartKeepsBytes` | internal/client/client.go:480-528 | an honest reply is stored or leaves in the part file what was there and every byte that arrived |
| `Resumption.CutKeepsBytes` | internal/client/client.go:511-528 | so a transfer that breaks off extends a prefix of the content by exactly the bytes that arrived |
| `Resumption.FullReplyRestarts` | internal/client/client.go:511-543 | a reply in full starts over and succeeds whatever the part file held |
| `Resumption.AttemptsComplete` | internal/client/client.go:478-545 | as many attempts that each bring a byte, broken off or not, as there are bytes missing store the object |
| `Store.ResumeExact` | internal/client/client.go:480-544 | an uninterrupted attempt succeeds exactly with a missing part, a strict prefix, or empty content; it then stores the content and reports its full size |
| `Store.PartStaysPrefix` | internal/client/client.go:478-545 | over any sequence of interrupted attempts the part stays a prefix and an object that appears is the content |
| `Store.FullPartIsStuck` | internal/client/client.go:497-509 | a full-length part is never repaired |
| `Store.CrashBeforeRenameSticks` | internal/client/client.go:522-543 | a stop before the rename leaves such a part |
| `Store.PlacedExact` | internal/client/client.go:548-563 | the links are at exactly the group's paths, all else is untouched |
| `Parallel.StepInv` | internal/client/client.go:403-442 | every step of loop, workers and cancellation keeps the invariant |
| `Parallel.AlwaysInv` | internal/client/client.go:376-451 | in every interleaving: workers within the limit; groups partitioned into unstarted, in flight, failed and done; counters the sums over done groups; each link made once; nothing outside the plan touched |
| `Parallel.FetchTrue` | internal/client/client.go:425-429 | a worker's successful fetch leaves the true content and counts its planned cost, however it was transferred |
| `ParallelRuns.CompleteExactly` | internal/client/client.go:412-415 | an errorless end is complete exactly when the loop was not left early, and only outside cancellation makes it leave early |
| `ParallelRuns.CompleteOutcome` | internal/client/client.go:437-450 | a complete end has promoted each entry exactly once, full counters, and the disk mirrored |
| `ParallelRuns.MirroredPlaced` | internal/client/client.go:547-576 | group by group that disk is what promotion leaves |
| `Completion.SchedulesAgree` | internal/client/client.go:412-450 | all errorless, uncancelled schedules end with the same target, directories, objects and counters |
| `ParallelRuns.StepDecreases` | internal/client/client.go:412-443 | every enabled step uses up one of finitely many |
| `ParallelRuns.SchedulesEnd` | internal/client/client.go:412-443 | no schedule takes more steps than there were at the start |
| `ParallelRuns.NoDeadlock` | internal/client/client.go:396-443 | before the end some step is always enabled |
| `ParallelRuns.ManyAtOnce` | internal/client/client.go:396-420 | any number of groups up to the limit can be in flight at the same time |
| `ParallelRuns.FewAfterError` | internal/client/client.go:403-416 | after an error or a cancellation no group is started but the one the loop has already looked at |
| `ParallelRuns.AlwaysNamed` | internal/client/client.go:534-541 | however far a run with proper paths gets, stored objects have the content they are named by |
| `ParallelRuns.AlwaysStays` | internal/client/client.go:534-572 | no object leaves the store, and those of other checksums are not touched |
| `ParallelRuns.OnlyPlannedChange` | internal/client/client.go:547-563 | however far a run gets and whatever the plan, other paths are untouched |
| `ParallelRuns.AnyMoment` | internal/client/client.go:553-562 | at any moment a planned path is as it was, or missing, or a link to exactly its content |
| `ParallelRuns.TruthUnused` | internal/client/client.go:376-451 | the machine does not depend on what checksums stand for |
| `Directories.AlwaysShaped` | internal/client/client.go:548-563 | at any moment what has been linked is there, its directories are, and nothing is above or below it |
| `Directories.AlwaysDirs` | internal/client/client.go:550-555 | directories stay unless a link takes their place; only those above planned paths are made |
| `Completion.AlwaysFetched` | internal/client/client.go:471-543 | with an honest server a part file is what it was until its download, which only succeeds on a cached object, an empty one, or nothing or a strict prefix to resume from |
| `Completion.EndDirs` | internal/client/client.go:548-563 | the directories at a complete end are those of the start that no link replaced and those above planned paths |
| `Completion.CanFinish` | internal/client/client.go:412-450 | from every point of every honest schedule without trouble so far, a completable run can be brought to a complete end |
| `Completion.CompletesExactly` | internal/client/client.go:412-450 | with an honest server some schedule promotes every entry exactly when no file or directory obstructs a planned path and every planned object is cached or can still be fetched |
| `OwnStore.StatIsRead` | internal/client/client.go:343-347 | with the own directories kept apart, the disk of the model says what following links in the file system says |
| `OwnStore.RelinkIsPhysical` | internal/client/client.go:553-562 | and relinking a path outside them does the same to both |
| `OwnStore.StoreSurvivesExactly` | internal/client/client.go:474-562 | after a link every object keeps its content, through whatever downloads follow, exactly when the link is neither at the path of an object nor at that of a part file |
| `OwnStore.StampFindsObjectExactly` | internal/client/client.go:567-574 | after linking a group its object can be stamped exactly when the object's own path is not in the group |
| `OwnStore.OrderDecides` | internal/client/client.go:541-560 | an object renamed to a path that another worker links reads as either of the two, by order |
| `Plan.ScanLocal` | internal/client/client.go:311-360 | the visible files met before the first dangling link, with what stat says of them |
| `Plan.ScanSeesAll` | internal/client/client.go:311-360 | without a dangling link in sight all visible files, in any walk order |
| `Plan.DanglingEndsScan` | internal/client/client.go:343-358 | with one, exactly what comes before it |
| `Plan.PlanDownloads` | internal/client/client.go:142-149 | exactly the remote entries that are missing or differ in size, time or mode, in order |
| `Plan.PlanDeletes` | internal/client/client.go:151-157 | exactly the local paths the remote lacks, in order |
| `Plan.PlanUnique` | internal/client/client.go:142-157 | there is one plan, downloads and deletes in order, whatever the map iteration order |
| `Plan.PlanConserves` | internal/client/client.go:142-157 | local splits into kept, replaced and deleted; deletes and remote are disjoint; downloads are the remote but the kept |
| `Plan.EnforceDeleteGuard` | internal/client/client.go:362-374 | passes exactly when forced, nothing to delete, below the minimum count, or at most ratio times the local count is to be deleted; stated as a bound for passing and as a condition for refusing |
| `Plan.GroupByChecksum` | internal/client/client.go:386-394 | the groups in entry order and the checksums in order |
| `Plan.GroupExact` | internal/client/client.go:386-418 | each group is, in order, exactly the entries of its checksum; the worker's sort changes nothing |
| `Plan.GroupsTotal` | internal/client/client.go:386-389 | the groups together have as many entries as were planned |
| `Mirror.Client.DownloadAll` | internal/client/client.go:376-451 | the disk after the given interleaving |
| `Mirror.Client.DeleteAll` | internal/client/client.go:184-193 | the removable planned paths go, and as many are counted as went |
| `Mirror.Client.ApplyPlan` | internal/client/client.go:176-193 | deletes happen only after downloads that ended without an error |
| `Mirror.Client.Run` | internal/client/client.go:136-203 | a tripped guard or a dry run changes nothing; otherwise the plan of this scan and remote is applied; unforced and from the minimum count on, at most ratio times the local count is deleted |
| `Converge.JobIsGood` | internal/client/client.go:386-418 | the groups of a truthful manifest's plan are disjoint and well formed, so all results about `downloadAll` apply |
| `Converge.CanSucceedExactly` | internal/client/client.go:176-193 | with an honest server a run can succeed exactly when nothing obstructs its planned paths and every planned object is cached or can still be fetched |
| `Converge.FileAfter` | internal/client/client.go:547-576 | after a successful run every remote path has its true content and the metadata of the entry that stamped its object |
| `Converge.ContentConverges` | internal/client/client.go:142-193 | after a successful run a scan lists exactly the remote paths with their contents and meets no dangling link |
| `Converge.ConvergesExactly` | internal/client/client.go:567-572 | sizes, times and modes match the remote exactly when entries that share an object agree with the one that stamps it |
| `Converge.Converges` | internal/client/client.go:142-193 | the next plan is empty exactly under that condition, so always when equal checksums agree on mode and time |
| `Converge.RunAccounts` | internal/client/client.go:176-193 | the report counts all planned entries, all deletes, and as bytes the sizes of the objects not cached at the right size |
| `Converge.SettledStays` | internal/client/client.go:142-193 | once converged, every further run changes nothing and reports zeros |
| `Converge.ClashNotKept` | internal/client/client.go:145 | two links to one object cannot both pass the quick check when their entries disagree |
| `Converge.NeverSettles` | internal/client/client.go:567-572 | equal contents under different metadata leave a non-empty plan after any number of successful runs |
| `Converge.HiddenNeverSettles` | internal/client/client.go:325-342 | a remote path the scan does not look at is in every plan |
| `Converge.OutsideSpot` | internal/client/client.go:176-193 | however a run ends, spots outside remote and planned deletes stay, and a failed run deletes nothing |
| `Converge.OutsideUntouched` | internal/client/client.go:176-193 | what is read there keeps its content always, and stays altogether unless it leads to an object of the plan |
| `Converge.OutsideChangesExactly` | internal/client/client.go:567-572 | after success what is read there has changed exactly when the run stamped its object differently or made it appear |
| `Converge.DirsOutliveDeletes` | internal/client/client.go:184-193 | the directories after a successful run, whatever was deleted from them |
| `Converge.LeftoverDirectoryBlocks` | internal/client/client.go:553-555 | a directory below a planned path makes every run fail |
| `Converge.RemoteAnyMoment` | internal/client/client.go:553-562 | at every moment of every run a remote path is as it was, or missing, or leads to its remote content |
| `Converge.DanglingKeepsStale` | internal/client/client.go:343-358 | a stale file met after a dangling link outlives a successful run |
| `Converge.CancelledRunDeletes` | internal/client/client.go:412-415 | a cancelled loop can end without error and without downloads, and the deletes still happen |
| `EndToEnd.TreeUpstream` | internal/server/snapshot_indexer.go:83-120 | the manifest of a tree is truthful, its copies agree when the tree's do, and with a descendant-closed excluder all of it is in the client's sight |
| `EndToEnd.AppliedMirrors` | internal/client/client.go:131-203 | a successful run makes the visible target equal the non-excluded source files in content, mode and time, and every next plan empty |
| `EndToEnd.ManifestProperExactly` | internal/server/snapshot_indexer.go:186-226 | a manifest has only proper paths exactly when the source offers no file in the client's own directories |
| `EndToEnd.OwnStoreListed` | internal/server/snapshot_indexer.go:186-226 | an object of a target that is served as a module is listed under its own path and checksum |
| `EndToEnd.ListedExact` | internal/server/snapshot_indexer.go:72-120 | the manifest for a source path is that of the directory of its components, and empty when the path climbs |
| `EndToEnd.ClimbingPlansDeletes` | internal/client/client.go:142-157 | a run for a path that climbs downloads nothing and plans to delete every file the scan found |
| `EndToEnd.HiddenExactly` | internal/client/client.go:325-342 | the scan passes over a path exactly when it begins with a reserved name, or it or a directory above it is excluded |
| `EndToEnd.ExcludedUntouched` | internal/client/client.go:337-342 | a path the shared excluder matches is never downloaded or deleted; its spot and content stay, and all that is read there unless it leads to an object of the plan |
| `EndToEnd.ExcludedChangesExactly` | internal/client/client.go:567-572 | after success it reads differently exactly when the run stamped its object with another mode or time, or made it appear |
| `Histories.HistoryKeepsLinks` | internal/client/client.go:136-203 | from a target without files, after any history of stopped, failed, cancelled and successful runs against one remote, all files are links to present objects with their contents |
| `Histories.HistoryMirrors` | internal/client/client.go:136-203 | so the next success mirrors the remote with nothing assumed of the disk or of the quick check |
| `FirstRun.FirstRunMirrors` | internal/client/client.go:131-203 | for every good tree and descendant-closed excluder some run from the empty disk with an honest server succeeds and mirrors it |
| `FirstRun.HistoryMirrorsTree` | internal/client/client.go:131-203 | after any history from a target without files the next success makes the target a mirror of the tree |
| `EndToEnd.Synchronise` | internal/client/client.go:131-203 | rebuild, admission of the source path, snapshot, pages and run composed: it is refused exactly when the path is not admitted, fails to fetch exactly when a request is not served, and otherwise answers what the run on exactly this manifest answers, be it a tripped guard, a dry run or the applied plan; for paths that do not climb success mirrors the tree |

## Left out

- HTTP handlers' routing and encoding, JSON, tokens, the websocket wait and the retries around session creation, audit and process logs, command-line and YAML handling: plumbing with little state.
- Which owner a busy lock names when several overlap: the source's answer depends on map order; the model allows any of them. Sorting the directory listing in `IsLocked` is not modelled for the same reason.
- Windows path rules: drive letters and backslashes.
- Latency and fairness of lock waiters.
- A file of the target that has the name of one of the client's own directories, which makes every run fail before its downloads: `Completion.CompletesExactly` and `Converge.CanSucceedExactly` ask that there is none.
- Errors while walking or reading a tree: a scan of a module is good or fails as a whole (`Rebuild`, `OnTick`), a scan of the target fails only by a dangling link.
- Symlinked source directories, and foreign links in the target that lead elsewhere than into the object store. Directories of the target are names; their modes and times are not modelled.
- The file system's permission bits beyond a number, and a umask.
- fsnotify overflow, changes between the initial rebuild and watch registration, and changes hidden by a failed rebuild; the last is shown to be lost.
- `CreatedAt` of snapshots, `updatedAt` of the index and the index's own path map, which nothing reads.
- `EndToEnd.Synchronise`: the module lock and the session tables, which the session handler consults as well, are proved about on their own; the excluder is given, the same one on both sides.
- Session objects are values in a table; the reference a commit handler holds after its session was cleaned away is not modelled.
- SHA-256, `filepath.Match`, `regexp` and RFC 3339 text are parameters. Convergence needs the contents involved to be free of collisions.
- The decimal text of cursors: a parameter is absent, not a number, or a number.
- `EnforceDeleteGuard`: the ratio is a real number, so rounding of the floating-point quotient is not modelled.
- `Mirror.Client.DownloadAll`: each fetch, each replacement of a path by its link, and each stamping of an object is one step; a failing replacement can leave some directories made, and the old path or none. The staging directory under the session id holds nothing in the source and is left out, as is the unused single-entry variant of the download.
- `commitSession` after a run: its failure makes the run report an error after everything was applied. So a run cancelled from outside, as in `Converge.CancelledRunDeletes`, reports an error once its deletes are done.
