# Fintwind build-cache, watcher and plugin models

A Dafny model of the stateful logic in Fintwind's build scripts and OpenCode plugins, with proofs of what that
logic promises. `dafny verify dfyconfig.toml` checks all of it. Each module stands for one component:

| module | component |
|---|---|
| `Options`, `Ordering`, `Paths`, `Splitting` | optional values, Python's stable `sorted`, path names (`rpartition`, `count`, parents), `split` |
| `CanonicalJson` | the compact key-sorted JSON text that `digest` hashes, and a parser that undoes it |
| `SubtreeHashes` | `identity`, the specification of a subtree's hash, and the loop of `subtree_hashes` |
| `FileTree`, `Stamping` | a tree of files, directories and links; the checked timestamp write and the loops around it |
| `SourceStamps`, `PackageRestore` | `scan`/`visit`, the flat comparison and the restore of one vendored package |
| `Workspace`, `Snapshot`, `Capture` | `inputs`, `validate`, `capture` and `verify` |
| `Restore`, `RestoreSafety`, `Witness` | the restore loop, what it guarantees, and a concrete case of all its hypotheses |
| `DevWatcher` | the single-flight build queue of `scripts/dev.ts` as a transition system |
| `BrowserCall` | one browser call and the set of live calls of a plugin instance |
| `ContextAccounting`, `ContextCounters`, `ContextSession`, `WriteChain` | the token composition and what each counter holds; the frozen instruction; the chain of storage writes, through unloading |
| `LogStream` | the incremental log splitter |
| `Retention` | the cache retention planner and its interruptible deletion loop |
| `FileTarget` | location suffixes and percent decoding |

## How the model is built

**The stamp cache.** A tree is a map from path to node (kind, mode, size, content, time). A snapshot entry is the raw
JSON object, so a saved entry may carry any keys at all. The hash is a parameter. It is never assumed injective;
the lemmas ask only that it does not collide on the texts actually hashed in the two compared listings. Nothing is
assumed about the JSON encoding: the parser in `CanonicalJson` undoes the printer. The fast comparison is then proved to
decide what a full comparison of the subtrees decides, and everything about `restore` follows from that. While a
restore runs, `world` says how the rest of the machine changes the tree before each step; a restore that finds
its entry changed stops there, as `set_time` does. `Quiet()` is the world in which nobody else writes.

A scan reads the metadata of every path twice; `again` is what the second read finds.

**The watcher.** An `await` that really waits ends a step. An event is a file change, the timer, the end of a build, the
end of a stopped process, the death of a process, its exit callback, or a signal. `await stopApp()` with no live
process, also at startup, goes on in the same step, as nothing but already queued callbacks can run in between. The `log`
in the state is bookkeeping for the statements (start revisions of builds, launches, live processes). The two startup
details are modelled as written: the startup launch starts no drain and does not look at `stopping`. `StrandedRun` and
`LaunchAfterSignal` are concrete runs showing both, and `StrandedExactly` and `LaunchAfterStopExactly` say when they happen.

**The browser plugin.** All calls of a process use one address. `setup` first probes the bridge over it, and registers tools
only if the probe made its socket and was greeted. So no call is ever made with an address for which `new WebSocket`
throws, although `request` by itself would leave such a call in the set (`ProbeKeepsBadPortsOut`).

**Promises that hold on a condition.** The pre-image of `digest` is injective on strings of Unicode scalar values.
A Python `str` may also hold lone surrogates; a high one followed by a low one prints like the character they
spell (`SplitPairCollides`, `TextCollidesExactly`). This is a fact about the printer: neither `json.loads` nor a file name
yields such a pair. Log lines come out right exactly while no unterminated text exceeds the limit at the end of a
read (`LinesExactlyWithinLimit`), and for every chunking exactly when no line exceeds it (`AllChunkingsExactly`).
Storage writes keep the order of acceptance, except that a hook suspended during unloading may have its write accepted
while unloading waits; a write of the same session accepted after the map is cleared is not chained behind it
(`OrderExactly`, `Overtaking`).

**Imperative parts.** Where the source updates objects or variables in loops, the model is a class or a method
with loop invariants, specified by a pure function: `Stamping.Disk`, `SourceStamps.Scanner`, `DevWatcher.Watcher`,
`BrowserCall.Connection` and `BrowserCall.Plugin`, `LogStream.Stream`, `LogStream.Supervisor`, `ContextSession.Plugin`.
The lemmas speak about those functions. Beside the specification functions stand lemmas, many named `...Exactly`, that
say in terms of the fields, events and literal limits themselves what such a function decides.

## Model

| member | source | states |
|---|---|---|
| `Ordering.SortOfKeys` | scripts/cargo-cache-workspace.py:128-130 | sorting the keys of a dictionary by a linear order gives its set in order, whatever order the keys came in |
| `Ordering.SortIsStable` | scripts/cargo-cache-retention.py:70-85 | the sort puts ties in the order they came in |
| `CanonicalJson.RoundTrip` | scripts/cargo-cache-workspace.py:46-47 | parsing a printed value followed by any text that does not extend a number gives back the value and that text |
| `CanonicalJson.PrintIsInjective` | scripts/cargo-cache-workspace.py:46-47 | two values with the same pre-image are the same value |
| `CanonicalJson.TextRoundTrip` | scripts/cargo-cache-workspace.py:46-47 | a printed `str` of arbitrary code points reads back as its merged form, and as itself if and only if it holds no split surrogate pair |
| `CanonicalJson.TextCollidesExactly` | scripts/cargo-cache-workspace.py:46-47 | two `str` values of arbitrary code points print alike if and only if they spell the same UTF-16 units, and without split pairs only if they are equal |
| `CanonicalJson.SplitPairCollides` | scripts/cargo-cache-workspace.py:46-47 | a fact about the printer: a split pair and the character it spells print alike |
| `CanonicalJson.StringRoundTrip` | scripts/cargo-cache-workspace.py:46-47 | string escapes are undone on every string of scalar values |
| `CanonicalJson.IntRoundTrip` | scripts/cargo-cache-workspace.py:46-47 | decimal integers of either sign are undone whatever follows, unless a digit does |
| `SubtreeHashes.HashesDecide` | scripts/cargo-cache-workspace.py:123-131 | two hashes at a name are equal if and only if the two listings agree, at every name at or below it, on everything except `mtime_ns` |
| `SubtreeHashes.HashesDecideForward` | scripts/cargo-cache-workspace.py:123-131 | equal hashes leave no difference anywhere below, provided no texts in play collide |
| `SubtreeHashes.HashesDecideBackward` | scripts/cargo-cache-workspace.py:123-131 | equal subtrees have equal hashes, for any hash function |
| `SubtreeHashes.EqualHashes` | scripts/cargo-cache-workspace.py:46-51 | equal hashes of two nodes, even at different names, give equal names, identities and child hashes |
| `SubtreeHashes.IdentityKeepsTheRest` | scripts/cargo-cache-workspace.py:50-51 | two entries have the same identity if and only if they agree on every key but `mtime_ns` |
| `SubtreeHashes.ComputeHashes` | scripts/cargo-cache-workspace.py:123-131 | the bottom-up loop computes the recursive hash at every name; it looks up an unset child if and only if the empty name is an entry |
| `SubtreeHashes.GroupByParent` | scripts/cargo-cache-workspace.py:124-126 | the `children` lists hold each name under its parent, once |
| `SubtreeHashes.SortedDeepestFirst` | scripts/cargo-cache-workspace.py:128 | the deepest-first order of any listing of the names visits each once and no child at or after its parent |
| `FileTree.WalkTo` | scripts/cargo-cache-workspace.py:135-138 | walking the components reaches the node if and only if it exists and is no link, since every ancestor is then a directory |
| `FileTree.PreOrderMembers` | scripts/cargo-cache-source-stamps.py:49-60 | the walk meets exactly the paths at or below its root |
| `FileTree.PreOrderDistinct` | scripts/cargo-cache-source-stamps.py:49-60 | the walk meets no path twice |
| `FileTree.PreOrderParentsFirst` | scripts/cargo-cache-source-stamps.py:49-60 | the walk meets every directory before what is in it |
| `Stamping.Disk.SetTime` | scripts/cargo-cache-workspace.py:134-142 | stamps the named node if and only if its time, mode and (for a file) size are still those of the entry, and otherwise changes nothing |
| `Stamping.StepExactly` | scripts/cargo-cache-workspace.py:134-142 | one step either sets the one time and logs the one write, or ends the run with the tree as it was found |
| `SourceStamps.GuardExactly` | scripts/cargo-cache-workspace.py:139-141 | the comparison before a write is exactly that the path is there, is no link, and has the scanned time, mode and, for a file, length |
| `Stamping.Perform` | scripts/cargo-cache-workspace.py:219-230 | a restore loop over a plan ends in the tree and with the writes of the specification run, stopping at its first failed step |
| `Stamping.WritesFollowThePlan` | scripts/cargo-cache-workspace.py:219-230 | whatever others write meanwhile, the writes are those of a prefix of the plan, and of all of it unless the next step found, in the tree as it then was, that its entry had changed |
| `Stamping.WriteOrigin` | scripts/cargo-cache-workspace.py:219-230 | each write is that of one step of the plan and no name is written twice |
| `Stamping.KeptUnlessStamped` | scripts/cargo-cache-workspace.py:219-230 | a path nobody else touches is, wherever the loop has stopped, as it was or at the one time planned for it |
| `Stamping.QuietRun` | scripts/cargo-cache-workspace.py:219-230 | with nobody else at work the loop completes, every planned time is set and nothing else changes |
| `SourceStamps.Scanner.Visit` | scripts/cargo-cache-source-stamps.py:49-82 | the recursive visit succeeds if and only if its subtree is regular, within the entry and byte limits given what was counted before, and unchanged at the second metadata read of every path; it then appends exactly that subtree's entries |
| `SourceStamps.ScanTree` | scripts/cargo-cache-source-stamps.py:40-85 | a scan succeeds if and only if the root is a real directory, its subtree fits and nothing in it changed during the read; it returns the entries of the pre-order walk |
| `SourceStamps.ScanIsComplete` | scripts/cargo-cache-source-stamps.py:40-85 | a successful scan lists exactly the tree below the root, once each, parents first, within both limits |
| `SourceStamps.ScannableExactly` | scripts/cargo-cache-source-stamps.py:40-85 | a tree can be scanned if and only if its root is a directory, it holds only files and directories, at most 20,000 of them, of at most 128 MiB |
| `SourceStamps.SteadyExactly` | scripts/cargo-cache-source-stamps.py:61-78 | two reads of a path agree if and only if the second would have given the same entry, up to the hash, of the same inode |
| `SourceStamps.IdentityIgnoresTime` | scripts/cargo-cache-workspace.py:50-51 | an entry's identity is the same at every modification time |
| `SourceStamps.RelOfChild` | scripts/cargo-cache-source-stamps.py:59-60 | the name `visit` passes to a child is that child's path seen from the root |
| `PackageRestore.IsCompatible` | scripts/cargo-cache-source-stamps.py:143-151 | the loop answers whether both sides name the same paths and agree on the four scanned keys everywhere |
| `PackageRestore.FlatAgreesWithMerkle` | scripts/cargo-cache-source-stamps.py:143-151 | on entries with only the scanned keys, the flat comparison is true if and only if the subtree hashes at the package root are equal |
| `PackageRestore.RestorePackage` | scripts/cargo-cache-source-stamps.py:202-230 | a package that cannot be scanned, changes while it is read or fails the comparison has no timestamp touched; any other gets its plan carried out |
| `PackageRestore.SafeAtEveryPrefix` | scripts/cargo-cache-source-stamps.py:217-229 | stopped anywhere by any failure, each path that others leave alone is as scanned or, inside the package, at its saved time |
| `PackageRestore.EveryWriteIsPlanned` | scripts/cargo-cache-source-stamps.py:217-229 | under any interference each write is inside the package, of a saved time that differs from the scanned one, and of no name a second time |
| `PackageRestore.ChangedIsNotStamped` | scripts/cargo-cache-source-stamps.py:220-229 | a step sets its time if and only if the path still looks as scanned; otherwise the restore ends and never writes it |
| `PackageRestore.CompletedRestore` | scripts/cargo-cache-source-stamps.py:211-230 | undisturbed, the restore leaves every entry of the package at its saved time and everything else as it was |
| `PackageRestore.DirectoriesComeLast` | scripts/cargo-cache-source-stamps.py:212-216 | a directory is stamped after everything inside it |
| `PackageRestore.FilesComeFirst` | scripts/cargo-cache-source-stamps.py:214-216 | files before directories, deeper names first within each, and longer names first among equally deep ones |
| `Workspace.Inputs` | scripts/cargo-cache-workspace.py:54-79 | succeeds if and only if every present input is readable, within the limits and unchanged at its second metadata read, and returns one entry per input in path order |
| `Workspace.ReadableExactly` | scripts/cargo-cache-workspace.py:54-79 | which workspaces can be listed: every tree that exists can be scanned, the root files are files, and there are at most 30,000 inputs |
| `Workspace.RootSteadyExactly` | scripts/cargo-cache-workspace.py:66-73 | a root file counts as unchanged if and only if its second read finds the same inode with the same time and length |
| `Workspace.ListTrees` | scripts/cargo-cache-workspace.py:56-61 | succeeds if and only if every tree that exists can be scanned and none changes meanwhile; the ten trees contribute every path below them once, renamed from scan-relative to workspace paths |
| `Workspace.ListFiles` | scripts/cargo-cache-workspace.py:62-76 | the root files contribute one entry each if present, and fail the listing if and only if one is not a regular file or changed in time, size or inode during the read |
| `Workspace.SortByPath` | scripts/cargo-cache-workspace.py:79 | sorting entries by path is listing the sorted paths |
| `Workspace.TreesAreDisjoint` | scripts/cargo-cache-workspace.py:28-30 | no path lies below two of the trees |
| `Snapshot.CheckEntry` | scripts/cargo-cache-workspace.py:92-113 | the checks in their order raise nothing if and only if the entry meets all the stated limits on path, time, mode, kind and file data |
| `Snapshot.EntryExactly` | scripts/cargo-cache-workspace.py:92-113 | the checks accept exactly the entries spelled out path by path, time, mode, kind and file data, with the literal limits |
| `Snapshot.IndexEntries` | scripts/cargo-cache-workspace.py:90-114 | the loop accepts if and only if every entry does and no two names fold alike, and then returns the entries by path |
| `Snapshot.CheckParents` | scripts/cargo-cache-workspace.py:115-117 | true if and only if every nested name has a saved parent that is a directory |
| `Snapshot.Validate` | scripts/cargo-cache-workspace.py:82-120 | accepts exactly the snapshots with matching header, acceptable entries, saved parents and the right hash over the sorted identities |
| `Snapshot.EntriesExactly` | scripts/cargo-cache-workspace.py:87-119 | given a good header, a snapshot is accepted if and only if it has 1 to 30,000 good entries, no two of whose paths fold alike, a saved directory above every nested path, and the hash of its sorted identities |
| `Snapshot.HeaderDecides` | scripts/cargo-cache-workspace.py:83-86 | two accepted snapshots with the same entries agree on schema, cacheability and hash, and on profile and context exactly when they are read under the same |
| `Capture.CaptureIsAccepted` | scripts/cargo-cache-workspace.py:196-202 | the snapshot of a scanned tree is accepted if and only if it is read under the profile and context it was written under and the tree's paths, times and modes are within the limits; it is then the index of that tree |
| `Capture.CaptureWorkspace` | scripts/cargo-cache-workspace.py:168-173 | what `capture` writes under one profile and context is accepted under another pair if and only if they are the same, the tree could be read, did not change meanwhile, and is portable |
| `Capture.Verify` | scripts/cargo-cache-workspace.py:198-212 | `verify` is cacheable if and only if the tree could be read unchanged, the snapshot is accepted and lists exactly the current entries, and the expected key, if any, ends in the two hashes |
| `Capture.PreparedKeyExactly` | scripts/cargo-cache-workspace.py:208-210 | a prepared key matches if and only if it was made for the same compatibility hash and from the same input hash |
| `Capture.ListingDecides` | scripts/cargo-cache-workspace.py:207 | two trees list alike if and only if their inputs agree in path, kind, mode, time and content |
| `Capture.VerifyAfterCapture` | scripts/cargo-cache-workspace.py:196-212 | the capture of one tree verifies another if and only if it is read under its own profile and context, is acceptable, nothing differs and the key matches: any edit, chmod, touch, addition or removal is caught, and any other toolchain |
| `Restore.RestoreLoop` | scripts/cargo-cache-workspace.py:219-230 | the loop with its hash lookups carries out the plan and counts as the specification counts |
| `Restore.RestoreFrom` | scripts/cargo-cache-workspace.py:213-230 | both tables of hashes, the visiting order and the loop together carry out the plan of the full comparison |
| `Restore.RestoreWorkspace` | scripts/cargo-cache-workspace.py:198-230 | without a tree that could be read unchanged and an accepted snapshot nothing is touched; otherwise the plan is carried out |
| `Restore.CaptureIsUsable` | scripts/cargo-cache-workspace.py:198-205 | a restore uses a capture if and only if it was made under the same profile and context and the current tree is readable |
| `Restore.TallySums` | scripts/cargo-cache-workspace.py:218-230 | the three counters always sum to the number of entries done |
| `Restore.TallyCounts` | scripts/cargo-cache-workspace.py:218-230 | each counter is the number of distinct entries of its own class: unchanged files, unchanged directories, changed |
| `RestoreSafety.SituationExactly` | scripts/cargo-cache-workspace.py:213-215 | an accepted snapshot and a readable tree meet what the restore statements ask for if and only if no two different texts hashed in them collide |
| `Witness.EditedFile` | scripts/cargo-cache-workspace.py:213-230 | a hash with 64 hexadecimal digits, a one-file workspace and an edit of it that meet all of it, with the file counting as changed |
| `RestoreSafety.UnchangedIsSame` | scripts/cargo-cache-workspace.py:221-222 | a name matches if and only if it was saved and the full comparison of its subtree finds no difference |
| `RestoreSafety.ChangesReachUpwards` | scripts/cargo-cache-workspace.py:219-230 | an edit, addition or deletion spoils every present directory above it |
| `RestoreSafety.DirectoriesComeLast` | scripts/cargo-cache-workspace.py:219-220 | every input inside a directory is stamped before it |
| `RestoreSafety.FilesComeFirst` | scripts/cargo-cache-workspace.py:219-220 | all files are visited before all directories, and the deeper paths first within each |
| `RestoreSafety.SafeAtEveryPrefix` | scripts/cargo-cache-workspace.py:219-230 | stopped anywhere by any failure, each path that others leave alone holds its scanned time, or its saved time over an identical subtree, or the dirty time over a changed one, whatever others do elsewhere |
| `RestoreSafety.ChangedIsNotStamped` | scripts/cargo-cache-workspace.py:134-142 | a step with a time to set does so if and only if the path still looks as it was scanned; otherwise the loop ends there and the path is never written |
| `RestoreSafety.EveryWriteIsPlanned` | scripts/cargo-cache-workspace.py:219-230 | under any interference and any abort, a changed subtree is only ever stamped dirty and an unchanged one only with its saved time, if it has another, and no name is written twice |
| `RestoreSafety.CompletedRestore` | scripts/cargo-cache-workspace.py:219-230 | undisturbed, the loop completes and each path has its target time |
| `RestoreSafety.RestorePreservesTheVerdict` | scripts/cargo-cache-workspace.py:213-230 | for any watched inputs no younger than their artifact at capture, the build tool finds them fresh if and only if every watched subtree is unchanged, whatever times the checkout brought |
| `RestoreSafety.VerdictOverContents` | scripts/cargo-cache-workspace.py:213-230 | the same over what is in the files: after restoring a capture, the unit is fresh if and only if below every watched path the inputs have the captured kinds, modes and contents |
| `RestoreSafety.ReportIsComplete` | scripts/cargo-cache-workspace.py:166-167 | the counters of a completed restore sum to the number of current entries, and `changedInputs` is the number of changed ones |
| `RestoreSafety.RestoreRecovers` | scripts/cargo-cache-workspace.py:213-230 | over unchanged content with arbitrary times, restore recovers every captured input exactly |
| `RestoreSafety.CaptureRestoreVerify` | scripts/cargo-cache-workspace.py:196-232 | capture, arbitrary time changes, restore, verify: the snapshot is accepted and verify succeeds if and only if profile and context are its own and the key is absent or matches |
| `RestoreSafety.InputHashDecides` | scripts/cargo-cache-workspace.py:173-174 | two trees have the same input hash if and only if they hold the same inputs with the same kinds, modes and contents, whatever their times |
| `DevWatcher.StepKeepsInv` | scripts/dev.ts:124-231 | every event keeps the watcher's whole invariant |
| `DevWatcher.RunKeepsInv` | scripts/dev.ts:124-231 | so does every run |
| `DevWatcher.NoChangeIsLost` | scripts/dev.ts:105-138 | in every reachable state, an app revision past the last started app build means the debounced and queued targets join to `app`, and any revision past the last started build means something is pending |
| `DevWatcher.RevisionsCountChanges` | scripts/dev.ts:124-127 | over every run the two revisions are the numbers of app changes and of all changes reported while not stopping, whatever the watcher was doing |
| `DevWatcher.ChangeIsServed` | scripts/dev.ts:105-138 | every change reported before stopping is still waiting at the end of the run, or a build that serves it was started after it, with the revisions of that later moment |
| `DevWatcher.WaitsOrStarts` | scripts/dev.ts:130-194 | no event makes a waiting change stop waiting except the start of a build that serves it |
| `DevWatcher.OneBuildOneApp` | scripts/dev.ts:158-195 | at most one build runs, at most one drain is active, at most one owned app is alive |
| `DevWatcher.LaunchesAreCurrent` | scripts/dev.ts:181-189 | each launch uses a build of the revision then current, or an app rebuild is already pending; only the startup launch can come after `stopping` |
| `DevWatcher.LaunchesExactly` | scripts/dev.ts:167-221 | an event launches an app if and only if it ends a current first build, ends a current app build with no live process in its way, or ends the wait for the old process; the new process is then the owned one |
| `DevWatcher.WaitsForTheOldApp` | scripts/dev.ts:57-66 | a current app build that finds the owned process alive lets go of it and waits for it, leaving the queue as it is |
| `DevWatcher.TimerAndStop` | scripts/dev.ts:130-137 | the timer empties the debounced slot; only a signal or the end of the owned app stops the watcher, and for good |
| `DevWatcher.RestartIsNoShutdown` | scripts/dev.ts:77-85 | the exit of a process that `stopApp` let go of never stops the watcher; only the exit of the owned app does |
| `DevWatcher.NoWakeupIsLost` | scripts/dev.ts:130-137 | a queued build with neither `stopping` nor a drain exists only where startup left it, and is then daemon-only |
| `DevWatcher.AwakeFromTimer` | scripts/dev.ts:130-137 | from the first timer that fires after startup on, in every later state of every run a queued build means a drain is active, unless stopping |
| `DevWatcher.AwakeFromDrain` | scripts/dev.ts:158-195 | the same from any drain on |
| `DevWatcher.StrandedExactly` | scripts/dev.ts:212-227 | the startup branch leaves a queued build without a drain if and only if the first build succeeded, nothing is stopping, something is queued and no app change arrived |
| `DevWatcher.StrandedRun` | scripts/dev.ts:219-221 | a concrete run: a daemon edit whose timer fires during the first build waits with no drain and no timer |
| `DevWatcher.LaunchAfterStopExactly` | scripts/dev.ts:219-221 | a launch after `stopping` happens if and only if the first build ends well after a signal with no app change |
| `DevWatcher.LaunchAfterSignal` | scripts/dev.ts:219-221 | a concrete run: a signal during the first build, and the app is launched and stays alive |
| `DevWatcher.FinallyFindsNothing` | scripts/dev.ts:191-194 | whenever a drain ends in a run, nothing is queued for the restart in `finally` unless the watcher is stopping |
| `DevWatcher.Watcher.ScheduleBuildFor` | scripts/dev.ts:124-138 | bumps the revisions, merges the target into the debounced one and arms the timer, unless stopping |
| `DevWatcher.Watcher.OnTimer` | scripts/dev.ts:130-137 | moves the debounced target into the queue and drains |
| `DevWatcher.Watcher.DrainBuildQueue` | scripts/dev.ts:158-162 | starts a drain unless one is active or the watcher is stopping |
| `DevWatcher.Watcher.NextBuild` | scripts/dev.ts:162-167 | takes the queued target with the revisions of that moment, or ends the drain |
| `DevWatcher.Watcher.OnBuildEnd` | scripts/dev.ts:167-190 | the four ways on after a build: give up, daemon only, stale, or stop the app and launch |
| `DevWatcher.Watcher.OnAppStopped` | scripts/dev.ts:188-190 | launches after the old process is gone, unless stopping, and goes on draining |
| `DevWatcher.Watcher.StopOwnedApp` | scripts/dev.ts:57-66 | lets go of the app, kills it if alive, and waits only for a live one |
| `DevWatcher.Watcher.Launch` | scripts/dev.ts:68-87 | the spawned process becomes the owned app |
| `DevWatcher.Watcher.OnStartupBuildEnd` | scripts/dev.ts:212-227 | exits, launches, or drains only if something is queued |
| `DevWatcher.Watcher.OnExit` | scripts/dev.ts:77-85 | stops the watcher only for the owned app while not stopping |
| `DevWatcher.Watcher.CleanUpAll` | scripts/dev.ts:197-204 | stops once: timer cleared, app let go of |
| `BrowserCall.OneCallIsSafe` | resources/opencode-browser-plugin.ts:252-334 | for every order of events a call settles at most once, sends hello, command and cancel at most once each and in that order, sends its command only after a received hello, and resolves only with an acceptable reply received after that hello |
| `BrowserCall.ResolvesExactly` | resources/opencode-browser-plugin.ts:289-330 | a message resolves an open call if and only if it is authenticated and the message is a success reply with its own id within the limit of its kind |
| `BrowserCall.EndingsReject` | resources/opencode-browser-plugin.ts:269-333 | over every run a socket failure, its end, the timeout and either abort reject an open call and disarm it, with a cancel frame if and only if it is a timeout or an abort after a sent command over an open socket |
| `BrowserCall.MessagesSettle` | resources/opencode-browser-plugin.ts:289-330 | what each message does to an open call: its answer after the hello resolves it, the first hello and the tools state leave it open, anything else rejects it |
| `BrowserCall.CommandFollowsHello` | resources/opencode-browser-plugin.ts:306-313 | the command goes out if and only if the message is the first hello over an open socket |
| `BrowserCall.OpeningGreets` | resources/opencode-browser-plugin.ts:285-288 | an opening socket sends the hello and leaves the call open |
| `BrowserCall.SettledIsOver` | resources/opencode-browser-plugin.ts:259-268 | nothing changes the outcome or the frames of a settled call |
| `BrowserCall.HandleKeeps` | resources/opencode-browser-plugin.ts:259-334 | every handler keeps the call's invariant |
| `BrowserCall.CancelRejects` | resources/opencode-browser-plugin.ts:269-282 | along every run a call that sent a cancel was rejected |
| `BrowserCall.NextKeeps` | resources/opencode-browser-plugin.ts:252-268 | every step of an instance keeps the relation between its calls and its set |
| `BrowserCall.EntersUnlessRefused` | resources/opencode-browser-plugin.ts:213-253 | a call enters the set if and only if none of the local refusals, spelled out with their limits, applies |
| `BrowserCall.ServesExactly` | resources/opencode-browser-plugin.ts:396-399 | an instance serves calls if and only if its probe could make a socket and was greeted |
| `BrowserCall.SessionsAreTheUnsettled` | resources/opencode-browser-plugin.ts:252-268 | in every reachable state of an instance the set is exactly its unsettled calls that passed the local checks |
| `BrowserCall.ProbeKeepsBadPortsOut` | resources/opencode-browser-plugin.ts:182-205 | `request` on its own would leave a rejected call in the set if and only if the port is over 65535; with such an address the probe fails and the instance never serves a call |
| `BrowserCall.StopSettlesAll` | resources/opencode-browser-plugin.ts:388-389 | in every reachable state stopping rejects every unsettled call once, with a cancel frame exactly after a sent command over an open socket, changes no other call and empties the set |
| `BrowserCall.ReachableIsTracked` | resources/opencode-browser-plugin.ts:252-268 | what `Plugin.Stop` asks for holds in every reachable state |
| `BrowserCall.Plugin.OnProbeEnd` | resources/opencode-browser-plugin.ts:396-399 | tools are served only if the probe could make its socket and was greeted |
| `BrowserCall.Connection.EndCall` | resources/opencode-browser-plugin.ts:259-268 | settles an open call, takes it out of the set and touches no other call of the set |
| `BrowserCall.Connection.CancelCall` | resources/opencode-browser-plugin.ts:269-276 | a cancel frame after a sent command on an open socket, then the end |
| `BrowserCall.Connection.OnMessageEvent` | resources/opencode-browser-plugin.ts:289-330 | the branches of the message handler |
| `BrowserCall.Connection.OnEvent` | resources/opencode-browser-plugin.ts:277-333 | the handler of each event |
| `BrowserCall.Plugin.IssueCall` | resources/opencode-browser-plugin.ts:213-256 | only a locally accepted call enters the set |
| `BrowserCall.Plugin.DeliverEvent` | resources/opencode-browser-plugin.ts:285-333 | an event changes its own call and nothing else in the instance |
| `BrowserCall.Plugin.Stop` | resources/opencode-browser-plugin.ts:388-389 | aborting each controller while the handlers shrink the set settles all of them; only this instance's set and calls change |
| `BrowserCall.Load` | resources/opencode-browser-plugin.ts:384-388 | a newly loaded instance shares neither its set nor a call with any other |
| `BrowserCall.EndProbe` | resources/opencode-browser-plugin.ts:396-399 | the end of one probe decides about its own instance only |
| `BrowserCall.CallTool` | resources/opencode-browser-plugin.ts:213-256 | a tool call of one instance leaves every other instance as it was and all of them apart |
| `BrowserCall.HandleEvent` | resources/opencode-browser-plugin.ts:285-333 | so does an event of one of its calls |
| `BrowserCall.UnloadOne` | resources/opencode-browser-plugin.ts:386-389 | unloading one location settles its own calls and leaves every other location's calls and set untouched |
| `LogStream.DecodeConcat` | scripts/cargo-cache-live.py:72-73 | decoding in two calls is decoding in one |
| `LogStream.LinesExactly` | scripts/cargo-cache-live.py:75-78 | the lines of a text are its terminated lines in order, each without all the carriage returns at its end and without anything else missing |
| `LogStream.ChunksDoNotMatter` | scripts/cargo-cache-live.py:72-81 | without a forced flush the emitted lines and the pending rest depend only on the whole text, however it was chunked |
| `LogStream.LinesExactlyWithinLimit` | scripts/cargo-cache-live.py:74-81 | the emitted lines are those of the whole text if and only if no unterminated text exceeds 64 Ki characters at the end of a chunk |
| `LogStream.FlushesExactly` | scripts/cargo-cache-live.py:79-81 | nothing is flushed if and only if that holds |
| `LogStream.AllChunkingsExactly` | scripts/cargo-cache-live.py:74-81 | the lines come out right for every way of chunking a text if and only if none of its lines exceeds 64 Ki characters |
| `LogStream.FeedConserves` | scripts/cargo-cache-live.py:74-81 | one chunk adds exactly its own text, apart from CR and LF, to what was taken in |
| `LogStream.TextIsConserved` | scripts/cargo-cache-live.py:74-86 | flushes or not, the emitted text is the whole text in order apart from CR and LF |
| `LogStream.FinishedExactly` | scripts/cargo-cache-live.py:74-86 | lines and tail come out right if and only if whatever was flushed early had nothing after it |
| `LogStream.CompleteLines` | scripts/cargo-cache-live.py:68-87 | a completed stream emitted the lines of its whole decoded text with carriage returns stripped, and a nonempty tail, if and only if nothing followed a forced flush; in particular when no unterminated text exceeded the limit at the end of a read |
| `LogStream.CompleteText` | scripts/cargo-cache-live.py:68-87 | a completed stream emitted its whole text in order |
| `LogStream.Stream.Turn` | scripts/cargo-cache-live.py:72-81 | one turn keeps the stream's invariant and reads something unless the file is at its end |
| `LogStream.Stream.LastTurn` | scripts/cargo-cache-live.py:72-86 | at the end of the file the final turn completes the stream |
| `LogStream.Supervisor.Supervise` | scripts/cargo-cache-live.py:97-123 | polling while the child writes and then closing leaves both streams complete, over everything the child wrote |
| `LogStream.Supervisor.Close` | scripts/cargo-cache-live.py:121-123 | the closing loop ends, by unread bytes, with both streams complete |
| `Retention.GroupCaches` | scripts/cargo-cache-retention.py:57-67 | each recognised cache on main is in the list of its own group, in the order of arrival |
| `Retention.PlanGroup` | scripts/cargo-cache-retention.py:69-79 | a group adds exactly its removable members, each once |
| `Retention.Plan` | scripts/cargo-cache-retention.py:57-85 | the plan holds exactly the removable caches, each once, oldest first |
| `Retention.PlannedExactly` | scripts/cargo-cache-retention.py:57-85 | which caches are planned: of a kind with a v3, every older version and each v3 outranked by two builds or one download, in time and then in listing order; and the legacy ones once a v3 release check exists |
| `Retention.NewestAreKept` | scripts/cargo-cache-retention.py:69-79 | a group keeps as many v3 caches as its quota (two builds, one download) or all there are, none older than one it gives up |
| `Retention.UntouchedCaches` | scripts/cargo-cache-retention.py:58-84 | nothing off main, with an unknown key, in a group without v3, or legacy without a v3 release check is planned |
| `Retention.BytesAfterPlan` | scripts/cargo-cache-retention.py:86-88 | `bytesAfterPlan` is the size of exactly the retained caches |
| `Retention.DeletePlanned` | scripts/cargo-cache-retention.py:93-109 | nothing is deleted while another run is active or without `--apply`; otherwise the deletions are the planned prefix before the first turn that does not delete, and the report says why |
| `Retention.FilterSort` | scripts/cargo-cache-retention.py:70-85 | leaving elements out commutes with the stable newest-first sort |
| `Retention.ProtectionIsStable` | scripts/cargo-cache-retention.py:69-79 | deleting planned caches changes no group's protected ones |
| `Retention.ReplanIsTheRest` | scripts/cargo-cache-retention.py:68-109 | planning again after any part of the plan was deleted gives exactly the undeleted rest |
| `Retention.ReplanAfterSweep` | scripts/cargo-cache-retention.py:99-109 | after an interrupted sweep replanning finds the remaining suffix, and nothing after a full one |
| `FileTarget.StripsLineAndColumn` | src/file_target.rs:20-27 | stripping `p:l:c` gives `p`, for every path |
| `FileTarget.StripsLine` | src/file_target.rs:20-27 | stripping `p:l` gives `p` if and only if `p` does not itself end in a colon and a positive number, and what it gives otherwise |
| `FileTarget.StripsFragment` | src/file_target.rs:11-19 | stripping `p#Ll` or `p#LlCc` gives `p`, for every path |
| `FileTarget.StripsNothingElse` | src/file_target.rs:10-29 | a target is left as it is if and only if it ends in none of the three forms of location |
| `FileTarget.NumeralsExactly` | src/file_target.rs:4-8 | the numeral of a number counts as a line or column if and only if it is from 1 to the largest 64-bit number |
| `FileTarget.LeadingZeros` | src/file_target.rs:4-8 | leading zeros make no difference |
| `FileTarget.UnescapeLoop` | src/file_target.rs:98-109 | the iterator loop computes the recursive unescaping, failing on the same inputs |
| `FileTarget.UnescapeSpelled` | src/file_target.rs:98-109 | every spelling of a byte string unescapes to it |
| `FileTarget.SpelledByUnescape` | src/file_target.rs:98-109 | an input that unescapes spells the result, and one that does not spells no byte string |
| `FileTarget.DecodeInvertsEncode` | src/file_target.rs:98-111 | decoding inverts the percent-encoding of section 2.1 of RFC 3986 on every byte string, with digits of either case |
| `FileTarget.DigitsExactly` | src/file_target.rs:103-104 | the hexadecimal digits of both cases are read with their values, and nothing else is |
| `FileTarget.Decode` | src/file_target.rs:98-111 | decoding gives a text if and only if the input spells bytes that are its UTF-8, and nothing if it spells no text |
| `ContextAccounting.CountText` | resources/opencode-context-plugin.ts:88-96 | the counting loop computes the estimate: a quarter of the ASCII characters rounded up, plus the others |
| `ContextAccounting.EstimateExactly` | resources/opencode-context-plugin.ts:88-96 | the estimate is one for every four ASCII characters, begun ones included, and one for every other character |
| `ContextAccounting.SplitEstimate` | resources/opencode-context-plugin.ts:88-96 | parts split at code points are estimated at no less than their concatenation, and above it by at most three quarters each and k-1 in all |
| `ContextAccounting.Compose` | resources/opencode-context-plugin.ts:169-238 | the nested loops, with the call names they remember, record exactly the measures of the system parts, tools and message parts |
| `ContextAccounting.CompositionConserves` | resources/opencode-context-plugin.ts:169-238 | the eight counters sum to all estimates, each is the sum of its own, and each flag is set if and only if some part sets it |
| `ContextCounters.CountersAreDue` | resources/opencode-context-plugin.ts:169-238 | each of the eight counters is the sum of the estimates of exactly the parts that meet its own condition on the fields of the part and its message: texts by summary, instruction, attachment or neither, reasoning, compaction, calls, results of reads and of other tools, system parts and tools |
| `ContextCounters.CompositionOf` | resources/opencode-context-plugin.ts:169-238 | there is a composition if and only if the event has a session, a model, a system list and a message list; its counters are those sums, it is incomplete if and only if something could not be counted, and its two opaque flags say if some reasoning or memory hides content |
| `ContextAccounting.UnnamedResultsFollowTheirCall` | resources/opencode-context-plugin.ts:192-222 | a result that names no tool is counted as a file if and only if the latest call with its id, anywhere earlier in the request, was a read |
| `ContextAccounting.EveryPartIsMeasuredOnce` | resources/opencode-context-plugin.ts:192-235 | the measures of the walk are, one for one and in order, those of the message parts, each knowing the tool names of exactly the calls before it |
| `ContextAccounting.CountResult` | resources/opencode-context-plugin.ts:122-141 | the loop over a tool result adds the estimates of its text items and marks it incomplete if some item is no text |
| `ContextAccounting.IncompleteExactly` | resources/opencode-context-plugin.ts:169-238 | a composition is incomplete if and only if some system part, tool, message or message part was skipped, opaque or unreadable |
| `ContextAccounting.EveryPartIsAccountedFor` | resources/opencode-context-plugin.ts:143-235 | a message part marks the composition incomplete if and only if it is of no known kind, without its text, opaque, or a result that cannot be read; the two opaque flags are exact; what is in no bucket counts nothing |
| `ContextAccounting.OpaqueExactly` | resources/opencode-context-plugin.ts:143-153 | a part is opaque if and only if it is encrypted, or provider metadata stands in for its text or carries one of the five seals |
| `ContextAccounting.StoredRoundTrip` | resources/opencode-context-plugin.ts:106-120 | a stored composition is read back if and only if its counters are safe integers |
| `ContextAccounting.ParseExactly` | resources/opencode-context-plugin.ts:106-120 | a value is read back as a composition if and only if it is an object with every field of that composition's stored form and its counters are safe |
| `ContextSession.InstructionIsFrozen` | resources/opencode-context-plugin.ts:435-463 | over every run of failing lookups, changing metadata and concurrent requests, all requests let through for a session carry the same instruction or all carry none |
| `ContextSession.ResumesWithItsAnswer` | resources/opencode-context-plugin.ts:461-462 | a request whose lookup has an answer goes through with that answer, one whose lookup failed fails, and no other request changes |
| `ContextSession.LookupsAreShared` | resources/opencode-context-plugin.ts:436-437 | a lookup in flight or answered is the one every later request of its session waits for |
| `ContextSession.FailedLookupIsRetried` | resources/opencode-context-plugin.ts:453-457 | after a failed lookup the next request of the session looks the metadata up again, and other sessions keep theirs |
| `ContextSession.RunKeeps` | resources/opencode-context-plugin.ts:435-459 | of a session's promises at most one has not failed, and it stays the saved one |
| `ContextSession.HooksAddOnce` | resources/opencode-context-plugin.ts:460-467 | however often the hook runs on an event it does what it did the first time, adding the instruction only if the list lacked it |
| `WriteChain.NextKeeps` | resources/opencode-context-plugin.ts:474-481 | every acceptance, start, end and step of unloading keeps the invariant of the chain |
| `WriteChain.WritesInAcceptanceOrder` | resources/opencode-context-plugin.ts:474-481 | when a session's write has started, every earlier accepted one is over and was started before it, failed ones included; the one exception is a write accepted while unloading waits, followed by one after the map was cleared |
| `WriteChain.OrderExactly` | resources/opencode-context-plugin.ts:509-518 | every timing of given acceptances keeps the order if and only if no session is accepted both while unloading waits and after it has cleared the map |
| `WriteChain.Overtaking` | resources/opencode-context-plugin.ts:509-518 | for any acceptances with such a pair, a reachable state in which the later write has started and the earlier one has not ended |
| `WriteChain.FailuresDoNotBlock` | resources/opencode-context-plugin.ts:474-481 | the oldest unstarted write of a session can start as soon as those before it are over, failed or not |
| `ContextSession.Plugin.Instruction` | resources/opencode-context-plugin.ts:435-459 | one lookup is shared by all who ask while it has not failed |
| `ContextSession.Plugin.Begin` | resources/opencode-context-plugin.ts:460-461 | the hook up to its `await` joins the saved or a new lookup |
| `ContextSession.Plugin.Caught` | resources/opencode-context-plugin.ts:455-457 | a failed lookup takes out its own entry and no later one |
| `ContextSession.Plugin.Store` | resources/opencode-context-plugin.ts:475-480 | the new write is chained behind the session's last one and becomes the last |
| `ContextSession.Plugin.AwaitWrites` | resources/opencode-context-plugin.ts:509-514 | unloading waits for the writes that are last in their sessions at that moment |
| `ContextSession.Plugin.ClearMaps` | resources/opencode-context-plugin.ts:515-518 | after that wait both maps are cleared |

## Left out

- SHA-256, `casefold`, the UTF-8 decoders, `JSON.stringify` and the tree's contents are parameters. A decoder is given by its state and step functions, so that the incremental law is proved, not assumed.
- JSON numbers with a fraction or exponent, `NaN` and `Infinity`: the scripts store integers only. Reading back a stored snapshot is taken to give the value that was written, since indentation does not change it.
- What a scan reads of different paths at different times is one tree; a change that leaves time, size, mode and inode as they were goes unnoticed, as in the source.
- A directory's size is taken as 0 where a restore compares sizes, as on Windows, where these caches live; elsewhere the size of a directory found in place of a file is one more difference that stops the restore.
- CanonicalJson.RoundTrip: values whose strings hold lone surrogates, or numbers that are not integers, are outside its value type; for strings alone `TextRoundTrip` covers every code point.
- CanonicalJson.PrintIsInjective: as for `RoundTrip`; for strings alone see `TextCollidesExactly`.
- The state file's byte limit, its absence and text that is not JSON are one case, no usable snapshot.
- `validate_state` of `scripts/cargo-cache-source-stamps.py`: the same checks as `validate` with a list of packages around them. `RestorePackage` takes any saved index. The statement about package entries covers entries with the scanned keys only, since the flat comparison does not look at others.
- The compatibility hash of automation files and the environment is a parameter of `verify`; reports other than the counters, argument parsing, `prepare`, GitHub outputs and the soft budget warning are not modelled.
- Watched paths that no longer exist: the verdict is stated for watched inputs that survive, as a build tool treats a missing one as changed by itself.
- RestoreSafety.SafeAtEveryPrefix: says nothing of a path that another process writes to meanwhile; for those, `EveryWriteIsPlanned` says it of the restore's own writes.
- `scripts/dev.ts`: failures to spawn, exceptions out of a build, watcher errors beyond the cleanup they cause, the mapping from file names to targets, and the exit code.
- `resources/opencode-browser-plugin.ts`: the probe's own messages (only whether it could make its socket and was greeted), the settings socket, tool registration and `elementTarget`. The result of `JSON.parse` is a message of the model's own type, whose size is a field.
- `resources/opencode-context-plugin.ts`: first-token samples, the check tool, `contextSources` and the refill of `latest` by the `get` method. After unloading, no further request arrives at the hook.
- `ContextSession` and `WriteChain` keep promises and the order of storage calls as sequences beside the two maps.
- `scripts/cargo-cache-live.py`: stages, heartbeats and the deadline. A log grows only while its process lives and never shrinks.
- `scripts/cargo-cache-retention.py`: the key patterns are given as classes (build, download, legacy, other). Cache ids are distinct, as the API gives them. A deletion that times out after taking effect counts as failed.
- `src/file_target.rs`: `parse` and `resolve`, which combine the two modelled functions with checks on characters.
- The changelog, release, activity and UI code.
