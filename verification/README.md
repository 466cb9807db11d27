# Worktrunk in Dafny

A model of the parts of Worktrunk where little code carries hard invariants, with proofs of what they keep.
One file per core; `dafny verify dfyconfig.toml` checks them all.

| file | what it models |
|---|---|
| `Cancellation.dfy` | background-command cancellation: the latch, the locked id set, the check before a spawn and the second look after it, with permits, as an interleaving of any number of workers and cancellers |
| `DelayedOutput.dfy` | two readers and the switch to streaming, one locked section a step |
| `Pipeline.dfy` | two processes over bounded pipes, a batch of children chunk after chunk, and the permits both take |
| `TimedRun.dfy` | the timeout teardown over a child that is running, a zombie or reaped |
| `CommandSettings.dfy` | the concurrency setting, environment mutations, the bounded output preview |
| `CopyLeaf.dfy` | copying one file or symlink, with other processes acting between any two system calls |
| `CopyTree.dfy` | the directory walk with its stack, the totals of the parallel pass, the permissions pass |
| `Containment.dfy` | path resolution with symlinks, canonicalisation of paths that partly exist, the root check |
| `CopyPass.dfy` | the leaves copied one after another, each finding its directory when its turn comes, and at places fixed beforehand |
| `ParallelPass.dfy` | the parallel pass as its threads run it: every leaf a series of system calls, those of different leaves in any order; when every call stays at the leaf's own place, and when every run copies every leaf |
| `PassRaces.dfy` | that the pass ends, and as the leaves one after another do; the runs in which leaves, or another process, get in the way |
| `ContainedCopy.dfy` | a whole copy into a destination: its directories checked and made, and the calls of its leaves |
| `RemoveTree.dfy` | removal under arbitrary races (directory handles, and the calls of the recursion), and removal without races (modes, totals) |
| `Text.dfy`, `DiffSections.dfy`, `DiffBudget.dfy` | bytes and lines; cutting a diff into sections; fitting it into the prompt |
| `Markdown.dfy` | the fenced Markdown line machine |
| `TerminalBlock.dfy` | the watchdog's block and the spinner on a scrolling terminal; thousands separators |
| `CommandLog.dfy`, `Cache.dfy` | log rotation; the size-bounded caches |
| `Plugin.dfy` | the OpenCode plugin's promise chain, its event loop, and its parser of worktree records |
| `Common.dfy` | an optional value, and facts about sequences |

## How it is built

Protocols are state machines: a step function, `IsRun` for a run in any interleaving, an inductive invariant,
and theorems about every reachable state. Code that updates things in place is a class or a method with loops,
proved against a specification function or against what it promises; the properties of whole runs are lemmas
about those functions. Calls into the system are steps that may fail at any time. Flags such as `reliable` or
`calm` say that nothing fails, or that nobody else acts, where a property needs it.

What a system call is taken to do:

- A probe of a process group counts an unreaped leader as alive. SIGKILL ends every member; SIGTERM may not.
- A pipe holds a fixed number of bytes, at least one; writing blocks when it is full and reading while it is
  empty and open.
- Creating a symlink or a clone, and the rename that does not replace, refuse an occupied name and say so with
  `AlreadyExists`, and only then. The clone is one step; a failed one leaves nothing behind.
- The clone library passes on a clone's `NotFound`, `PermissionDenied` and `AlreadyExists`. After any other failure
  it copies the bytes to whatever the destination's name then is: it makes a file, empties and rewrites one, or
  writes through a link, and leaves what it has written if it fails.
- In the parallel pass each of a leaf's calls is one step: the look or the removal, the symlink, the clone, the byte
  copy with its opening, the copy to a new file with its rename, and setting the mode. Each resolves the leaf's path
  when it is made, and any number of leaves may be under way. Once a leaf has failed the others may go on or not.
- Opening a directory with `O_NOFOLLOW` never yields what a link leads to, and a call relative to an open
  directory changes that directory whatever its name has become. Only a directory's owner can change its mode.
- Each atomic operation and each locked section is one step. Process ids are not reused.

## Where the code and its documentation differ

The model follows the code.

- A pipeline registers both its children for cancellation even when they are marked `finish_once_started`, and
  its second child is spawned without looking at the latch. It is still signalled: the second look covers it
  (`Cancellation.NoOrphanAfterSweep`).
- After `dispose` the last effect is a clear only if a clear took effect at all: a failing marker command is
  swallowed (`MarkerChain.FailedClearLeavesTheMarker`). It is if any later clear succeeds
  (`MarkerChain.DisposeEndsWithClear`), and so in every run without failures
  (`MarkerChain.DisposeWithoutFailuresEndsWithClear`).
- A block drawn in place leaves its first row blank exactly when every frame fits the height of the screen
  (`TerminalBlock.BlankExactlyWhenEveryFrameFits`).
- The preview's count of elided bytes is exact if and only if no line shown ended in CRLF; its count of lines
  always is (`OutputPreview.ElidedBytesAreExactUnlessCrLf`).
- The bound of `MAX_LINES_PER_FILE * MAX_LINE_LEN` bytes for a truncated section is not met: fifty full lines
  exceed it by their newlines alone (`DiffBudget.FiftyFullLinesExceedTheBound`). A section's exact length says when
  it is met (`DiffBudget.TruncatedLength`); what always bounds it also counts the mark of each cut line, a header
  of more lines than the cap, and the note for the rest (`DiffBudget.TruncatedBound`), and some section comes to
  just that (`DiffBudget.WorstSectionAttainsItsBound`).
- The directories made for a copy are within its root exactly when the root reaches no further than one name beyond
  what exists of the destination; a missing root may therefore be made through directories outside it
  (`Containment.MadeWithinRoot`, `Containment.MissingRootIsMadeFromOutside`). An existing root always contains the
  directories made.
- Leaves are not checked again when they are copied, and the threads' calls interleave, so an existing root need not
  contain what the leaves write. Without `force`, where a link and a file come to one free place, the link can appear
  between the file's refused clone and its byte copy, which then writes through it: the pass leaves its root and
  overwrites what was there (`PassRaces.PassWithoutForceCanLeaveTheRoot`). With `force`, a leaf may replace a link that
  another's directory is reached through (`PassRaces.ForcedPassCanLeaveTheRoot`).
- Every call of every run reaches its leaf's own place, and none goes through a link there, exactly when no link and
  file are for one place that can be had and, with `force`, no leaf's place is a link on a leaf's way, be it replaced by
  the same link (`ParallelPass.EveryRunIsStraightExactlyWhenTame`). Then the pass is contained, and without `force`
  nothing that was there changes (`ParallelPass.TamePassStaysWithin`).
- The pass copies every leaf that it can, and ends in one way whatever the interleaving, exactly when no two leaves
  are for one place that can be had and, with `force`, no directory is in a leaf's place and no leaf's place is a
  link on a leaf's way (`ParallelPass.EveryRunIsAsDueExactlyWhenApart`,
  `PassRaces.EveryRunEndsAsDueExactlyWhenApart`). It then ends as the leaves taken one after another do
  (`PassRaces.EveryRunEndsAsEveryOrder`). Where no directory of the destination is reached through a link, different
  paths are enough (`PassRaces.DistinctPathsAreApart`). Otherwise a file may be skipped while a link is gone
  (`PassRaces.FileIsMissedInTheGap`), and two links that are the same may fail the pass
  (`PassRaces.EqualLinksCanFail`).
- A copy is said never to replace what another process put at the destination in between. That holds of clones, of
  symlinks and of the code's own byte copy (`PassRaces.OnlyTheByteCopyReplaces`). The library's byte copy, the
  ordinary one where there are no clones, opens such an entry exactly when it appeared after the clone was refused
  for want of support, if no call fails by itself (`PassRaces.AnothersEntryIsOpenedExactlyWhen`), writes over it or
  through it (`PassRaces.ByteCopyReplacesAnothers`), and if it fails leaves part of a copy, even behind a skip
  (`CopyLeaf.World.LibraryCopy`, `CopyLeaf.World.CopyLeaf`).
- A bare `.json` is counted by the sweep's own filter but not by `count_json_files`: without failures the bound is
  missed exactly in a directory that holds it and as many others as the bound (`Cache.BareJsonEscapesTheCount`,
  `Cache.OneTooMany`). With failures it holds of a sweep exactly when every entry could be examined and every
  victim deleted (`Cache.BoundHoldsExactlyWhen`).
- A timed-out capture always ends in SIGKILL: its unreaped leader keeps the group alive through the grace
  (`TimedRun.Child.TerminateProcessGroup`).

## Model

| member | source | states |
|---|---|---|
| `Cancellation.NoOrphanAfterSweep` | src/shell_exec.rs:290-358 | in every interleaving, once a sweep has returned, every living child has been signalled whose call is neither foreground nor uninterruptible and that is not marked `finish_once_started` (or stands in a pipeline), unless its worker is still registering it; and so has every other listed id |
| `Cancellation.ListedExactlyWhenSubject` | src/shell_exec.rs:1843-1847 | in every run a living child that is done registering is listed iff its call is neither foreground nor uninterruptible and it is not marked `finish_once_started`, or stands in a pipeline |
| `Cancellation.CheckStopsOnlyTheCancelled` | src/shell_exec.rs:1686-1691 | the check lets through every command but those of cancellable calls after the latch; a stopped command ends a run or a pipeline, and in a batch only itself |
| `Cancellation.NoSpawnAfterLateCheck` | src/shell_exec.rs:1686-1691 | no command whose pre-spawn check on a cancellable thread came after the latch is ever spawned |
| `Cancellation.OnlyCancellableChildrenAreSignalled` | src/shell_exec.rs:1837-1847 | nothing is signalled before the latch; foreground and uninterruptible children never, `finish_once_started` ones only inside a pipeline |
| `Cancellation.PermitsBoundTheFanOut` | src/shell_exec.rs:2065-2086 | held and free permits always add up to the limit, no more background calls are past the semaphore than that, and a batch never has more live children |
| `Cancellation.SweepAloneMissesAChild` | src/shell_exec.rs:290-305 | without the second look a child stays listed and unsignalled after the sweep |
| `Cancellation.RereadAloneMissesAChild` | src/shell_exec.rs:353-358 | without the sweep a registered child is never signalled |
| `Cancellation.StepKeepsInv` | src/shell_exec.rs:283-358 | every step of every thread keeps the invariant that relates latch, id set, signals, permits and each worker's place |
| `Cancellation.Registry.TrackIfCancellable` | src/shell_exec.rs:290-305 | registers iff the thread is neither foreground nor uninterruptible; whatever other threads do in between, a registered child is listed, and signalled if a sweep has returned |
| `Cancellation.Registry.CancelBackgroundCommands` | src/shell_exec.rs:353-358 | sets the latch, then leaves no listed child unsignalled |
| `DelayedOutput.TranscriptIsAMerge` | src/shell_exec.rs:2560-2594 | in every interleaving stderr is empty and the buffer an order-preserving merge of both streams, or the buffer is empty and stderr begins with the message, if there is one, and goes on as such a merge; no line is lost or repeated |
| `DelayedOutput.StepKeepsTranscript` | src/shell_exec.rs:1533-1554 | each locked section keeps that transcript and both streams whole |
| `DelayedOutput.FailureOutputIsReportedOnce` | src/shell_exec.rs:1483-1512 | a finished command's output is in exactly one place, whole: in the buffer that becomes the error's text, or on stderr behind the message |
| `DelayedOutput.MergeLength` | src/shell_exec.rs:1483-1494 | a merge holds exactly the lines of both streams, counted |
| `DelayedOutput.MergePicks` | src/shell_exec.rs:1483-1494 | the lines of a merge can each be said to be of one stream so that either stream is read off in its order |
| `DelayedOutput.PicksMerge` | src/shell_exec.rs:1483-1494 | and whatever can be is a merge |
| `DelayedOutput.Shared.RelayLine` | src/shell_exec.rs:1533-1554 | the locked section keeps the transcript: the line is in exactly one place, behind all its reader handed over before, and on the terminal at once if streaming has begun |
| `DelayedOutput.Shared.SwitchToStreaming` | src/shell_exec.rs:2580-2590 | the locked section keeps the transcript: the terminal becomes the message, if there is one, and then every buffered line in order, and no line is held back |
| `Pipeline.NeverStuck` | src/shell_exec.rs:2148-2308 | every reachable unfinished state has a step that some unblocked party can take |
| `Pipeline.PipelineCannotWedge` | src/shell_exec.rs:2148-2308 | for any output and any schedule, the pipeline goes on until finished, within a fixed number of steps, with the source's stderr captured whole |
| `Pipeline.FinishedPipelineLosesNothing` | src/shell_exec.rs:2122-2144 | with a sink that reads to end of input, the source's stdout reaches the sink and all other streams are captured, in order |
| `Pipeline.OneStepStreams` | src/shell_exec.rs:2122-2144 | a step of a script puts its byte on the stream it names and on no other |
| `Pipeline.SourceOuts` | src/shell_exec.rs:2122-2144 | the streams of a script are those of its parts, in order |
| `Pipeline.WithoutDrainerStderrWedges` | src/shell_exec.rs:2148-2308 | without the stderr drainer, output one byte over the pipe's capacity wedges the pipeline for good |
| `Batch.NeverStuck` | src/shell_exec.rs:2065-2086 | in every reachable unfinished state the child whose turn it is, or the caller, can go on |
| `Batch.BatchCannotWedge` | src/shell_exec.rs:2065-2086 | over any number of chunks and any volume: never stuck, done within a fixed number of steps, at most the limit alive at once, and one result a command in input order, its whole output or its failure to spawn |
| `Batch.OneStepStreams` | src/shell_exec.rs:2065-2086 | a command's output is what its steps write, each on the stream it names |
| `Permits.OnePermitPerCallNeverDeadlocks` | src/shell_exec.rs:2139-2147 | with one permit a call and any limit of at least one, until all calls are done there is a step that waits for nothing, not even for a sink to quit, and no schedule takes more steps than the calls hold work |
| `Permits.TwoPermitsPerCallCanDeadlock` | src/shell_exec.rs:2139-2147 | with two permits a call, every limit can be deadlocked |
| `ConcurrentLimit.MaxConcurrentCommands` | src/shell_exec.rs:492-508 | the limit is never zero |
| `ConcurrentLimit.LimitIs` | src/shell_exec.rs:489-508 | the limit is the number set, none for zero, and 32 where nothing is set or what is set is no number or too large |
| `ConcurrentLimit.LimitRoundTrip` | src/shell_exec.rs:496-502 | every decimal numeral is read back, zero as the largest limit, one too large as no setting |
| `EnvOps.ApplyInOrder` | src/shell_exec.rs:1853-1870 | applying mutations in call order gives each variable what the last call naming it said |
| `EnvOps.ApplyCommonSettings` | src/shell_exec.rs:1715-1744 | no directive variable is left; of any other the command's own last mutation decides, else the test floor's, else the inherited git override, else what was inherited |
| `EnvOps.ScrubThenSet` | src/shell_exec.rs:1882-1889 | setting a scrubbed variable afterwards wins, and the others stay dropped |
| `OutputPreview.FormatStreamBounded` | src/shell_exec.rs:1005-1034 | shows the lines before the first at which a cap is met, then one note with what is left |
| `OutputPreview.PreviewIsAPrefixOfFull` | src/shell_exec.rs:981-989 | the lines shown are a prefix of the full form, at most 200, and stop there or where 65,536 bytes are reached and not before |
| `OutputPreview.ElidedBytesAreExactUnlessCrLf` | src/shell_exec.rs:1005-1034 | the elided byte count is never too small, and exact iff no shown line ended in CRLF |
| `TimedRun.Child.GroupDiedWithin` | src/shell_exec.rs:2753-2766 | the first probe is immediate, each but the last finds the group alive, and giving up means a probe at or after the deadline |
| `TimedRun.Child.TerminateProcessGroup` | src/shell_exec.rs:2790-2798 | SIGTERM, the probes, SIGKILL iff none saw the group gone; with an unreaped leader always SIGKILL, and no signal after reaping |
| `TimedRun.KillFollowsUnlessSeenGone` | src/shell_exec.rs:2790-2798 | the last event is SIGKILL exactly when every probe found the group alive |
| `TimedRun.Child.TearDown` | src/shell_exec.rs:1091-1096 | one escalation, then the kill, then the wait; no group member outlives it |
| `TimedRun.Child.RunWithTimeout` | src/shell_exec.rs:1057-1164 | on every path group signals precede reaping, the child is waited on before return, and every failure tears the group down; what is reported is how the reaped child ended, and a failed read is reported as an interruption iff the leader had been interrupted by then and was reaped |
| `CopyLeaf.World.CopyLeaf` | src/copy.rs:201-307 | under any interference the outcome follows from the call that ended the copy and its answer: skipped iff the destination was seen or appeared before the data was copied, or the source had vanished with nothing removed; a skip leaves no hole and a hole is never silent; without `force` nothing there is altered unless looking for it failed; a clone, a symlink or a copy to a new file is of something the source held and over nothing another process made, and the library's byte copy exactly what it may be; it is reported with a size the source had and the way it was made; in a calm world the destination becomes the source |
| `CopyLeaf.World.CopyData` | src/copy.rs:99-103 | the clone or the library's copy, and the copy to a new file only where either was not permitted; which of them may open a name that is taken |
| `CopyLeaf.World.LibraryCopy` | src/copy.rs:20-25 | makes a file, rewrites one or writes through a link, whole if it reports success and otherwise a part; opens nothing when it reports a vanished source |
| `CopyLeaf.World.CopyToNewFile` | src/copy.rs:110-145 | the destination appears complete or not at all, nothing there is replaced, and a temporary file left behind is reported |
| `CopyLeaf.World.CopyFile` | src/copy.rs:260-306 | the regular-file arm: skipped iff copying the data answered that the destination exists, or that the source is gone and nothing was removed; shared extents only for a clone |
| `CopyLeaf.World.CopySymlink` | src/copy.rs:244-259 | the symlink arm: skipped iff reading the link found it gone and nothing was removed; an occupied name is a failure |
| `CopyLeaf.World.RemoveDest` | src/copy.rs:522-528 | tells a removal from an absent name |
| `CopyTree.CopyDirRecursive` | src/copy.rs:392-518 | fails exactly when some step must; otherwise the count returned and the totals recorded are exact, whatever the order of stack and threads |
| `CopyTree.FailsExactlyAtTrouble` | src/copy.rs:392-518 | it fails iff the root is gone or, going down the listings, it meets an entry or directory it cannot read, a directory outside the root or one it cannot make, a leaf that fails, or permissions it cannot set |
| `CopyTree.CountIsOfEverything` | src/copy.rs:368-385 | count and totals are of everything met, once each; the count is zero iff every leaf met was copied, every directory listed and made and given its permissions, and none was gone |
| `CopyTree.Walk` | src/copy.rs:399-468 | terminates on every finite tree and collects exactly its directories and leaves, each as often as it stands there |
| `CopyTree.CopyLeaves` | src/copy.rs:470-485 | in any order the pass records or skips every leaf once, and fails iff some leaf does |
| `CopyTree.PreservePermissions` | src/copy.rs:487-515 | counts exactly the directories gone by then |
| `CopyTree.NothingIsUnaccounted` | src/copy.rs:368-385 | recorded and skipped leaves are the collected leaves; a count of zero iff every leaf was copied and nothing was gone |
| `CopyTree.EachLeafOnce` | src/copy.rs:399-468 | where no directory lists a name twice, no path is collected twice |
| `CopyTree.LeavesHaveTheirDirectory` | src/copy.rs:430-463 | every collected leaf has a parent that the walk read and made |
| `CopyTree.TotalPermuted` | src/copy.rs:470-485 | the totals do not depend on the order of the leaves |
| `ParallelPass.EveryRunIsStraightExactlyWhenTame` | src/copy.rs:470-485 | over every interleaving of the leaves' calls and whatever fails, every call reaches its leaf's own place and none goes through a link there, iff no link and file are for one place that can be had and, with `force`, no leaf's place is a link on a leaf's way |
| `ParallelPass.TamePassStaysWithin` | src/copy.rs:388-390 | then nothing outside the root changes at any time, without a further check, and without `force` nothing that was there |
| `ParallelPass.EveryRunIsAsDueExactlyWhenApart` | src/copy.rs:470-485 | in every run every leaf is copied to its own place, or skipped where something is there and may stay, and none fails but by itself, iff no two leaves are for one place that can be had and, with `force`, no directory is in a leaf's place and no leaf's place is a link on a leaf's way |
| `ParallelPass.MissedInTheGap` | src/copy.rs:232-301 | while `force` has a link removed, a file reached through it is skipped and a link fails, whatever the link is replaced by |
| `ParallelPass.SecondIsMissed` | src/copy.rs:228-297 | of two leaves that both found or made their place free the second is skipped, or fails if it is a link, though the two be the same |
| `PassRaces.LostRaces` | src/copy.rs:244-303 | a file whose name is taken by then is skipped, one whose directory is gone too unless something was removed; a link fails either way |
| `ParallelPass.HomeCall` | src/copy.rs:201-307 | what each call of a leaf does, by its place alone, while its directory leads there and no link is to be written through |
| `PassRaces.EveryRunEndsAsDueExactlyWhenApart` | src/copy.rs:470-485 | all complete runs end in one and the same state, with every leaf copied that can be, under just that condition |
| `PassRaces.EveryRunEndsAsEveryOrder` | src/copy.rs:470-485 | every complete run ends with the tree that the leaves taken one after another give, in whatever order |
| `PassRaces.PassEnds` | src/copy.rs:470-485 | no interleaving makes more than five calls a leaf |
| `PassRaces.DistinctPathsAreApart` | src/copy.rs:388-390 | where no directory of the destination is reached through a link, leaves of different paths are apart iff `force` finds no directory in a leaf's place |
| `PassRaces.LinkAndFileCanLeaveTheRoot` | src/copy.rs:91-103 | a link and a file for one place that can be had, the link leading outside the root: a run that writes there |
| `PassRaces.PassWithoutForceCanLeaveTheRoot` | src/copy.rs:470-485 | such leaves, without `force` and with every directory within the root: a file outside is overwritten |
| `PassRaces.ForcedPassCanLeaveTheRoot` | src/copy.rs:470-485 | two leaves for different places whose directories are within the root, of which the first replaces a link and so sends the second out |
| `PassRaces.FileIsMissedInTheGap` | src/copy.rs:285-295 | a link replaced by itself: the file reached through it is skipped and the pass ends well without it |
| `PassRaces.EqualLinksCanFail` | src/copy.rs:228-259 | two equal links for one free place: every order of whole copies succeeds, and an interleaving fails |
| `PassRaces.AnothersEntryIsOpenedExactlyWhen` | src/copy.rs:87-103 | whatever other processes put anywhere, the library's byte copy finds an entry iff it appeared after the clone was refused for want of support, if no call fails by itself |
| `PassRaces.ByteCopyReplacesAnothers` | src/copy.rs:87-103 | for every file and free place a run in which what another process put there is written over, or through, and the copy reports success |
| `PassRaces.OnlyTheByteCopyReplaces` | src/copy.rs:201-307 | no other call replaces anything, but for the removal `force` asks for |
| `FixedPlaces.AgreeingLeavesSettle` | src/copy.rs:470-485 | what is at every place after a pass with places found beforehand; nothing beside them is touched |
| `SequentialPass.PutIsTheCopy` | src/copy.rs:201-307 | a leaf copied in one go comes to what the copy of one file or symlink does in a calm world, outcome and destination |
| `Containment.ResolveWithParents` | src/path.rs:190-214 | the loop computes the canonical path, and returns the path itself where a missing part ends in no name |
| `Containment.CanonicalIsRealPrefixAndMissingNames` | src/path.rs:190-214 | without `..` that is the real path of the longest existing prefix and the missing names in order |
| `Containment.CanonicalizeIsIdempotent` | src/path.rs:162-185 | a canonical path that exists is canonical again |
| `Containment.ResolvedIsReal` | src/path.rs:162-167 | what a path resolves to is there and is no link |
| `Containment.MadeWithinRoot` | src/copy.rs:335-347 | all that is made on the way to a checked path is within the root iff the root reaches at most one name beyond what exists; always when the root exists |
| `Containment.MissingRootIsMadeFromOutside` | src/copy.rs:335-347 | a missing root whose making makes a directory outside it |
| `Containment.GrewOnTheWay` | src/copy.rs:409-434 | what is made for a checked path is within the root or on the way to it, and the root stays where it is or is to be |
| `ContainedCopy.Destination.EnsureWithin` | src/copy.rs:335-347 | passes iff the root's canonical path is a prefix of the path's |
| `ContainedCopy.Destination.CreateDirAll` | src/copy.rs:432-434 | adds directories only, each between what exists of the path and its canonical form |
| `ContainedCopy.Destination.MakeDirs` | src/copy.rs:409-434 | nothing outside the root changes but for directories made on the way to a root that is missing, and every destination directory resolves within it |
| `ContainedCopy.Destination.CopyLeaves` | src/copy.rs:470-485 | the scheduling loop makes the leaves' calls in any order, with any answers, as a run of the pass, up to its end or a failure |
| `ContainedCopy.Destination.CopyInto` | src/copy.rs:388-485 | a whole copy, root there or not, changes nothing outside but for the way to the root if in the destination as its directories are made the leaves are tame, and then without `force` nothing that was there; if they are apart, success means every leaf in its place |
| `Containment.WayStays` | src/copy.rs:196-200 | a directory's path leads where it led as long as directories and the links it goes through stay |
| `RemovalRaces.RemovalSparesTheOutside` | src/remove_dir.rs:89-155 | in every run, whatever others do inside the tree, no call of the removal changes anything outside but the one name |
| `RemovalRaces.CallKeepsInv` | src/remove_dir.rs:13-21 | each call keeps every open directory inside |
| `RemovalRaces.RemoveEntrySparesTheOutside` | src/remove_dir.rs:89-142 | the same of the recursion itself, from its first openat, for any answers, any listings and any interference between two calls |
| `RemovalRaces.CodeMayCall` | src/remove_dir.rs:89-142 | every call of the recursion is on the name being removed or relative to a directory it has opened |
| `RemovalRaces.FollowingALinkWouldNot` | src/remove_dir.rs:89-107 | opening a link changes nothing; were it followed, the next call would reach outside |
| `RemoveTree.Disk.RemoveDirWithProgress` | src/remove_dir.rs:48-53 | nothing beside the path changes; recorded leaves are those that went; without failures exactly those names go for which every directory on the way and below can be opened and every directory that holds them can be written, whoever owns the others; so the caller's own tree goes whole, whatever its modes |
| `RemoveTree.Disk.RemoveEntry` | src/remove_dir.rs:89-110 | removes of an entry exactly what can go, conserving leaves and bytes between tree and totals |
| `RemoveTree.Disk.EmptyDir` | src/remove_dir.rs:112-142 | removes below a directory exactly what can go, gives the owner access only to directories the caller owns |
| `RemoveTree.Disk.RemoveLeaf` | src/remove_dir.rs:144-155 | counts a leaf iff it was unlinked |
| `RemoveTree.Disk.GrantOwnerAccess` | src/remove_dir.rs:160-191 | adds the owner's permissions where they are missing, and only there |
| `RemoveTree.Recorded` | src/remove_dir.rs:38-47 | what changes in the totals of a pruned tree is what changed below the path |
| `RemoveTree.TotalSplits` | src/remove_dir.rs:38-47 | the totals of a tree are those below a path and those beside it |
| `RemoveTree.OneForEachLeaf` | src/remove_dir.rs:38-47 | the files counted are the leaves of the tree |
| `RemoveTree.GoesItself` | src/remove_dir.rs:89-110 | a directory goes iff it can be opened, its own can be written and all below it goes |
| `DiffSections.ParseDiffSections` | src/llm.rs:198-239 | the loop over running byte offsets cuts exactly at the header lines |
| `DiffSections.SectionsCoverTheDiff` | src/llm.rs:198-239 | for any mix of line endings the sections put together are the diff from its first header on, one a header line, each starting at it and named after it, even if its path does not parse |
| `DiffSections.SectionsAreLinesFromHeaderToHeader` | src/llm.rs:198-239 | every line that begins with `diff --git ` opens a section and no other does; a section is that line and all up to the next such line, under its own path |
| `DiffSections.SectionsAreValidUtf8` | src/llm.rs:203-207 | no offset falls inside a character |
| `DiffSections.CutLosesNothing` | src/llm.rs:198-239 | the text before the first header and the sections are the whole text |
| `DiffSections.PlainHeaderRoundTrip` | src/llm.rs:186-193 | the path git prints is read back iff it does not hold the separator, nor the whole the quoted one |
| `DiffSections.QuotedHeaderRoundTrip` | src/llm.rs:186-193 | a quoted path is read back iff it does not hold the quoted separator |
| `DiffBudget.TruncatedLineIsWholeCharacters` | src/llm.rs:242-250 | a long line keeps every whole character that fits and stays well-formed UTF-8 |
| `DiffBudget.MarkedLineExceedsCap` | src/llm.rs:242-250 | what is emitted for a line exceeds the cap exactly when the line does, by the mark |
| `DiffBudget.TruncatedLength` | src/llm.rs:253-276 | the exact length of a truncated section from the lines it keeps, and so when the documented bound holds |
| `DiffBudget.TruncatedBound` | src/llm.rs:253-276 | what bounds every truncated section |
| `DiffBudget.FiftyFullLinesExceedTheBound` | src/llm.rs:135-141 | a section with no line cut or left out that exceeds the documented bound |
| `DiffBudget.WorstSectionAttainsItsBound` | src/llm.rs:135-141 | a section as long as the bound that always holds |
| `DiffBudget.TruncateDiffSection` | src/llm.rs:253-276 | the two loops compute the truncated section |
| `DiffBudget.TruncatedKeepsAPrefix` | src/llm.rs:253-276 | read as lines, it is the images of the longest kept prefix and, if lines are missing, their exact number; kept are the first lines up to the cap, or through the first hunk marker if that is later |
| `DiffBudget.TruncateStat` | src/llm.rs:282-298 | the first lines and the exact number of the rest |
| `DiffBudget.StatKeepsTheFirst` | src/llm.rs:282-298 | read as lines, a longer stat is its first 200 and one with the number of the rest |
| `DiffBudget.FittingIsLongest` | src/llm.rs:364-373 | the greedy count is the longest prefix that fits the budget |
| `DiffBudget.TakeFitting` | src/llm.rs:364-373 | the accumulating loop stops at exactly that count |
| `DiffBudget.PrepareDiff` | src/llm.rs:308-387 | computes the prepared diff and stat |
| `DiffBudget.PreparedFitsTheBudget` | src/llm.rs:308-387 | within the budget but for the one omission mark; over budget no lock files, and then the truncated longest fitting prefix with the exact number left out |
| `DiffBudget.PreparedDropsLockFiles` | src/llm.rs:308-387 | over budget what is left is, in order, exactly the sections whose path ends in none of the four lock-file suffixes, whole if they fit, else each cut down, as many from the front as fit, and how many are left out |
| `DiffBudget.PreparedIsValidUtf8` | src/llm.rs:308-387 | well-formed UTF-8 in gives well-formed UTF-8 out, whatever is cut |
| `DiffBudget.CappedCommitsKeepTheNewest` | src/llm.rs:620-634 | the newest commits in chronological order behind one entry for the older tail |
| `MarkdownLine.ClassesAreDisjoint` | src/md_help.rs:92-146 | the tests for a fence and a table row do not depend on their order |
| `MarkdownLine.FenceIsRead` | src/md_help.rs:104-112 | behind any indent three backquotes make a fence line, with the trimmed rest as its language |
| `MarkdownLine.RowIsRead` | src/md_help.rs:140-142 | behind any indent a bar at either end makes a row |
| `MarkdownLine.CommentIsRead` | src/md_help.rs:92-102 | a comment is a marker iff its trimmed text begins with the command's name |
| `MarkdownLine.HeaderIsRendered` | src/md_help.rs:186-196 | one and two hashes and a space make headers of the first two levels |
| `MarkdownLine.LowerHeaderIsRendered` | src/md_help.rs:180-186 | three and four those below |
| `MarkdownLine.RuleIsRendered` | src/md_help.rs:159-170 | three dashes, asterisks or underscores make a rule |
| `MarkdownLine.ProseIsRendered` | src/md_help.rs:196-208 | any other line is prose |
| `Markdown.RenderMarkdown` | src/md_help.rs:66-225 | the line machine renders the blocks of the document in order |
| `Markdown.BlocksPartitionTheLines` | src/md_help.rs:66-225 | every line belongs to exactly one block, in order |
| `Markdown.OneMoreFence` | src/md_help.rs:212-225 | a fence line behind an open fence changes nothing; behind a closed document it adds one empty block |
| `Markdown.OpenFenceRendersAsClosed` | src/md_help.rs:212-225 | an open fence renders as with any closing fence |
| `Markdown.AnyFenceLineCloses` | src/md_help.rs:104-127 | with the repository's own reading of lines, after recolouring too |
| `Markdown.RenderingDistributes` | src/md_help.rs:66-225 | rendering distributes over a cut outside fences and tables, up to a pending marker |
| `Markdown.BlocksAppend` | src/md_help.rs:66-225 | so do the blocks |
| `Markdown.OtherRenders` | src/md_help.rs:159-210 | between two plain cuts a line that is no comment, fence or row is rendered by itself |
| `Markdown.RowsRender` | src/md_help.rs:139-157 | rows that stand together are rendered as one table |
| `Markdown.FenceRenders` | src/md_help.rs:104-137 | the lines between two fences are rendered as code, with the first fence's language and not chopped |
| `Markdown.MarkerChopsTheNext` | src/md_help.rs:80-126 | a comment shows nothing; a marker has the next block of code chopped, and no later one |
| `TerminalBlock.Terminal.Watch` | src/progress.rs:460-520 | the loop redraws only what changed and the drop clears what was last drawn |
| `TerminalBlock.RenderKeepsPlace` | src/progress.rs:561-571 | rendering over a block that fits erases it and draws the new one from its first row, with what is above unchanged and all below blank |
| `TerminalBlock.BlankFromFirstRow` | src/progress.rs:573-580 | clearing a block that fits returns to its first row and leaves blank rows from there on |
| `TerminalBlock.WatchLeavesNothingBehind` | src/progress.rs:460-520 | for frames that fit, rows above are unchanged, the block's rows are blank, the cursor is back; without a frame nothing is written |
| `TerminalBlock.BlankExactlyWhenEveryFrameFits` | src/progress.rs:561-571 | the first row ends blank iff every frame fits the screen |
| `TerminalBlock.SpinnerLeavesNothingBehind` | src/progress.rs:244-325 | a spinner that drew leaves its row blank and no other row changed; one that did not leaves all alone |
| `FormatCount.FormatCount` | src/progress.rs:923-934 | digits grouped in threes from the right |
| `FormatCount.GroupedFromTheRight` | src/progress.rs:923-934 | from the right every fourth character is a comma and the others are the digits in order |
| `CommandLog.Log.Write` | src/command_log.rs:48-95 | under any failures both files stay a contiguous tail of the history and only a file that cannot be opened loses the entry; without any it is last |
| `CommandLog.RunKeepsATail` | src/command_log.rs:48-95 | after any run of writes the files are a tail ending in the last entry, each written one at most the limit and one entry |
| `CommandLog.RotatesOnlyPastTheLimit` | src/command_log.rs:56-68 | nothing is rotated, and so nothing lost, until the file has grown past the limit; the next write then rotates |
| `CommandLog.StorageIsBounded` | src/command_log.rs:19-20 | storage never exceeds twice the limit and two entries |
| `Cache.Dir.SweepLru` | src/cache.rs:127-160 | deletes the oldest visible entries, as many as the excess, but those that will not go |
| `Cache.Dir.ClearJsonFiles` | src/cache.rs:183-203 | deletes every JSON file and counts them, or stops at one that will not go, touching no other |
| `Cache.Dir.CountJsonFiles` | src/cache.rs:208-216 | counts each file with the extension once, whatever the order of the listing |
| `Cache.JsonNamesAre` | src/cache.rs:127-216 | counted and cleared are names that end in `.json` and are longer, swept those and the bare one |
| `Cache.SweepBoundsTheCache` | src/cache.rs:127-160 | at most the bound remains, exactly the excess went, nothing deleted is newer than what stayed, other files are untouched |
| `Cache.SweepCount` | src/cache.rs:127-160 | with failures, exactly how many entries are left: those that could not be examined, the others up to the bound, and the victims that would not go |
| `Cache.BoundHoldsExactlyWhen` | src/cache.rs:127-160 | under any failures the bound holds after a sweep iff every entry could be examined and every victim deleted, and without one iff a bare `.json` is not one too many |
| `Cache.BareJsonEscapesTheCount` | src/cache.rs:208-216 | without failures the bound is missed iff a bare `.json` lies in a directory that is exactly full, and then by one |
| `Cache.OneTooMany` | src/cache.rs:208-216 | such a directory |
| `Cache.RunOfWritesStaysBounded` | src/cache.rs:105-118 | every run of bounded writes keeps the bound after each write |
| `Cache.NewestSurvives` | src/cache.rs:105-118 | the entry just written survives when it is strictly the newest and the bound is at least one |
| `MarkerChain.EffectsFollowTheQueue` | dev/opencode-plugin.ts:211-221 | in every run effects follow the order of enqueuing, each at most once |
| `MarkerChain.DisposeEndsWithClear` | dev/opencode-plugin.ts:229-251 | once dispose has resolved no set is running or will run, and the last effect is a clear iff a clear has taken effect since or the last effect before was one |
| `MarkerChain.FailedClearLeavesTheMarker` | dev/opencode-plugin.ts:229-232 | a clear that fails leaves the last set standing |
| `MarkerChain.DisposeWithoutFailuresEndsWithClear` | dev/opencode-plugin.ts:211-232 | in every run without a failing command, once a dispose has resolved the last effect is a clear |
| `MarkerChain.HostCallsEnqueue` | dev/opencode-plugin.ts:229-251 | what each event and a dispose put into the queue: a status the working marker, idle the waiting one, a deletion and a dispose a clear, and no event anything once disposed |
| `MarkerChain.Server.Serve` | dev/opencode-plugin.ts:211-251 | over a whole session the hooks do to their variables what the chain's machine does, and from the first dispose on nothing but clears is enqueued |
| `MarkerWatcher.TeardownEndsWithClear` | dev/opencode-plugin.ts:171-203 | once the teardown has resolved nothing can run, and the last effect is its clear if it took effect |
| `MarkerWatcher.EventsAreHandled` | dev/opencode-plugin.ts:171-195 | a busy status sets the working marker, an idle one or an idle event the waiting one, a deletion clears; other events and other worktrees do nothing |
| `WorktreeList.List` | dev/opencode-plugin.ts:133-154 | the loop yields the entries of the records in order |
| `WorktreeList.ListReadsBackWhatGitPrints` | dev/opencode-plugin.ts:133-154 | reading back any printed records lists, in order and by their paths, exactly those that begin with a worktree's path and have no field that is `bare` or says `prunable`; only the first record is the root |
| `WorktreeList.RecordsAreReadBack` | dev/opencode-plugin.ts:133-146 | splitting a printed list at NULs gives the records back |

## Left out

- Real processes, signals, clocks, pipes, `/proc` and terminals are steps that may fail; weak memory and the reuse of process ids are not modelled.
- Windows and macOS variants, and the removal used off Unix, are not modelled.
- `Cancellation`: the deregistration of a child is one step with its reaping, and a panic that poisons a lock is not modelled.
- `DelayedOutput`: a reader's own read errors, and how a line is decoded from bytes, are not modelled.
- `Pipeline`: a child is a script of writes and reads; what the processes compute is not modelled.
- `OutputPreview`: the decoding of invalid bytes is not modelled, and the note is its two numbers, not its wording.
- `CopyLeaf.World.CopyLeaf`: takes `AlreadyExists` to be about the destination; a temporary file for which no free name is found would report it too, and the code would then skip.
- `CopyLeaf.World.CopyLeaf`: does not say what is written through a link that another process puts at the destination, because what the link leads to is not part of the model.
- `ParallelPass`: the pool's four threads, modes, times and the temporary file of a copy to a new file are not in the tree; the runs shown need two leaves under way.
- `ParallelPass.TamePassStaysWithin`: where leaves are not tame, whether a run leaves the root depends on where the links lead as others are put; `PassRaces.LinkAndFileCanLeaveTheRoot` says when one link and file do.
- `DiffSections`: a path that holds the separator is ambiguous in git's own output.
- `CopyLeaf`: the insides of the clone, modification times and the test override of the copy's kind are not modelled.
- `CopyTree`: what the walk finds is fixed before the run, one finding for every look; a file created after its directory was listed is not seen, as in the code.
- `Containment`: relative paths, prefixes of drives, permissions and two copies at once are not modelled; the theorems about what is made are for paths without `..`.
- `RemoveTree.Disk.RemoveDirWithProgress`: termination is proved for the tree as it stands; under races, where others may make it deeper for ever, only what each call may change is.
- `RemoveTree`: modes are those the caller has; groups, sticky bits and access lists are not modelled.
- `Markdown`: how a header, a paragraph, a table or a block of code is rendered, and the recolouring, are parameters; link stripping and inline formatting are not modelled.
- `TerminalBlock`: a line wider than the terminal is not modelled; the text of the block and the counters behind the spinner are not either.
- `CommandLog`: the shortening of long commands and the JSON of an entry are not modelled; there is one writer.
- `Cache`: reading entries, the atomic replacement of one file, serialisation and other processes in the same directory are not modelled.
- `MarkerChain.DisposeEndsWithClear`: says nothing of which clear is last when one fails, because a failed marker command is swallowed.
- The lock-file patterns, prompt templates, configuration, command dispatch, help pages, completion and the other plugins would only add easy members.
