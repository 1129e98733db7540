# Verified models of EKOS

EKOS compiles what it observes of software systems into knowledge and serves it to agents. This project models,
in Dafny, the parts of it whose correctness depends on state, time or interleaving, and proves what they promise.

| files | what they model |
|---|---|
| `Common.dfy`, `Bytes.dfy` | option and result types, little-endian integers, hex |
| `Frames.dfy`, `PackIndex.dfy`, `PackDisk.dfy`, `PackHistory.dfy`, `PackSafety.dfy`, `PackLife.dfy`, `PackStore.dfy` | the packed artifact store: frame format, index, a disk that can crash, histories of writes, safety of each step, whole lives of writes, repacks, crashes and reopens, and the store itself as a class over that disk |
| `Lease.dfy`, `LeaseProtocol.dfy` | the instance lease: its calls as a class over the lease file, and the protocol as a timed step system |
| `Runner.dfy` | the job runner: every interleaving at its awaits, and the runner as a class |
| `Supervisor.dfy` | the supervisor of per-workspace servers: every interleaving, and the supervisor as a class |
| `ContentId.dfy` | canonical JSON and content ids |
| `Normalize.dfy` | the text normaliser of the Markdown port |
| `Complexity.dfy` | the cognitive-complexity visitor |
| `Authz.dfy` | the role decision |

`dafny verify dfyconfig.toml` checks everything.

## How the models are built

**The pack store.** A disk is a list of segments, each with its bytes and a durable length, and a map of loose
files. Each file operation is one step, and the device keeps every state it has been in. A crash leaves of each
segment any prefix that is at least the durable part, and may bring back loose files whose removal was not yet
durable; bytes found on opening count as durable (what follows where they are not is
`RepackAfterKillIsSafeIffDurable`). JSON and zstd are an abstract codec that decodes what it encoded
and never yields an empty body. Ids are arbitrary strings: that an id is 64 hex digits is checked where the program
checks it, and that it is in lower case is assumed only by the statements that need it.

**The lease.** The state is the lease file, any number of consoles with their hosts, phases and deadlines, and one
clock. The clock may pass no deadline, which is the assumption that sleeps end on time. `take`, `beat` and `release`
are each one atomic step, although the program reads the file and then renames another over it; the check for a
displacing holder and the `take` that follows are one step too. A console that shuts down stops beating before it
releases, as web/api/app/main.py:201-223 does. A console whose beat is lost stops.

**The runner and the supervisor.** What runs between two awaits is one step, and steps of different workers,
callers and monitors interleave in any order.

## Where the code and its documentation part

- The header of web/api/app/cloud.py (lines 8-10) makes three promises. Last start wins: proved, for as long as no other
  console takes the lease, however many stand by (`LastStartWins`). Never more than one heartbeat interval when two
  consoles run: proved (`TwoServeTogetherAtMostOneInterval`). Never a moment when no console can serve: false. From the
  take until the new console's wait is over, away from deadlines, some console serves exactly when one does that served
  at the take and is not yet due to renew, or that was mid-wait at the take and has come out at most one interval ago
  (`HandOverLeavesAGap`). So there is a gap from the last such deadline on, at the latest one interval after the take if
  nobody else was mid-wait. One run shows a hand-over with a gap and one without (`HandOversWithAndWithoutAGap`).
- The mark that holds a displaced host back lasts exactly as long as its holder neither shuts down nor crashes and no
  console of another host attempts to take the lease (`StepKeepsDisplacing`, `LeaseCannotSwingBack`). A console of any
  other host erases it, be it a third one or the holder's own, and so does a restart of the holder after a crash; the
  displaced host then takes the lease back (`OtherHostErasesMark`, `CrashAndRestartErasesMark`). So two hosts can
  take the lease from each other in turn too, once a further console starts on the holder's host.
- `write` accepts an id with upper-case hex digits and returns true, but `read` then reports a misdirected frame, and
  a reopened store files the frame under the lower-case spelling (`ReadableAfterReopenIffLowerCase`,
  `OtherSpellingReplacesLowerCase`).
- A frame's length field is a cast to 32 bits. A scan finds an appended frame exactly when its length fits
  (`LengthFieldExactIffFits`, `AppendedIsFoundIffLegal`); where the length wraps below the smallest legal one it finds
  neither that frame nor any later one of the segment (`HiddenIffWrappedBelowLeast`, `HiddenFrameHidesTheRest`). If such
  an artifact is the last one a repack packs, and its verification accepts what the cast keeps of the body, which is all
  of it for 32 lengths, the loose file goes and a reopened store has lost the artifact (`OversizedRepackLosesArtifact`).
- A repack promises that a crash at any point loses nothing. After a process was killed between an append and the sync,
  the next one finds the frame, counts the artifact as packed, has nothing to sync, and removes the loose file: that is
  safe exactly when a frame of the artifact is durable all the same (`RepackAfterKillIsSafeIffDurable`), and a crash may
  lose the artifact otherwise (`RepackAfterKillMayLose`).
- The header of web/api/app/supervisor.py (line 8) promises that at most `mcp_max_servers` run at once. That holds of the
  table, and of the processes exactly as long as none runs on that was taken out of the table or replaced in it
  (`WithinCapUnlessStray`). It fails in every `ensure` of one more server at the cap (`EvictionExceedsCap`), and an `ensure`
  that finds no port or is cancelled leaves the evicted ones running for good (`FailedEnsureOrphans`,
  `AbortedEnsureOrphans`, `OrphanStays`).
- `reap_idle` stops what was idle at its scan, even if it has been used since (`ServerInUseMayBeReaped`).
- `list` promises all stored ids. A file that looks like a loose artifact but lies under another prefix is listed too,
  and twice if it bears a loose artifact's name: each stored id is listed once, and nothing else, exactly if every such
  stray bears a packed name (`List`); `repack_loose` counts strays that bear a loose artifact's name as packed already.
- A cancelled run does not always stay cancelled: one cancelled while its worker prepares the log directory is
  started all the same, after its callback has fired (`TerminalStatusIsLeftExactlyWhenOverwritten`,
  `CancelledRunMayStart`). It still never ends as succeeded.
- A `cancel` that answers no, because the run's process is being started, still marks the run: it runs its whole course
  and shows cancelled even after a success (`SuccessMayShowAsCancelled`). A run ends as cancelled exactly if it is marked
  and nothing in it raised (`EndsCancelledIffMarked`), and without a granted cancellation only if it was refused one then
  or before it was there (`CancelledWithoutAGrant`).
- The callback of a run that is over has not fired, and never will, exactly when its log directory could not be made
  and no cancellation had been granted (`CallbackIsLostExactly`); that takes three steps (`PreparationMayFailUnheard`).
- The docstring of `sees_tenant` says that it needs a role in the tenant. It also holds of principals whose bindings
  there give them no role, such as a token bound to `admin` (`SeesWhatItHasARoleIn`, `TokenWithAdminBindingSeesTenant`).
- A comment in scripts/cogc/src/main.rs (line 32) promises one increment for each run of one operator. The visitor
  counts all `||` of one expression as a single run even where `&&` stands between them (`BooleanScore`,
  `RunsAndIncrementsDiffer`).
- In `_normalize` a tab's width goes by the number of pieces on the line, so that a tab reaches its stop
  only if the earlier ones have added whole stops (`TabReachesStop`, `SecondTabMissesStop`).

## Model

| member | source | states |
|---|---|---|
| Bytes.LERoundTrip | ekos/crates/artifact/src/pack.rs:205 | a number that fits comes back from its little-endian bytes |
| Bytes.LeastByteFirst | ekos/crates/artifact/src/pack.rs:205 | the least byte of a number comes first; hex digits are lower case, the high one first |
| Bytes.HexTextRoundTrip | ekos/crates/artifact/src/pack.rs:262 | decoding and encoding hex gives the text back exactly when it is in lower case |
| Frames.ParseEncoded | ekos/crates/artifact/src/pack.rs:202-209 | the scan reads legal frames back as they were written |
| Frames.ParseIsPrefix | ekos/crates/artifact/src/pack.rs:358-391 | on any bytes the scan yields legal frames that make up the start of them, and stops where no frame starts |
| Frames.ParseIsLongest | ekos/crates/artifact/src/pack.rs:358-391 | no longer start of the bytes splits into legal frames |
| Frames.ParseIsIdempotent | ekos/crates/artifact/src/pack.rs:366-376 | scanning what a truncation left truncates nothing and finds the same frames |
| Frames.ParseAfterCut | ekos/crates/artifact/src/pack.rs:21-24 | after a cut at any byte exactly the frames wholly before it are found |
| Frames.AppendedIsFoundIffLegal | ekos/crates/artifact/src/pack.rs:172 | a scan finds an appended frame exactly when its id has 32 bytes, its body is not empty and its length fits the field |
| Frames.OffsetsAreDisjoint | ekos/crates/artifact/src/pack.rs:201-211 | frames of a segment do not overlap |
| PackIndex.IndexIsSound | ekos/crates/artifact/src/pack.rs:378-388 | the scanned index has exactly the ids of the frames, and each entry leads to the last frame with its id, in bounds |
| PackIndex.ReadLocated | ekos/crates/artifact/src/pack.rs:257-271 | a read at a frame's place gives its body, and reports misdirection exactly when the id is not in lower case |
| PackIndex.ReadIndexed | ekos/crates/artifact/src/pack.rs:248-277 | a read through a scanned index never reports misdirection, and gives the last body filed under the id |
| PackStore.ReadTellsWhatFailed | ekos/crates/artifact/src/pack.rs:248-277 | which error a read gives: the wrong case of an id, a body that does not decompress, a text that is no JSON, and nothing else in a store in order |
| PackIndex.IndexedFramesAreDisjoint | ekos/crates/artifact/src/pack.rs:212-219 | the byte ranges of two indexed ids do not meet |
| PackIndex.IndexAfterAppend | ekos/crates/artifact/src/pack.rs:201-219 | scanning after an append gives the old index with the one new entry |
| PackDisk.ReadOpenedIsView | ekos/crates/artifact/src/pack.rs:80-102 | what a freshly opened store reads is the last frame under the id, or else the loose file |
| PackDisk.CrashKeepsPrefix | ekos/crates/artifact/src/pack.rs:21-24 | a crash leaves a prefix of all frames ever written, with all the durable ones |
| PackDisk.CrashAtFrame | ekos/crates/artifact/src/pack.rs:366-376 | each such prefix is what some crash leaves |
| PackHistory.WrittenEffect | ekos/crates/artifact/src/pack.rs:240-246 | a write gives a new hash its value and changes no other reading |
| PackHistory.FirstWriteWins | ekos/crates/artifact/src/pack.rs:240-277 | after any history of writes and syncs an id reads what it read before, or else the first value written under it |
| PackHistory.CrashLeavesPrefix | ekos/crates/artifact/src/pack.rs:80-102 | after a crash at any point the opened store is the one left by a prefix of the writes, with every synced one |
| PackHistory.CrashInsideWriteLeavesPrefix | ekos/crates/artifact/src/pack.rs:176-209 | so it is after a crash in the middle of a write, that write being the last |
| PackHistory.RewritingRestores | ekos/crates/artifact/src/pack.rs:239-246 | writing the history again after crash and reopen restores every reading |
| PackSafety.ExtendingKeepsSurvivors | ekos/crates/artifact/src/pack.rs:176-209 | no state inside an append lets a crash lose a reading that no crash could lose before |
| PackSafety.UnlinkKeepsSurvivors | ekos/crates/artifact/src/pack.rs:147-152 | nor does removing the loose file of an id whose frame is durable |
| PackSafety.FlushMakesSurvivors | ekos/crates/artifact/src/pack.rs:224-230 | after a sync every crash keeps every reading |
| PackSafety.LooseFileSurvives | ekos/crates/artifact/src/pack.rs:253-255 | a valid loose file with no frame under its id is read with its value after any crash |
| PackSafety.SettledSurvives | ekos/crates/artifact/src/pack.rs:147-152 | with all frames durable, and one for each loose file just removed, every crash keeps every reading |
| PackSafety.WriteKeepsRollBounded | ekos/crates/artifact/src/pack.rs:176-191 | a segment outgrows the roll size by less than one frame |
| PackSafety.CrashKeepsRollBounded | ekos/crates/artifact/src/pack.rs:366-376 | also after a crash and the truncation on open |
| PackSafety.ReadableAfterReopenIffLowerCase | ekos/crates/artifact/src/pack.rs:311-317 | a new id's value is read back after a reopen exactly when the id is in lower case |
| PackSafety.OtherSpellingReplacesLowerCase | ekos/crates/artifact/src/pack.rs:380-387 | an id in another spelling is filed, and found after a reopen, under the lower-case one |
| PackSafety.LengthFieldExactIffFits | ekos/crates/artifact/src/pack.rs:172 | the length field is the frame's length exactly when that fits 32 bits |
| PackSafety.HiddenIffWrappedBelowLeast | ekos/crates/artifact/src/pack.rs:361-376 | a scan finds no frame where one stands, whatever follows, exactly when its length wraps below the smallest legal one |
| PackSafety.HiddenFrameHidesTheRest | ekos/crates/artifact/src/pack.rs:366-376 | such a frame hides all that its segment holds from there on |
| PackSafety.RepackAfterKillIsSafeIffDurable | ekos/crates/artifact/src/pack.rs:127-152 | removing the loose file of an artifact whose frame was found on reopening is safe exactly when a frame of it is durable |
| PackSafety.RepackAfterKillMayLose | ekos/crates/artifact/src/pack.rs:224-230 | a disk and a crash that lose it |
| PackLife.ActOnReading | ekos/crates/artifact/src/pack.rs:113-277 | a write fills an id that nothing is stored under, a crash may lose a reading, nothing else changes one |
| PackLife.ReadingsNeverChange | ekos/crates/artifact/src/pack.rs:113-277 | no write, sync, repack step, crash or reopen turns a reading into another value, and only a crash loses one |
| PackLife.SafeForEver | ekos/crates/artifact/src/pack.rs:113-116 | what no crash could lose at one time is read at any later time, amid writes, repacks, crashes and reopens |
| PackLife.FlushedForEver | ekos/crates/artifact/src/pack.rs:147-149 | whatever is read after a sync or a reopen is read for ever |
| PackLife.FirstWriteWinsAmidRepacks | ekos/crates/artifact/src/pack.rs:240-246 | first write wins, with repacks in between |
| PackStore.ScanFrames | ekos/crates/artifact/src/pack.rs:349-391 | the scanning loop finds the frames of the reference parser and enters each in the index |
| PackStore.ScanSegment | ekos/crates/artifact/src/pack.rs:349-391 | the scan cuts a segment to its legal frames and touches nothing else |
| PackStore.ScanAll | ekos/crates/artifact/src/pack.rs:84-91 | all segments are scanned in order, and index and lengths are those of the bytes left |
| PackStore.PackArtifactStore.Open | ekos/crates/artifact/src/pack.rs:80-102 | opening establishes the store's invariant, reads what the disk holds, and changes nothing on a sound disk |
| PackStore.PackArtifactStore.ActiveSegment | ekos/crates/artifact/src/pack.rs:176-199 | a full segment is synced before the next is begun, and the handle is on the last segment |
| PackStore.PackArtifactStore.AppendBytes | ekos/crates/artifact/src/pack.rs:201-219 | the frame is the last of the disk and the index leads to it |
| PackStore.PackArtifactStore.WritePacked | ekos/crates/artifact/src/pack.rs:164-221 | an id that is no hash fails and changes nothing; otherwise one frame is added, through three known states, and the invariant kept if its length fits |
| PackStore.PackArtifactStore.Read | ekos/crates/artifact/src/pack.rs:248-277 | the checks made on reading give the reading of the model, error cases included |
| PackStore.PackArtifactStore.Exists | ekos/crates/artifact/src/pack.rs:279-285 | true exactly for packed and loose ids |
| PackStore.PackArtifactStore.Write | ekos/crates/artifact/src/pack.rs:240-246 | true exactly for a hash stored neither way; no other reading changes, and its id reads the value if the body's length fits 32 bits |
| PackStore.PackArtifactStore.List | ekos/crates/artifact/src/pack.rs:287-301 | every stored id; each once and nothing else exactly if every stray file bears a packed name |
| PackStore.PackArtifactStore.Sync | ekos/crates/artifact/src/pack.rs:224-230 | all segments are durable and no reading changes |
| PackStore.PackArtifactStore.PackAll | ekos/crates/artifact/src/pack.rs:121-145 | tells apart the artifacts packed now and the names found packed, each stray with a loose name among these; leaves the store as `PackedFrom` says: in a store in order whose loose artifacts fit it succeeds exactly when each can be packed, no reading changes and no state on the way risks one |
| PackStore.PackArtifactStore.PackIfAbsent | ekos/crates/artifact/src/pack.rs:131-144 | tells true exactly for an id that was not in the index; fails on a loose file that is no JSON, and otherwise, in a store in order whose loose artifacts fit, exactly on an unpacked id that is no lower-case hash |
| PackStore.PackArtifactStore.PackOne | ekos/crates/artifact/src/pack.rs:135-144 | packs one artifact, and on success a read gives it back; up to 32-bit bodies it fails exactly on an id that is no lower-case hash |
| PackStore.PackArtifactStore.RepackLoose | ekos/crates/artifact/src/pack.rs:117-155 | on success no loose file remains, migrated is the number of loose artifacts that were not in the index, and migrated + already that of all loose artifacts and of strays with a loose name; in a store in order whose loose artifacts fit, it succeeds exactly when each can be packed, no reading changes, no state on the way lets a crash lose what was safe before, and after success every crash keeps every reading |
| PackStore.LooseArtifactStaysReadable | ekos/crates/artifact/src/pack.rs:113-116 | so every loose, unpacked artifact is readable with its value after a crash in any state of a repack |
| PackStore.OversizedRepackLosesArtifact | ekos/crates/artifact/src/pack.rs:135-152 | in any store, an artifact whose frame length wraps below the smallest legal one, packed last, is read back as far as the cast keeps its body, and is gone after its loose file and a reopen |
| PackStore.PackArtifactStore.RemoveAll | ekos/crates/artifact/src/pack.rs:147-152 | the loose files go one by one; where all frames are durable no reading changes and nothing is put at risk |
| PackStore.Device.ListLoose | ekos/crates/artifact/src/store.rs:80-100 | each loose file once, and the strays under other prefixes |
| Lease.InstanceLease.Take | web/api/app/cloud.py:135-153 | writes the next generation and the displaced host, and returns the holder to be waited for |
| Lease.InstanceLease.DisplacedHere | web/api/app/cloud.py:155-161 | the live holder that displaced this host, if any |
| Lease.InstanceLease.Beat | web/api/app/cloud.py:189-195 | renews the heartbeat unless another holds the lease, and then changes nothing |
| Lease.InstanceLease.Release | web/api/app/cloud.py:211-215 | frees the lease if it is this console's (`ReleaseFrees`), and leaves any other alone |
| LeaseProtocol.StepKeepsInv | web/api/app/cloud.py:163-215 | every step keeps deadlines ahead and the file in agreement with its holder |
| LeaseProtocol.LiveHolderIsNeverStale | web/api/app/cloud.py:132-133 | in any run a live holder's heartbeat is at most 2.5 intervals old, so it never counts as gone |
| LeaseProtocol.BeatKeepsExactly | web/api/app/cloud.py:189-195 | a beat keeps its console serving exactly if the file names no other, and then names it, renewed; a file that is gone is written anew |
| LeaseProtocol.ReleaseFrees | web/api/app/cloud.py:211-215 | after the holder's release a console that starts takes the lease, serves at once and marks no host; a release by any other console leaves the file alone |
| LeaseProtocol.ReleasedIsFree | web/api/app/cloud.py:211-215 | in any run a released lease stays free until some console writes it, and the first that starts or wakes serves at once |
| LeaseProtocol.StrayServingEndsWithinInterval | web/api/app/cloud.py:7-10 | serving while the file names someone else lasts at most one interval, in every run of any number of consoles |
| LeaseProtocol.TwoServeTogetherAtMostOneInterval | web/api/app/cloud.py:9-10 | no two consoles serve together for more than one interval |
| LeaseProtocol.DisplacedServesAtMostOneInterval | web/api/app/cloud.py:197-209 | who served when a live holder was displaced serves at most one interval longer |
| LeaseProtocol.OldWritersStopBeforeNewOneServes | web/api/app/cloud.py:183-184 | when a console that took over begins to serve, every console that served when it took has stopped |
| LeaseProtocol.LastStartWins | web/api/app/cloud.py:8 | who takes the lease holds it while it runs and no other takes it, however many stand by; it serves after its wait, and alone one interval later |
| LeaseProtocol.OnlyOldConsolesServe | web/api/app/cloud.py:183-209 | until the new console may serve, only those do that served at the take and are not past their deadline, or were mid-wait and came out at most one interval ago |
| LeaseProtocol.ServesToItsDeadline | web/api/app/cloud.py:197-201 | a console that keeps running serves up to its deadline |
| LeaseProtocol.OnlyOldWaitersServeInGap | web/api/app/cloud.py:183-184 | between one and one and a half intervals after a take-over only consoles serve that were mid-wait at the take and came out at most one interval ago |
| LeaseProtocol.WaiterServesItsInterval | web/api/app/cloud.py:183-209 | a console that keeps running serves for one interval from the end of its wait |
| LeaseProtocol.HandOverLeavesAGap | web/api/app/cloud.py:8-10 | at any time from the take until the new wait is over, away from deadlines, some console serves exactly when an older one is still covering |
| LeaseProtocol.HandOversWithAndWithoutAGap | web/api/app/cloud.py:8-10 | one run from an empty deployment with a hand-over of each kind |
| LeaseProtocol.StepKeepsDisplacing | web/api/app/cloud.py:155-182 | exactly which steps keep the mark; a console of the displaced host stands by |
| LeaseProtocol.LeaseCannotSwingBack | web/api/app/cloud.py:163-182 | the holder keeps lease and mark through a stretch of a run exactly when it keeps running and only the displaced host attempts to take it |
| LeaseProtocol.OtherHostErasesMark | web/api/app/cloud.py:141-142 | a take by any other host, the holder's own or a third, erases the mark, and the displaced host takes the lease back |
| LeaseProtocol.CrashAndRestartErasesMark | web/api/app/cloud.py:141-142 | so does the holder's crash and restart |
| LeaseProtocol.StandbyIsDecidedAtWake | web/api/app/cloud.py:179-184 | in any run a console that stands by wakes within an interval, takes the lease then exactly if no live holder's mark names its host, and serves from then exactly if there is no live holder |
| LeaseProtocol.StandbyEndsInTime | web/api/app/cloud.py:163-182 | standing by lasts at most four intervals from the last heartbeat, or one from the moment the file was found absent, unless the file is written |
| Runner.StepKeepsInv | web/api/app/runner.py:67-272 | every step of every task keeps the runner's invariant |
| Runner.RunOnlyGoesForward | web/api/app/runner.py:102-146 | no run is forgotten, a finished one never changes, histories only grow, callbacks are neither lost nor doubled |
| Runner.CancelIsHonoured | web/api/app/runner.py:134-146 | a run that `cancel` said yes to never shows succeeded or timed out |
| Runner.EndsCancelledIffMarked | web/api/app/runner.py:227-231 | a run ends as cancelled exactly if it is marked and nothing in it raised, and a mark lasts until then |
| Runner.MarkedEndsCancelled | web/api/app/runner.py:135 | so a marked run never succeeds or times out, whatever `cancel` answered |
| Runner.CancelledWithoutAGrant | web/api/app/runner.py:134-146 | a run that shows cancelled without a granted cancellation had been refused one, before it was there or while it was being started |
| Runner.SuccessMayShowAsCancelled | web/api/app/runner.py:134-146 | a six-step run in which that happens after an exit with success |
| Runner.CallbackFiresOnce | web/api/app/runner.py:115-132 | a callback fires at most once, and has fired when the run is done |
| Runner.CallbackIsLostExactly | web/api/app/runner.py:176-185 | the callback of a run that is over never fires exactly when its preparation failed and no cancellation was granted |
| Runner.PreparationMayFailUnheard | web/api/app/runner.py:189-198 | a three-step run in which that happens |
| Runner.SubmittedRunIsOwed | web/api/app/runner.py:79-112 | a run submitted with a callback is owed one call, and gets it at once when refused |
| Runner.WorkspaceRunsInOrder | web/api/app/runner.py:102-113 | one run at a time in each workspace, each once and in submission order |
| Runner.ChainsKeepTheirShape | web/api/app/runner.py:245-272 | passed stages, at most one active or ended one, then only pending or only skipped ones; success means that all passed, and a chain that is done with all passed shows succeeded or cancelled |
| Runner.ExitTellsStatus | web/api/app/runner.py:285-290 | an exit ends the run exactly without a further stage to come; the status of an unmarked run is then succeeded exactly for 0, timed out exactly for 124, and failed otherwise |
| Runner.ExitTellsStages | web/api/app/runner.py:264-271 | what an exit makes of the stages: passed or broken, and the later ones skipped after a break |
| Runner.EndsAsItsProcessSays | web/api/app/runner.py:219-226 | in any run of the system an unmarked run that ends shows what its process said, or failed if something raised; a chain of no stages succeeds |
| Runner.QueuesStayWithinDepth | web/api/app/runner.py:104-108 | no queue ever holds more runs than its depth |
| Runner.WorkerIsNeverStuck | web/api/app/runner.py:150-187 | the step a worker is waiting for can always be taken |
| Runner.TerminalStatusIsLeftExactlyWhenOverwritten | web/api/app/runner.py:197-198 | a terminal status is left exactly when the run was being prepared, and is then marked as running or failed |
| Runner.CancelledRunMayStart | web/api/app/runner.py:140-145 | a five-step run in which a cancelled run that has called back is started |
| Runner.JobRunner.Submit | web/api/app/runner.py:67-113 | refuses exactly on a full queue, and the new state is the model's |
| Runner.JobRunner.NotifyDone | web/api/app/runner.py:115-132 | the callback fires if there is one and is then spent |
| Runner.JobRunner.Cancel | web/api/app/runner.py:134-146 | yes exactly for a live process or a queued row, and the new state is the model's |
| Runner.JobRunner.TakeNext | web/api/app/runner.py:167-175 | a run cancelled in the queue is skipped, any other is begun |
| Runner.JobRunner.Begin | web/api/app/runner.py:197-219 | the run is marked as running, whatever it was |
| Runner.JobRunner.BeginFailed | web/api/app/runner.py:176-187 | the run fails and calls nobody back |
| Runner.JobRunner.NextStage | web/api/app/runner.py:246-250 | the chain ends, is cancelled with its next stage stopped, or goes on; what it then shows is in `ExitTellsStatus` |
| Runner.JobRunner.StageLogged | web/api/app/runner.py:252-262 | the stage is active and its process being started |
| Runner.JobRunner.Register | web/api/app/runner.py:200-201 | the process can be cancelled from now on |
| Runner.JobRunner.MarkStage | web/api/app/runner.py:264-271 | the stages after one has exited |
| Runner.JobRunner.Exit | web/api/app/runner.py:264-272 | an exit ends the run or the stage as the model says, which `ExitTellsStatus` and `ExitTellsStages` spell out |
| Runner.JobRunner.Raise | web/api/app/runner.py:221-226 | an exception in the run leads to its failure |
| Runner.JobRunner.EndFailed | web/api/app/runner.py:221-232 | a run that raised ends as failed and calls back |
| Runner.JobRunner.EndRun | web/api/app/runner.py:227-232 | the process and the cancellation are forgotten, the status written, the callback fired |
| Supervisor.StepKeepsInv | web/api/app/supervisor.py:96-285 | every step keeps the cap, equal keys of handles and monitors, distinct ports and the restart bound |
| Supervisor.RunKeepsInv | web/api/app/supervisor.py:96-285 | so they hold at every moment of every run |
| Supervisor.OnlyEnsureAdds | web/api/app/supervisor.py:256-285 | no monitor brings back a server that was stopped or evicted |
| Supervisor.StoppedStaysDown | web/api/app/supervisor.py:146-173 | a stopped or reaped server stays down, whatever others do, until an `ensure` for it ends |
| Supervisor.ReapedAmidOthers | web/api/app/supervisor.py:146-155 | when the stops of a reaping are over, amid any steps of others, none of the idle servers is up that was not brought back since |
| Supervisor.ReapingStopsTheIdle | web/api/app/supervisor.py:146-155 | amid any steps of others a reaping takes down exactly the servers idle at its scan and touches no other |
| Supervisor.ServerInUseMayBeReaped | web/api/app/supervisor.py:152-154 | a server idle at the scan and used since is stopped all the same |
| Supervisor.WithinCapUnlessStray | web/api/app/supervisor.py:7-9 | at most the cap of processes run as long as none runs on that was taken out of the table or replaced in it |
| Supervisor.EvictionExceedsCap | web/api/app/supervisor.py:104-110 | an `ensure` of one more server at the cap has one process more than the cap |
| Supervisor.OrphanStays | web/api/app/supervisor.py:96-111 | a process that nobody has in hand is stopped by nothing but its own end |
| Supervisor.FailedEnsureOrphans | web/api/app/supervisor.py:104-111 | an `ensure` that finds no port leaves the evicted ones so |
| Supervisor.AbortedEnsureOrphans | web/api/app/supervisor.py:104-111 | and so does one that is cancelled |
| Supervisor.ReplacedServerIsOrphaned | web/api/app/supervisor.py:100-109 | and so does one that replaces a failed server whose process still runs |
| Supervisor.OnlyLeastRecentlyUsedAreEvicted | web/api/app/supervisor.py:123-137 | besides a stop a server leaves only at the cap, alone, and no staying one was used longer ago |
| Supervisor.StepOnRetries | web/api/app/supervisor.py:268-283 | the count of a server: an exit adds one, a start and a restart that ends ready put it to nought, nothing else changes it |
| Supervisor.FreshServers | web/api/app/supervisor.py:277-285 | a server that comes up is ready, one that does not has failed; a restart is no use of it |
| Supervisor.AtMostFiveRestarts | web/api/app/supervisor.py:268-272 | in a stretch of any run in which a server never comes up again there are at most six exits of it, all counted, and after the last it has failed and is given up |
| Supervisor.WhoGivesUp | web/api/app/supervisor.py:269-277 | a monitor gives up exactly at the sixth exit in a row, or when it finds no port |
| Supervisor.GivenUpForGood | web/api/app/supervisor.py:269-272 | in any run a server that was given up stays as it is, with no exit seen and no restart, until it is stopped or replaced |
| Supervisor.McpSupervisor.MakeRoom | web/api/app/supervisor.py:123-137 | the least recently used go, as few as make room |
| Supervisor.McpSupervisor.Oldest | web/api/app/supervisor.py:130 | a server that no other was used before |
| Supervisor.McpSupervisor.AllocPort | web/api/app/supervisor.py:201-209 | the first free port of the next thousand |
| Supervisor.McpSupervisor.EnsureBegin | web/api/app/supervisor.py:96-106 | a live server is returned as it is; otherwise room is made and a port found |
| Supervisor.McpSupervisor.EnsureEnd | web/api/app/supervisor.py:107-109 | the new server is registered with its monitor |
| Supervisor.McpSupervisor.Touch | web/api/app/supervisor.py:113-121 | the use of a server is marked and nothing else |
| Supervisor.McpSupervisor.Stop | web/api/app/supervisor.py:164-173 | handle and monitor go together |
| Supervisor.McpSupervisor.IdleServers | web/api/app/supervisor.py:148-152 | the scan of a reaping |
| Supervisor.McpSupervisor.ReapIdle | web/api/app/supervisor.py:146-155 | exactly the servers unused for too long are stopped |
| Supervisor.McpSupervisor.ProcessExited | web/api/app/supervisor.py:265-272 | a registered server is restarted at most five times in a row; another is left alone |
| Supervisor.McpSupervisor.RestartBegin | web/api/app/supervisor.py:273-277 | only a server that is still registered is restarted; without a port it is given up |
| Supervisor.McpSupervisor.RestartEnd | web/api/app/supervisor.py:277-285 | the replacement takes the old one's place and its time of use; it is ready with all attempts before it, or has failed with the count kept |
| ContentId.CanonDecidesSameness | ekos/crates/artifact/src/lib.rs:59-75 | two values have one canonical form exactly when they differ only in key order, at any depth |
| ContentId.CanonIsIdempotent | ekos/crates/artifact/src/lib.rs:59-75 | the canonical form of a canonical form is itself |
| ContentId.FirstDifferenceDecides | ekos/crates/artifact/src/lib.rs:63-64 | keys are ordered by their first differing character, a text before its extensions |
| ContentId.FixedIffSorted | ekos/crates/artifact/src/lib.rs:58 | a value is canonical exactly when its keys ascend at every depth |
| ContentId.SameIdIffSameContent | ekos/crates/artifact/src/lib.rs:32-40 | contents that differ in key order only have one id, and only they, digests not colliding |
| ContentId.ComputedIdIsCanonical | ekos/crates/artifact/src/lib.rs:36-39 | a computed id is 64 lower-case hex digits, as the pack store needs |
| ContentId.IndexIdIgnoresMapOrder | ekos/crates/artifact/src/lib.rs:315-345 | the id of an index artifact does not depend on the iteration order of its map |
| Normalize.Normalize | demo/binary-demo/python-port/mdport/markdown.py:271-294 | the loop writes the cleaned lines of the text, one by one, and three newlines |
| Normalize.LinesOfNormalized | demo/binary-demo/python-port/mdport/markdown.py:278-294 | the result's lines are the cleaned lines and three empty ones, each empty or with text |
| Normalize.LineEnds | demo/binary-demo/python-port/mdport/markdown.py:279-286 | what ends a line: a newline, with or without a carriage return, and a carriage return before other text; at the end of the text it is dropped |
| Normalize.BlankLines | demo/binary-demo/python-port/mdport/markdown.py:280-289 | a line comes out empty exactly if it has nothing but spaces and tabs, and one without tabs otherwise as it is |
| Normalize.NormalizedIsClean | demo/binary-demo/python-port/mdport/markdown.py:277-286 | no tab, carriage return or 0x1A is left |
| Normalize.TextIsKept | demo/binary-demo/python-port/mdport/markdown.py:287-290 | the text characters are kept, in order |
| Normalize.NormalizingTwiceAddsThreeNewlines | demo/binary-demo/python-port/mdport/markdown.py:291-294 | normalising the result again only adds three newlines |
| Normalize.ExpandedWidth | demo/binary-demo/python-port/mdport/markdown.py:277-278 | the width of a line, from its length and the places of its tabs |
| Normalize.TabReachesStop | demo/binary-demo/python-port/mdport/markdown.py:277-278 | a tab reaches a tab stop exactly when the earlier tabs of its line have added whole stops |
| Normalize.SecondTabMissesStop | demo/binary-demo/python-port/mdport/markdown.py:277-278 | two tabs make seven columns |
| Complexity.Cx.VisitExpr | scripts/cogc/src/main.rs:48-72 | a visit adds the score at the present depth and restores the depth |
| Complexity.Cx.VisitIf | scripts/cogc/src/main.rs:20-30 | likewise for an `if` and its `else if`s |
| Complexity.Cx.BoolSeq | scripts/cogc/src/main.rs:31-44 | likewise for a boolean expression below an operator |
| Complexity.DeeperCostsHeads | scripts/cogc/src/main.rs:18-30 | started k levels deeper, an expression scores k more for each head |
| Complexity.EnclosingCosts | scripts/cogc/src/main.rs:18-72 | what enclosing an expression in each kind of construct costs |
| Complexity.ElseCosts | scripts/cogc/src/main.rs:20-30 | what an else block and an `else if` cost |
| Complexity.GuardCosts | scripts/cogc/src/main.rs:51-58 | what the guard of an arm costs |
| Complexity.SmallCosts | scripts/cogc/src/main.rs:64-69 | labelled jumps and calls of the function itself cost one, other jumps and calls nothing |
| Complexity.ElseIfIsCheaper | scripts/cogc/src/main.rs:20-30 | what an `if` in an else block costs above an `else if` |
| Complexity.FreshSequenceIsVisit | scripts/cogc/src/main.rs:42-43 | behind a parenthesis a boolean expression is scored afresh, as by a visit |
| Complexity.IncrementsAgainstRuns | scripts/cogc/src/main.rs:32-41 | the runs of one operator in the text are the increments and the `&&` groups between two `||` |
| Complexity.BooleanScore | scripts/cogc/src/main.rs:32-41 | a boolean expression scores its operands and its runs exactly when no `&&` stands between two `||` |
| Complexity.RunsAndIncrementsDiffer | scripts/cogc/src/main.rs:32-41 | an expression with one `&&` between two alternatives has three runs and scores two |
| Authz.PlainRoles | web/api/app/authz.py:75-81 | exactly the roles held outright |
| Authz.RolesIn | web/api/app/authz.py:84-104 | exactly the roles held |
| Authz.ScopeFor | web/api/app/authz.py:124-148 | whether and by which rules reading is restricted; `ShownExactly`, `RestrictedExactly` and `ScopeRulesAreExact` say which |
| Authz.Authorize | web/api/app/authz.py:161-168 | true exactly where a held role allows the action |
| Authz.SeesTenant | web/api/app/authz.py:171-177 | true for a role on the tenant or any binding in it |
| Authz.AllowWorkspace | web/api/app/authz.py:302-323 | not found exactly for those who could not read; granted exactly with the action and an unrestricted view, or a scoped route |
| Authz.ReadIffAnyRole | web/api/app/authz.py:8-9 | whoever has a role may read, and nobody else |
| Authz.WhoMay | web/api/app/authz.py:24-30 | which roles may review, operate and administer; an owner may do all, and only an owner runs the platform |
| Authz.WhatTokensMay | web/api/app/authz.py:31-34 | a token operates as an operator and reads with either of its roles |
| Authz.WithoutBindings | web/api/app/authz.py:56-61 | without bindings there is the compatibility mapping alone, in the default tenant alone |
| Authz.BindingsStayHome | web/api/app/authz.py:69-72 | a binding gives nothing in another tenant or another workspace |
| Authz.PlainBindingGives | web/api/app/authz.py:75-81 | a binding with no rule gives its role, on its workspace or on all of its tenant's |
| Authz.RuleNames | web/api/app/authz.py:107-116 | a rule names the object of its binding alone, or else its source and path |
| Authz.TokenIsLimited | web/api/app/authz.py:31-34 | a token views and operates in its own tenant, and no more |
| Authz.DenyOnlyRestricts | web/api/app/authz.py:85-87 | a deny binding changes no role, and lifts no restriction |
| Authz.AllowNeverRestricts | web/api/app/authz.py:128-130 | an allow binding takes no role away and restricts nobody |
| Authz.RestrictedExactly | web/api/app/authz.py:128-130 | exactly who is restricted on a workspace |
| Authz.ShownExactly | web/api/app/authz.py:146-148 | a restricted principal is shown what no rule names exactly with a role held outright; rules that allow come first |
| Authz.ScopeRulesAreExact | web/api/app/authz.py:137-148 | the rules of a scope are exactly those of the bindings with a rule on that very workspace: every denial, and the permissions where only they show anything |
| Authz.ReaderIsShownSomething | web/api/app/authz.py:146-148 | a restricted reader is given a rule that allows something |
| Authz.PlainRolesReachWorkspaces | web/api/app/authz.py:69-72 | what is held outright on a tenant is held on its workspaces |
| Authz.TenantWideRulesShowNoWorkspace | web/api/app/authz.py:94-103 | rules on a whole tenant make a viewer of the tenant exactly if one allows, and of no workspace |
| Authz.SeesWhatItHasARoleIn | web/api/app/authz.py:171-177 | a tenant is seen by who has a role in it, and besides exactly by who has only bindings that give none |
| Authz.TokenWithAdminBindingSeesTenant | web/api/app/authz.py:175-177 | such a token sees a tenant it has no role in |

## Left out

- Compression, JSON text, SHA-256 and file handles: an abstract codec, an abstract digest and a disk of bytes.
- Directory layout, `prune_empty_dirs`, and the check for gaps in the segment numbering (pack.rs:336-343): segments are a list.
- Appends, syncs and reads that fail without a crash, the errors `remove_file` drops, and failed `create_dir_all`: the program promises nothing after them.
- PackStore.PackArtifactStore.RepackLoose: what it promises of readings holds where every loose artifact fits a frame's 32-bit length; beyond it the program loses artifacts (`OversizedRepackLosesArtifact`).
- PackStore.PackArtifactStore.PackAll: the same.
- PackStore.PackArtifactStore.PackIfAbsent: the same.
- A loose file that vanishes between listing and reading (pack.rs:123-125): there is one writer; the same branch is taken for strays.
- The mutex of the pack store and its several readers: every method runs alone.
- Ids of fewer than two characters, for which the program panics when it looks for a loose file.
- `FileSystemArtifactStore.write`: in the packed store loose files are only read, listed and removed.
- Clock skew between machines, a share that is unreachable for a while (cloud.py:202-205), and the restore that runs between `take_over` and the first beat: each breaks the timing assumption.
- The steps inside `take`, `beat` and `release`: read and rename are one step.
- What a console does between its last beat and its exit: it does not count as serving.
- Database failures in the runner, its stored fields other than status and stages, `aclose`, and the moment between marking a failed stage and marking the rest as skipped.
- Deleting a run that is queued or executing (runner.py:191, 243).
- Processes, sockets, tokens and log pumping around the supervisor, its teardown of evicted servers, and `start`: spawning a server ends as ready or failed.
- Supervisor.McpSupervisor.ReapIdle: states which servers go when no other task steps in between the stops; `ReapingStopsTheIdle` holds in any interleaving.
- The other artifact types of lib.rs: their content goes through the same canonical form.
- Everything in the Markdown port besides `_normalize`.
- The finder of functions and the command line of the complexity tool, and 32-bit overflow of a score.
- How the ledger evaluates a scope's rules, group membership, the audit log and the other routes of authz.py.
- The user interface, routes, settings, scheduling, evaluation and demo code, wiki and git synchronisation.
- The fact ledger, index runs, coordinator and retrieval.
