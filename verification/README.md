# Verified model of filecat-go

filecat-go turns what an operating system says about a directory tree into a
stream of coalesced file events. This project models the parts where it can go
wrong without anybody noticing, and proves that they do not - or, where they do,
exactly when.

- **The coalescer** (`Events`, `Batching`, `BatchState`, `EmissionLog`,
  `SmallWindows`, `Explanation`, `Pairing`, `NetEffect`, `Stamps`, `Spelling`, `Timing`,
  `Sharing`).
  One settle window: raw events are paired into moves by their correlation id,
  modifications are folded per path, the rest is committed. The order in which Go
  ranges over a map is an arbitrary enumeration everywhere. `BatchState` is the
  object with its fields updated in place; its methods equal the functions of
  `Batching`, which the theorems are about. `Stamps` reads every entry back as the
  raw events it stands for, by position, and `Timing` says when each comes out.
- **The pipeline and its shutdown** (`Pipeline`, `PipelineSafety`,
  `PipelineReader`, `PipelineProgress`, `PipelineStream`, `StreamNetEffect`,
  `PipelineAfterCut`, `PipelineCut`). The reader goroutine with
  the native `next_event` opened up, the coalescing loop with its timer, any
  number of `Close` callers behind a `sync.Once`, an arbitrary consumer: one step
  relation, and theorems over every run. `StreamNetEffect` replays the whole stream
  against the raw events.
- **The Linux watch table** (`WdSlots`, `WdTable`). Open addressing with
  tombstones, over an array, refining a finite map; with its rehash cost.
- **The Linux watcher** (`RelPaths`, `Inotify`, `WalkSpec`, `FileOps`,
  `TreeAgreement`, `TreeRuns`, `Operations`, `Unread`, `MessageRecords`, `UserActions`,
  `TwoUnread`, `Overlap`, `ThreeUnread`, `StalePaths`, `FlatWatcher`, `ActionEvents`,
  `WatchLedger`, `LedgerRuns` on values; `Framing`, `Kernel`, `TreeWatcher`, `LinuxWatcher`, `EndToEnd` in place). The
  functions describe a tree, the kernel's watches and queue, and the table on component
  paths; the classes work on a byte buffer, the slot array, strings and system calls, and
  are proved equal to the functions. The kernel gives out fresh watch descriptors, returns
  the existing one for an inode already watched, and queues IN_IGNORED when a watch dies.
  `Operations` puts every operation on the tree in one form: what leaves, what arrives, and
  which directories' watches have to say so. `Unread` says when a queue, with records of
  whatever operations, drains into agreement.
- **The macOS queue** (`ComputeRel`, `MacSpec`, `MacHistory`, `MacHandshake`, `MacQueue`,
  `MacMoves`). The malloc'd linked list with its splice and pop, the mutex and condition variable around it step by
  step, and the function that strips the watch root.

Integers are unbounded except where the width matters: correlation ids are 64-bit
values, record fields are 32-bit little-endian words (the descriptor in two's
complement), and table indices wrap by the mask `capacity - 1`, modelled as a
bitwise and. A path is a `string`; on Linux a name contains no `/` and no NUL.

## What turned out false, or narrower than the comments say

- A timer flush that Close cuts short leaves the drained batch in place. A later
  event that takes part in pairing then writes to a nil map and panics, which is
  possible exactly after such a cut (`PipelineSafety.PanicNeedsCutFlush`).
  Otherwise the final flush emits the batch again from its start
  (`PipelineAfterCut.CutFlushStartsOver`), so that what is delivered is still a prefix
  of what it should be exactly when the second start happens to look like what was
  left (`PipelineAfterCut.BatchwiseAfterCut`). Both happen, on inputs of a Linux
  backend (`PipelineCut.CutFlushPanics`, `PipelineCut.CutFlushRepeats`).
- `out` is commented as "in arrival order". Within one id it is, for every input
  (`Spelling.EachIdInArrivalOrder`). The whole output is, exactly when no event is
  overtaken while it waits and the final range follows the arrivals
  (`Timing.ArrivalOrderExact`); a file moved out before another is made is overtaken
  (`Timing.LaterComesFirst`).
- Replaying the emitted events gives the raw events' set of paths exactly when every
  event that may come out last about its path says of it what the last event to arrive
  says (`Sharing.NetEffectWithSharing`); over the whole stream, exactly when the last window
  that mentions a path does so (`StreamNetEffect.NetEffectOfStream`). A file moved in and then deleted breaks it
  (`NetEffect.SharingBreaksNetEffect`). Where no path is shared between ids it always
  holds, reading the second half of an OLD/OLD pair as the arrival it means
  (`Sharing.NoSharingKeepsLastWord`, `NetEffect.NetEffectExact`).
- The comment in `internal/cbinding/csrc/platform/linux/filecat_linux.c:538-540` admits
  that events with stale paths slip out while a rename is not read yet. With one operation
  unread nothing goes wrong (`UserActions.TableAgreesWithTree`). With any two, the table
  always agrees with the tree again, and the reports are right exactly when no directory
  whose watch has to speak of the second is, or is below, what the first made, moved in or
  renamed to (`TwoUnread.TwoUnreadOperations`), or the second comes when that was walked
  already (`Overlap.SecondAtAnyTime`); otherwise a report is missing or has the former path
  (`TwoUnread.BothSettle`, `StalePaths.StalePathEscapes`). With three it is more
  than a stale path: the table itself can be wrong for good. A directory is renamed, another
  made in its place, and a child moved back; the stale record then drops the watch of the
  child that has just arrived, and no record is left to restore it
  (`ThreeUnread.AgreementIsLost`).
- The comment on `Destroy` in `internal/cbinding/cbinding.go:88-92` says that the C
  library counts references to calls in flight. The header
  (`internal/cbinding/csrc/include/filecat/filecat.h:103-118`) and the code say that
  it does not; the model follows the code.

## Model

| member | source | states |
|---|---|---|
| BatchStates.BatchState.constructor | coalesce.go:172-177 | a new batch is the empty one |
| BatchStates.BatchState.Absorb | coalesce.go:179-207 | the in-place absorb reaches the state of the specification, and reports a panic exactly when a pairable event meets a nil map |
| BatchStates.BatchState.TryPair | coalesce.go:215-228 | appends one Move for the three type combinations, and otherwise changes nothing |
| BatchStates.BatchState.RecordModified | coalesce.go:230-236 | a path is recorded once per window, at the index where its event stands |
| BatchStates.BatchState.Commit | coalesce.go:247-258 | one raw event becomes at most one entry, marked when it is an unpaired RENAMED_OLD |
| BatchStates.BatchState.Drain | coalesce.go:263-269 | the drain equals the specification's for the order in which the map happened to be ranged over |
| SmallWindows.OneEvent | coalesce.go:247-258 | what a window of one event comes to, by its type code: Created, Removed, Modified, Removed marked as half a move, or nothing for an unknown code |
| SmallWindows.TwoEvents | coalesce.go:209-228 | what two events with one id come to: one Move for the three pairs of type codes, and otherwise the two single events in order |
| EmissionLog.LogIsOutput | coalesce.go:179-269 | the output of a drained window is its attributed log with the attribution erased |
| EmissionLog.NonInterference | coalesce.go:179-207 | whatever the interleaving and the drain order, an id contributes exactly what coalescing its own events alone emits, in order |
| EmissionLog.ModifiedOncePerPath | coalesce.go:230-236 | MODIFIED is emitted once per path, for exactly the paths of MODIFIED events, in order of first arrival, and the drain adds none |
| Explanation.EveryEntryIsExplained | coalesce.go:209-258 | every emitted entry comes from its own id's events: a Move from two adjacent ones of a pairing combination, from the first's path to the second's; any other entry from one event of the matching type and path, with the half-move mark exactly on a lone RENAMED_OLD |
| Stamps.WindowSpells | coalesce.go:179-269 | every entry, in the order of emission, reads back as its one or two raw events, a Move as two successive events of its id of which parsing from the left makes the second a mate |
| Spelling.EachIdInArrivalOrder | coalesce.go:179-207 | for every id, interleaving and drain order, the id's entries read back as exactly its known events in the order they arrived: none skipped, doubled or swapped |
| Timing.WindowOrder | coalesce.go:179-269 | exactly the events that have a part in an entry come out, each once: at once, with the mate or the event that displaces them, or at the drain, in that order |
| Timing.ArrivalOrderExact | coalesce.go:158-171 | the whole output reads back in the order of arrival if and only if no event is overtaken while it waits and the final range follows the arrivals |
| Timing.LaterComesFirst | coalesce.go:263-269 | two events of a Linux backend whose order the output reverses |
| Pairing.GreedyIsOptimal | coalesce.go:179-228 | for every nonzero id the Moves produced are a maximum matching of its adjacent pairable events: some matching has that size and none is larger |
| Pairing.Ledger | coalesce.go:166-207 | before the drain, twice the Moves plus the single entries plus the pending events are the known non-MODIFIED events absorbed |
| Pairing.DrainedLedger | coalesce.go:166-269 | the drain settles the pending term: nothing is lost or doubled, and the number of entries follows |
| Pairing.ModifiedIndexKept | coalesce.go:166-269 | `lastModifiedAt` and the Modified positions of `out` are a bijection, before and after the drain |
| Pairing.WiderWindow | coalesce.go:179-269 | coalescing two windows as one makes at least their Moves, at most one more per id pending at the cut, and never more entries |
| Pairing.WiderWindowPerId | coalesce.go:179-269 | the same for each id; with nothing pending at the cut the Moves are equal |
| NetEffect.SingleIdNetEffect | coalesce.go:187-258 | one id's emitted events replay as its raw events do, from any set of paths |
| NetEffect.BatchNetEffect | coalesce.go:187-269 | without paths shared between ids, the whole window replays as the raw events do, for every drain order |
| NetEffect.NetEffectExact | coalesce.go:179-269 | the emitted events replay as the raw ones read literally if and only if no path ends as the second half of an OLD/OLD pair |
| NetEffect.NetEffectWithoutOldPairs | coalesce.go:209-228 | where no id sends RENAMED_OLD twice in a row the literal reading is always kept |
| NetEffect.SharingBreaksNetEffect | coalesce.go:184-207 | a window of a Linux backend, a file moved in and deleted, whose net effect is not kept |
| Sharing.NetEffectWithSharing | coalesce.go:179-269 | with whatever sharing of paths, and in either reading of a mate, every drain order keeps the net effect if and only if every event that may come out last about its path says of it what the last event to arrive says |
| Sharing.NoSharingKeepsLastWord | coalesce.go:179-269 | without sharing that condition always holds |
| PipelineSafety.TeardownIsSafe | filecat.go:128-136 | over every run: the native watcher is destroyed at most once, after the reader is gone, and not used afterwards; no channel is closed twice or sent on after its close; when any Close returns, Events is closed |
| PipelineSafety.NoMissedClose | internal/cbinding/csrc/platform/linux/filecat_linux.c:374-403 | once the latch is set the checks of next_event report closed, and a parked poll is woken once the eventfd is written |
| PipelineSafety.TimerFollowsBatch | coalesce.go:81-146 | timerC is non-nil exactly while a batch is open, the deadline is the first event's time plus the window and does not move, and the timer is armed only when no tick is left over, and never once the loop has returned |
| PipelineSafety.PanicNeedsCutFlush | coalesce.go:113-139 | at its select the loop can panic if and only if a timer flush was cut short and a pairable event is next |
| PipelineReader.KeepsReading | coalesce.go:48-68 | over every run without a Close or a failure of next_event the reader keeps calling it - after an overflow, an interrupted poll or an unreported record too -, no channel is closed and the coalescer stays in its loop |
| PipelineReader.GetsNext | coalesce.go:48-68 | and in at most five of its own steps it is at the next record, whatever it was doing |
| PipelineReader.FailureStops | coalesce.go:59-67 | an error of next_event, Close's wake-up, or an event given up to Close ends the reader's loop |
| PipelineReader.StoppedForGood | coalesce.go:53-67 | once the reader has left its loop, next_event is never called again, nothing more is read, and rawCh is closed once |
| PipelineReader.RecordsAreHandled | internal/cbinding/csrc/platform/linux/filecat_linux.c:478-498 | over every run each record that a poll announced is handled once, or is still in the buffer or in hand |
| PipelineProgress.StepWork | coalesce.go:48-147 | once the latch is set every step of the watcher lowers one measure, and no step of the consumer, the kernel or the clock raises it |
| PipelineProgress.CloseIsNeverStuck | filecat.go:128-136 | a Close that has begun always has a step to take that is neither the consumer's nor a poll result of the kernel nor the clock's - a parked poll is woken by the eventfd; when it is over, every waiting caller can return |
| PipelineProgress.CloseIsBounded | coalesce.go:48-147 | a run can take only so many of the watcher's own steps, and one that takes them all has finished Close or panicked |
| PipelineProgress.CloseCompletes | coalesce.go:31-43 | unless the coalescer has panicked already, Close finishes, without a panic, in steps of which none is the consumer's, a poll result of the kernel or the clock's |
| PipelineStream.DeliveredIsBatchwise | coalesce.go:81-147 | until a timer flush is cut short, what the consumer gets is a prefix of the drains of consecutive segments of the raw stream, which lose nothing and, but for the last, were flushed by the timer; equal up to what is still to be sent while `closed` is open |
| PipelineStream.NothingIsLostWithoutClose | coalesce.go:123-129 | a loop that ends by itself - which takes a failure of next_event, by PipelineReader.KeepsReading - has emitted the drains of everything next_event returned |
| StreamNetEffect.NetEffectOfStream | coalesce.go:81-147 | for every cutting of the raw stream into segments, and either reading of a mate, replaying all that is emitted gives what replaying all the raw events gives, for every order of the final ranges, if and only if about every path the last segment that mentions it keeps the last word |
| StreamNetEffect.DeliveredNetEffect | coalesce.go:123-129 | a loop that ended by itself has sent what replays as everything next_event returned, where the last word is kept |
| PipelineAfterCut.CutFlushStartsOver | coalesce.go:113-128 | after a cut flush the stream is what was emitted up to a point inside the last segment, then the kept batch's output from its start again, which begins with the whole last segment; every raw event is accounted for |
| PipelineAfterCut.BatchwiseAfterCut | coalesce.go:113-128 | after a cut the stream is still a prefix of the drains if and only if what was emitted since equals, entry by entry, what was left of the last segment |
| PipelineCut.CutFlushRepeats | coalesce.go:113-117 | a reachable state where a cut flush made one event be emitted twice |
| PipelineCut.CutFlushPanics | coalesce.go:263-269 | a reachable state where the coalescer has panicked |
| WdSlots.MaskWraps | internal/cbinding/csrc/platform/linux/filecat_linux.c:126-137 | masking with a power of two minus one wraps an index once around |
| WdSlots.ProbeEnds | internal/cbinding/csrc/platform/linux/filecat_linux.c:130-136 | a probe that meets an empty slot has proved the key absent |
| WdSlots.FindsDecides | internal/cbinding/csrc/platform/linux/filecat_linux.c:195-200 | the slot a probe answers holds the key if and only if the map has it, and then its path |
| WdSlots.InsertTidy | internal/cbinding/csrc/platform/linux/filecat_linux.c:181-192 | writing into the answered slot, tombstone or empty, adds the entry, keeps keys unique and every probe path unbroken |
| WdSlots.RemoveTidy | internal/cbinding/csrc/platform/linux/filecat_linux.c:202-211 | a tombstone removes the entry and breaks no other key's path |
| WdTables.WdTable.constructor | internal/cbinding/csrc/platform/linux/filecat_linux.c:140-153 | a new table of capacity 16 is the empty map |
| WdTables.WdTable.SlotIndex | internal/cbinding/csrc/platform/linux/filecat_linux.c:126-138 | the probe loop stops, at the key's slot or at the one a put must take |
| WdTables.WdTable.Rehash | internal/cbinding/csrc/platform/linux/filecat_linux.c:155-169 | the copied slots hold the same map, without tombstones |
| WdTables.WdTable.Grow | internal/cbinding/csrc/platform/linux/filecat_linux.c:155-174 | growing keeps the map, and at least 3/8 of the old capacity in new slots was used up since the last growth |
| WdTables.WdTable.Put | internal/cbinding/csrc/platform/linux/filecat_linux.c:176-193 | a put stores the entry or, when memory runs out, changes nothing; the 3/4 load rule is kept |
| WdTables.WdTable.Get | internal/cbinding/csrc/platform/linux/filecat_linux.c:195-200 | a get answers what the map holds |
| WdTables.WdTable.Remove | internal/cbinding/csrc/platform/linux/filecat_linux.c:202-211 | a remove deletes the entry and nothing else |
| WdTables.Run | internal/cbinding/csrc/platform/linux/filecat_linux.c:126-211 | any sequence of operations is answered as by a finite map, and three times the slots scanned by all growths is at most eight times the puts |
| RelPaths.JoinAppends | internal/cbinding/csrc/platform/linux/filecat_linux.c:336-358 | joining strings is appending a component |
| RelPaths.BelowMeansPrefix | internal/cbinding/csrc/platform/linux/filecat_linux.c:541-549 | the string test of the sweep is the component-prefix test, in both directions |
| RelPaths.RenderInjective | internal/cbinding/csrc/platform/linux/filecat_linux.c:84-101 | distinct directories have distinct path strings |
| WalkSpec.WalkWatches | internal/cbinding/csrc/platform/linux/filecat_linux.c:252-292 | the recursive walk ends on every finite tree and watches exactly what it reaches, under its own path |
| WalkSpec.ReachesExactly | internal/cbinding/csrc/platform/linux/filecat_linux.c:252-292 | a directory is reached exactly when the adds from the start down to it succeeded and every proper ancestor on the way could be opened |
| WalkSpec.ReachShape | internal/cbinding/csrc/platform/linux/filecat_linux.c:466-472 | the watched set is ancestor-closed, complete when nothing fails, and only the root when not recursive |
| Operations.ApplyIsOutcome | internal/cbinding/csrc/platform/linux/filecat_linux.c:23-26 | whatever is watched and queued before, an operation transplants the tree, ends the watches of the inodes that die, and queues what the watches of the directories concerned say, and no more |
| Operations.ApplyBookkeeping | internal/cbinding/csrc/platform/linux/filecat_linux.c:502-505 | every table entry stays that of a live watch or one whose IN_IGNORED is queued |
| Unread.DrainingSettles | internal/cbinding/csrc/platform/linux/filecat_linux.c:478-561 | a queue in which every directory is walked after its last sweep or right already, every other live watch will be swept, and every record will find its entry as it was, drains into agreement, in a bounded number of records, each reported by the path the table had for it at the beginning |
| TreeRuns.IgnoredIsFinal | internal/cbinding/csrc/platform/linux/filecat_linux.c:502-519 | once an IN_IGNORED is read, its descriptor is never tabled again and no record about it that is still queued is reported |
| UserActions.OpenAgrees | internal/cbinding/csrc/platform/linux/filecat_linux.c:466-472 | opening, when nothing fails, leaves the table equal to the tree |
| UserActions.OperationSettles | internal/cbinding/csrc/platform/linux/filecat_linux.c:498-560 | after one mkdir, rmdir, rename, move in, move out, change of attributes, or change or rename of a file and a bounded number of records, table and tree agree again and exactly the operation's events were reported |
| UserActions.TableAgreesWithTree | internal/cbinding/csrc/platform/linux/filecat_linux.c:498-560 | over every drained run the table is exactly the descriptor-to-path map of the tree, and the events are exactly what was done, in order |
| FlatWatcher.OpensFlat | internal/cbinding/csrc/platform/linux/filecat_linux.c:466-472 | opening a watcher that is not recursive watches and tables the root alone |
| FlatWatcher.FlatReports | internal/cbinding/csrc/platform/linux/filecat_linux.c:524-560 | however operations and reads are interleaved, that one watch and entry stay, and what is reported is, in order, exactly what was done directly in the root |
| ActionEvents.ActionBecomesEvent | README.md:136-160 | through both layers, a rename of a directory or a file, also onto another file, comes out as one Move, a move out as one Removed and a move in as one Created, whatever else shares the window |
| ActionEvents.ChangeBecomesModified | README.md:136-160 | through both layers, writing to a file or changing the attributes of a file or directory comes out as exactly one Modified of its path per window, however often it happens |
| TwoUnread.TwoUnreadOperations | internal/cbinding/csrc/platform/linux/filecat_linux.c:498-560 | any two operations with nothing read in between: drained, after a bounded number of records, table and tree agree, and what was reported is what was done if and only if no directory whose watch has to speak of the second is, or is below, what the first made, moved in or renamed to |
| TwoUnread.BothSettle | internal/cbinding/csrc/platform/linux/filecat_linux.c:538-540 | what exactly is reported of two unread operations: all of the first; of the second nothing from directories made or moved in, and the former path from those renamed |
| TwoUnread.SomeRunDrains | internal/cbinding/csrc/platform/linux/filecat_linux.c:478-561 | some run drains the two, so that where the condition fails a wrong report does happen |
| Overlap.SecondAtAnyTime | internal/cbinding/csrc/platform/linux/filecat_linux.c:498-560 | a second operation after any part of the first one's records was read: once drained, after a bounded number of records, table and tree agree, and all reports are what was done if and only if no walk was still to come when it happened, or no directory whose watch has to speak of it is, or is below, what the first made, moved in or renamed to |
| Overlap.AgreesInTurns | internal/cbinding/csrc/platform/linux/filecat_linux.c:498-560 | over every run that never has more than two operations in hand, however they overlap with the reading, table and tree agree whenever it is drained, and where the pairs are apart the reports are exactly what was done |
| StalePaths.StalePathEscapes | internal/cbinding/csrc/platform/linux/filecat_linux.c:538-540 | with two operations unread, a file is announced under its directory's former path |
| ThreeUnread.AgreementIsLost | internal/cbinding/csrc/platform/linux/filecat_linux.c:533-551 | three unread operations after which everything is read and a directory of the tree is neither watched nor in the table |
| WatchLedger.StepBalanced | internal/cbinding/csrc/platform/linux/filecat_linux.c:223-244 | every system call, kernel action or consumed record keeps the account of descriptors balanced, failures included |
| WatchLedger.NoLeaksNoLosses | internal/cbinding/csrc/platform/linux/filecat_linux.c:498-551 | in every interleaving without overflow or allocation failure the table keys are the disjoint union of the live watches and the queued IN_IGNOREDs |
| WatchLedger.FailuresAreConfined | internal/cbinding/csrc/platform/linux/filecat_linux.c:230-243 | with failures too, every live watch but the one being dropped has its entry, and an entry too many is one whose IN_IGNORED was lost |
| WatchLedger.LateIgnoredIsHarmless | internal/cbinding/csrc/platform/linux/filecat_linux.c:502-505 | consuming an IN_IGNORED never drops the entry of a live watch |
| LedgerRuns.ConsumeIsARun | internal/cbinding/csrc/platform/linux/filecat_linux.c:494-560 | processing one record, with its walk or sweep, is a run of the ledger without failures |
| LedgerRuns.OperationIsARun | internal/cbinding/csrc/platform/linux/filecat_linux.c:23-26 | the records and deaths of every operation on the tree are a run of the ledger |
| LedgerRuns.NotStoredIsARun | internal/cbinding/csrc/platform/linux/filecat_linux.c:230-243 | an add whose entry finds no memory is a run of the ledger: added, not stored, given back |
| Framing.EncodingDeterminesRecords | internal/cbinding/csrc/platform/linux/filecat_linux.c:494-496 | the bytes of a list of records determine the list |
| Framing.Layout | internal/cbinding/csrc/platform/linux/filecat_linux.c:494-496 | the bytes of a record are the four little-endian words of struct inotify_event and the padded name |
| Framing.FirstRecord | internal/cbinding/csrc/platform/linux/filecat_linux.c:494-496 | the header fields, the name and the rest are read back where the first record lies |
| Framing.ReadBuffer.Fill | internal/cbinding/csrc/platform/linux/filecat_linux.c:395-403 | after a read the buffer holds exactly the records the kernel handed over |
| Framing.ReadBuffer.Next | internal/cbinding/csrc/platform/linux/filecat_linux.c:494-496 | stepping over a record yields its fields and leaves the offset on the next record's boundary, within the buffer |
| Kernels.MaskRoundTrip | internal/cbinding/csrc/platform/linux/filecat_linux.c:360-370 | the type reported for a mask is the one its change stands for |
| Kernels.FlagValues | internal/cbinding/csrc/platform/linux/filecat_linux.c:360-370 | the same in the numbers of the kernel's interface, whatever attribute flags come along |
| Kernels.FlagOrder | internal/cbinding/csrc/platform/linux/filecat_linux.c:360-370 | of several flags the first in the source's order decides |
| Kernels.AbsPathLeads | internal/cbinding/csrc/platform/linux/filecat_linux.c:103-122 | walked component by component, the path built for a directory leads down the root's components and then its own, for every root |
| Kernels.AbsPathCanonical | internal/cbinding/csrc/platform/linux/filecat_linux.c:103-122 | no slash is doubled or left at the end, also below the root "/" |
| Kernels.AbsPathInjective | internal/cbinding/csrc/platform/linux/filecat_linux.c:103-122 | so the path names no other directory of the tree |
| Kernels.SubdirsAre | internal/cbinding/csrc/platform/linux/filecat_linux.c:266-290 | what is descended into is exactly the entries that are directories, by readdir or by lstat, and whose path finds memory |
| Kernels.TruthIsListed | internal/cbinding/csrc/platform/linux/filecat_linux.c:276-287 | when readdir and lstat tell the truth, also on a file system that leaves the kind unknown, the walk visits every subdirectory and nothing else |
| TreeWatchers.GivenBack | internal/cbinding/csrc/platform/linux/filecat_linux.c:230-243 | without memory for the entry no watch is left, the table is as before, and the IN_IGNORED will come |
| TreeWatchers.TreeWatcher.AddOneWatch | internal/cbinding/csrc/platform/linux/filecat_linux.c:223-244 | one add on strings and slots is the specification's add; a failed add changes nothing, and without memory for the entry the descriptor is given back |
| TreeWatchers.TreeWatcher.WatchSubtree | internal/cbinding/csrc/platform/linux/filecat_linux.c:252-256 | the walk in place reaches the specification's state |
| TreeWatchers.TreeWatcher.DescendAndWatch | internal/cbinding/csrc/platform/linux/filecat_linux.c:258-292 | the readdir loop, with its skipped entries, its lstat fallback and entries whose path finds no memory, is the walk over the other subdirectories |
| TreeWatchers.TreeWatcher.Sweep | internal/cbinding/csrc/platform/linux/filecat_linux.c:541-549 | the loop over the slots removes the watch of each directory at or below the moved one, once, and no other |
| LinuxWatchers.LinuxWatcher.Start | internal/cbinding/csrc/platform/linux/filecat_linux.c:466-472 | opening fails when the root cannot be watched or stored, then leaving no watch behind, and is otherwise the specification's walk from the root |
| LinuxWatchers.LinuxWatcher.Process | internal/cbinding/csrc/platform/linux/filecat_linux.c:494-560 | one turn of the loop is one step of the specification - overflow, ignored, nameless, unknown or reported - or, without memory for the path, takes the record and does nothing |
| LinuxWatchers.LinuxWatcher.NextEvent | internal/cbinding/csrc/platform/linux/filecat_linux.c:478-561 | a call takes the next records one by one, over as many reads as it needs, and ends at the first that is reported, is an overflow, or finds no memory for its path; it answers Closed exactly when a pass loads a latch that is set, which may happen between any two passes, and waits only when nothing is queued; no other record is lost |
| LinuxWatchers.LawfulIsValid | internal/cbinding/csrc/platform/linux/filecat_linux.c:478-561 | the runs next_event makes when nothing fails are those the agreement of table and tree is about |
| EndToEnd.OpenWatcher | internal/cbinding/csrc/platform/linux/filecat_linux.c:407-476 | opening a recursive watcher on bytes and strings, when nothing fails and directories are as they are read, leaves the table equal to the tree |
| EndToEnd.DrainedWatcherAgrees | internal/cbinding/csrc/platform/linux/filecat_linux.c:478-561 | one operation, then calls of next_event until nothing is left: table and tree agree and exactly the operation's events were returned |
| EndToEnd.DrainedPairAgrees | internal/cbinding/csrc/platform/linux/filecat_linux.c:478-561 | the same for two operations before the first call, the reports being right exactly under the condition of TwoUnreadOperations |
| EndToEnd.DrainOperation | internal/cbinding/csrc/platform/linux/filecat_linux.c:478-561 | calling next_event until it has nothing to read, after any operation: the loop ends, the table is again exactly the tree, and exactly the operation's events were returned |
| ComputeRels.ComputeRel | internal/cbinding/csrc/platform/macos/filecat_mac.c:132-169 | the two loops accept a path exactly when, trimmed, it is the root joined with something nonempty - one component when not recursive - and answer that |
| ComputeRels.AnswersTheUnjoined | internal/cbinding/csrc/platform/macos/filecat_mac.c:132-169 | what is answered is exactly the nonempty path whose join with the root is the trimmed input, for every root |
| ComputeRels.InvertsJoining | internal/cbinding/csrc/platform/macos/filecat_mac.c:137-168 | joining a path to the root and appending slashes is undone |
| ComputeRels.SiblingIsRejected | internal/cbinding/csrc/platform/macos/filecat_mac.c:154-155 | a sibling whose name begins like the root's is dropped |
| ComputeRels.PlainPaths | internal/cbinding/csrc/platform/macos/filecat_mac.c:137-168 | in plain concatenations, for the root "/" and for every other |
| MacSpec.Fifo | internal/cbinding/csrc/platform/macos/filecat_mac.c:262-281 | under any interleaving, what was popped followed by what is queued is what was queued at first followed by what was accepted |
| MacSpec.ConsumerGetsWhatWasAccepted | internal/cbinding/csrc/platform/macos/filecat_mac.c:433-481 | unless memory runs out the events answered, the one in the consumer's hand and those queued are, in this order, those accepted before closing |
| MacSpec.OverflowComesFirst | internal/cbinding/csrc/platform/macos/filecat_mac.c:443-447 | a pending overflow is answered before anything queued |
| MacSpec.NothingIsMissed | internal/cbinding/csrc/platform/macos/filecat_mac.c:483-494 | a parked consumer has no event, overflow or close it was not woken for, over every run |
| MacHandshake.NoLostWakeup | internal/cbinding/csrc/platform/macos/filecat_mac.c:437-450 | with the consumer's test and its wait, and a producer's write and its signal, as separate steps: what the test found still holds when the wait begins, and a waiting consumer has nothing to be told but what a producer holding the mutex is about to signal |
| MacHandshake.Answered | internal/cbinding/csrc/platform/macos/filecat_mac.c:262-281 | whenever there is something to tell, a consumer that has called is answered within five steps of whoever holds the mutex and itself |
| MacHandshake.RunRefines | internal/cbinding/csrc/platform/macos/filecat_mac.c:433-494 | every run of these steps is a run, with the same answers, of the queue with its critical sections as single steps |
| MacSpec.ClosedForGood | internal/cbinding/csrc/platform/macos/filecat_mac.c:439-442 | after a close every answer is Closed, nothing is accepted and nothing parks |
| MacSpec.CloseCloses | internal/cbinding/csrc/platform/macos/filecat_mac.c:483-494 | after a close, from any state, nothing is accepted or popped and every answer is Closed, but for an event already in hand |
| MacHandshake.CloseIsHeard | internal/cbinding/csrc/platform/macos/filecat_mac.c:483-494 | from the write of the latch on, over every run, a consumer that tests is answered Closed, none begins to wait, a waiting one is about to be woken, and one that has called can be answered Closed |
| MacHistory.FlagsSay | internal/cbinding/csrc/platform/macos/filecat_mac.c:262-281 | over every history the latch is set exactly after a Close, and the overflow flag exactly when events were dropped since Overflow was last answered |
| MacHistory.NextAnswer | internal/cbinding/csrc/platform/macos/filecat_mac.c:433-456 | the next answer from the history alone: Closed exactly after a Close, else Overflow exactly when one is due, else parked exactly when all that was accepted was taken, else the first accepted event not taken |
| MacHistory.HandIsAnswered | internal/cbinding/csrc/platform/macos/filecat_mac.c:458-480 | a popped event is lost for want of memory exactly when there is none to be had and its path is longer than all that were answered before |
| MacHistory.BatchIsSelection | internal/cbinding/csrc/platform/macos/filecat_mac.c:193-260 | a batch is the records that have a path below the root, in order, each with its type, its path and its inode |
| MacHistory.DropIsTold | internal/cbinding/csrc/platform/macos/filecat_mac.c:196-206 | a record that says events were dropped makes the next answer Overflow, unless a Close comes first |
| MacMoves.RenameBecomesMove | coalesce.go:209-228 | the two halves FSEvents reports of a rename, both as the old name and under one inode, come out as one Move from the first path to the second, whatever else shares the window |
| MacQueues.Splice | internal/cbinding/csrc/platform/macos/filecat_mac.c:274-278 | hanging one list behind another gives the chain of both, with head and tail both null or at its ends |
| MacQueues.MacQueue.BuildList | internal/cbinding/csrc/platform/macos/filecat_mac.c:193-260 | the local list holds one node for each record that lies below the root, in order |
| MacQueues.MacQueue.Callback | internal/cbinding/csrc/platform/macos/filecat_mac.c:182-282 | the batch is spliced in behind what is queued, or freed once the watcher is closing |
| MacQueues.MacQueue.TakeNext | internal/cbinding/csrc/platform/macos/filecat_mac.c:433-456 | under the lock: a closed, overflow or parked answer, or the first node is popped, as specified |
| MacQueues.MacQueue.ReturnNode | internal/cbinding/csrc/platform/macos/filecat_mac.c:458-480 | without the lock, and whatever callbacks came in between: the path is copied or finds no memory, and the popped node is freed once |
| MacQueues.MacQueue.Close | internal/cbinding/csrc/platform/macos/filecat_mac.c:483-494 | the close of the specification, which sets the latch for good, and wakes the consumer |
| MacQueues.MacQueue.Destroy | internal/cbinding/csrc/platform/macos/filecat_mac.c:302-309 | every node that ever entered the list has been freed, and none twice |

## Left out

- TreeWatchers.TreeWatcher.WatchSubtree: memory for a table entry does not run out inside a walk, because the walk's specification has no failed store; AddOneWatch has that path, and WatchLedger has it in every interleaving.
- TreeWatchers.TreeWatcher.DescendAndWatch: the same, for the adds below the directory.
- LinuxWatchers.LinuxWatcher.Start: the same, for the adds below the root.
- LinuxWatchers.LinuxWatcher.NextEvent: the kernel stands still during a call, but for what the call itself does; the kernel acting between any two system calls is in WatchLedger.
- EndToEnd.DrainOperation: watch descriptors stay C ints throughout (a precondition on the kernel), and no add, open, allocation or Close interferes.
- UserActions.TableAgreesWithTree: recursive watchers with every add and open succeeding, without exchange renames, and each operation drained before the next; Overlap has the exact outcome of any two that are not, and ThreeUnread shows that as much cannot be promised of three.
- The two disk probes resolveMove and resolveHalfMove, and joining the root to an emitted path: an entry is delivered as committed, with its half-move mark.
- The unwinding of the panic (its deferred closes) before the process dies: a panicked process takes no further step.
- The errors channel, which drops what does not fit, and the text of error codes.
- The class Kernel and the parameters of its methods stand for inotify, opendir, readdir and lstat; how the kernel splits a queue into reads is arbitrary.
- Windows, FSEvents and dispatch, realpath, character encodings, and the mapping of FSEvents flags to types.
- The cgo layer, and the identification of files by id (`fileid.go`).
