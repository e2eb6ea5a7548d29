# DirSurveiller watchdog: a verified model

The watchdog daemon turns two byte streams, one of exec calls and one of open calls, into an archive of
which process opened which file. Two socket threads parse lines in place and put records on ring buffers.
The main loop merges the two rings by timestamp into a table indexed by pid, marks the processes that
opened watched files and all their ancestors, and sends finished records through a third ring into a keyed
store with a secondary index by path. This project models that pipeline in Dafny and proves what it keeps.

`dafny verify dfyconfig.toml` checks everything.

## How it is laid out

| part | modules |
|---|---|
| containers | `RingBuffers`, `StringBuffers`, `Vectors` |
| stream parser | `LineStream` (the protocol as a reader and as a grammar), `StreamParser` (the in-place scan), `StreamTheorems` (whole streams), `SocketHandlers` (the mutable handler) |
| process table | `ProcessIndex`, `AncestorTracking`, `ClosureRuns` (ancestors over runs), `RecordTable`, `OpenConservation`, `CodedGuards`, and `ProcTables`, `Surveillers` (mutable records, table and surveiller) |
| main loop and threads | `EventLoop` (main in steps of one shared access), `Daemon` (all threads), `MergeOrder`, `CompareRun`, `Shutdown`, `QuietRuns`, `DispatchBound`, `RingLoss`, `Attribution`, `TableSteps`, `QuietAttribution`, `SocketToTable`, `EndToEnd`, `SocketToArchive`, `MainLoops` (the loop on the mutable surveiller) |
| archive | `Marshalling`, `Archive`, `ArchiveStore` (mutable buffers and stores) |

The classes follow the C structures and update their fields in place. Each of their methods is tied to a
specification function on values, and the theorems are about those functions.

## Where the code departs from its intent

- The guards of `procindex_add`, `procindex_opencall_add` and `procindex_retrieve` compare `pid+1` with
  `size` although the slot used is `pid+1` (src/watchdog/src/watchdog.c:304, 317, 321, 348, 363, 425). The model uses the
  repaired guards (`pid+2` slots; a pid equal to `maxPid`, for which the table can never be large enough, is
  rejected) and takes the parent's timestamp from the parent's slot instead of the empty one read at line 324.
  A parent whose slot is outside the table counts as absent. `CodedGuards` models the three functions as
  coded as well, and states for all inputs exactly when they agree with the repaired ones.
- The scans run one byte past the content (lines 643 and 841). Both bounds are modelled; `StaleByteMatters`
  says exactly when the extra byte changes anything, `MalformedLineEndsNextChunk` gives the inputs on
  which it does, and the theorems about well-formed streams hold for the bound as coded.
- A re-exec that arrives while only exec calls are queued is dropped (line 1369); a parent that execs again
  loses its mark; the exit may forget a held pair; a full
  dispatch ring loses a record silently (lines 951, 962, 980). All are kept as coded, with the exact
  condition: `InsertReplacesIff`, `AddKeepsClosureIff`, `ExitDropsPairIff`, and `ReplaceLosesIff`, `FlushSendsTracked`
  and `SweepLosesIff` for the three places where a record is lost; `BoundIsSharp` gives a run that loses one.
- A sweep sends off the record of a tracked process found dead, and destroys an untracked one past its threshold,
  although open calls of that process may still be queued; those then go into a placeholder
  (`SweptProcessKeepsRecordIff`).
- The documentation of `retrieveRecords_Path` (src/watchdog/include/database.h:131) promises the parent
  processes after the opening one. The parent key is neither stored nor shifted by the boot time, so the
  climb ends after at most one record; the model follows the code.

Assumptions: each ring read or write is one atomic step and all threads see the same memory. What happens
outside is a parameter or an arbitrary choice in a run: the chunks received, socket failures, the set of pids
found dead, `maxPid`, the boot time, memory not initialised by the program, and which parsed records pass
conversion and the path filter.

## Model

| member | source | states |
|---|---|---|
| `RingBuffers.RingRefinesFifo` | src/watchdog/src/containers.c:161-198 | over any history of reads and writes, across any number of wraps of both 32-bit cursors, the ring gives the answers and contents of a first-in first-out queue that refuses its 1025th element |
| `RingBuffers.PutAppends` | src/watchdog/src/containers.c:170-175 | a write is refused exactly when 1024 elements are queued, and otherwise puts the element last without disturbing the others |
| `RingBuffers.TakeRemovesOldest` | src/watchdog/src/containers.c:177-182 | a read returns the oldest element and leaves the others in order, or reports emptiness and changes nothing |
| `RingBuffers.MaskIgnoresWrap` | src/watchdog/src/containers.c:184-186 | wrapping a cursor does not change the slot it selects, because 1024 divides the 32-bit word |
| `RingBuffers.RingBuffer.Write` | src/watchdog/src/containers.c:170-175 | the mutable ring, written in place, appends to its contents or answers "full" exactly at 1024 |
| `RingBuffers.RingBuffer.Read` | src/watchdog/src/containers.c:177-182 | the mutable ring gives up its oldest element, or answers "empty" exactly when it is |
| `StringBuffers.StringBuffer.AppendBytes` | src/watchdog/src/containers.c:18-28 | the in-place append, growing by doubling, whose whole memory afterwards, also behind the content, is the specified one |
| `StringBuffers.StringBuffer.Append` | src/watchdog/src/containers.c:30-41 | the same for a C string: the terminator is written behind the content but is not content |
| `StringBuffers.StringBuffer.DeleteHead` | src/watchdog/src/containers.c:43-48 | at most the content is deleted; what lay behind the content stays where it was |
| `StringBuffers.StringBuffer.Flush` | src/watchdog/src/containers.c:50-53 | every byte is NUL and the content empty |
| `StringBuffers.AppendedReadsBack` | src/watchdog/src/containers.c:30-41 | as C reads it, a field buffer holds its former content and then the string appended |
| `StringBuffers.FlushedReadsEmpty` | src/watchdog/src/containers.c:50-53 | after a flush nothing that was in the buffer can be read, from any position |
| `StringBuffers.DoubledSize` | src/watchdog/src/containers.c:19-24 | doubling ends with the wanted position inside the buffer, at no more than twice that position, and does nothing if it is inside already |
| `Vectors.Vector.Append` | src/watchdog/src/containers.c:100-112 | the element is put last, in place or after one growth; the capacity is the grown one exactly if there was no room |
| `Vectors.GrowthMakesRoomIff` | src/watchdog/src/containers.c:101-107 | growth by one half makes room exactly from capacity two on |
| `Vectors.Vector.Get` | src/watchdog/src/containers.c:114-119 | the element at a position, or none exactly if the position is not below the length |
| `LineStream.ReaderMeetsGrammar` | src/watchdog/src/watchdog.c:643-713 | reading byte by byte with one unfinished line emits exactly the complete five-field lines of the stream, and what is kept is the last, incomplete line |
| `LineStream.ReaderInvertsPrinter` | src/tracer/bashtrace.sh:213 | records without tab, newline and NUL, printed tab-separated and newline-terminated, are read back exactly and in order |
| `StreamParser.ReceiveWithinContent` | src/watchdog/src/watchdog.c:641-713 | with the scan kept inside the content, one chunk has exactly the effect of its bytes on the unfinished line and on the records, through the buffer edited in place |
| `StreamParser.ReceiveAsCoded` | src/watchdog/src/watchdog.c:641-713 | as coded, one chunk has the effect of its bytes followed by a left-over delimiter, if one lies just behind them |
| `StreamParser.ScanFollows` | src/watchdog/src/watchdog.c:643-711 | loop invariant: after i bytes the fields, curr_field, lfield_start and the overwritten buffer stand for the line read so far |
| `StreamParser.ScanBlanksDelims` | src/watchdog/src/watchdog.c:704-709 | lines of exactly four tabs leave no tab or newline behind in the scanned buffer |
| `StreamTheorems.RecordsDependOnBytesOnly` | src/watchdog/src/watchdog.c:643-713 | for any NUL-free stream with at most five tabs a line, cut anywhere, the records are the lines with exactly four tabs, in order, whatever malformed lines stand between them (scan kept inside the content) |
| `StreamTheorems.StaleByteMatters` | src/watchdog/src/watchdog.c:643 | the read one past the content is harmless for a chunk if and only if the byte there is no tab, and is a newline only if the chunk ends its line |
| `StreamTheorems.MalformedLineEndsNextChunk` | src/watchdog/src/watchdog.c:698-713 | the failing family: a chunk that ends a line whose tabs are not four leaves the newline in memory, and the next chunk that fills the buffer up to there is taken for a finished line, which is right if and only if it is one |
| `StreamTheorems.MalformedLineSwallowsNextChunk` | src/watchdog/src/watchdog.c:698-713 | concrete inputs for a handler just started: after a first line without tabs, a part of a line of the same length vanishes |
| `StreamTheorems.FourTabStreamsAreSafe` | src/watchdog/src/watchdog.c:835-907 | as coded, a stream whose every finished line has four tabs is read exactly as the grammar says, because between chunks the buffer holds no delimiter |
| `StreamTheorems.PrintParseRoundTrip` | src/tracer/bashtrace.sh:261 | as coded, printed five-field records come back exactly and in order, however the bytes are cut into chunks |
| `SocketHandlers.SocketHandler.HandleChunk` | src/watchdog/src/watchdog.c:835-907 | the handler loop on the mutable buffer: records and unfinished line after a chunk are those of the byte reader |
| `SocketHandlers.SocketHandler.ScanLoop` | src/watchdog/src/watchdog.c:841-904 | the for loop with curr_field and lfield_start, edited in place, is the specified scan to one past the end |
| `SocketToTable.PrintedPrefixIsParsed` | src/watchdog/src/watchdog.c:641-713 | however much of a print has been received, in whatever chunks, the records read so far are the first ones printed, and all of them once all of it has been received |
| `SocketToTable.AcceptsWhatIsParsed` | src/watchdog/src/watchdog.c:653-696 | what a handler has accepted is what parser and conversion make of the chunks received so far, whatever rings and flags it finds |
| `SocketToTable.HandlersFollowTheirEvents` | src/watchdog/src/watchdog.c:1274-1277 | among all threads each handler does what its own steps do, given the ring and flags it finds at each |
| `SocketToTable.PrintedRecordsReachTheTable` | src/watchdog/src/watchdog.c:622-713 | at every moment of every interleaving, the open calls main has handed over, then what it holds, then what waits in the ring are a prefix of the accepted printed records, each once; and all of them once the print has been received and the handler waits |
| `SocketToTable.PrintedExecsReachTheTable` | src/watchdog/src/watchdog.c:812-908 | the same for the exec-call handler |
| `ProcessIndex.GrownSize` | src/watchdog/src/watchdog.c:304-316 | growth terminates, on the distance to the largest table, at a size that holds the wanted slot and never exceeds maxPid + 1 |
| `ProcessIndex.GrownKeeps` | src/watchdog/src/watchdog.c:304-316 | growth keeps every record and the well-formedness of the table (slot p + 1 holds only a record of pid p, parents lie inside the table) |
| `ProcessIndex.AddIsInsertion` | src/watchdog/src/watchdog.c:294-329 | an add inserts the record, linked to its parent, exactly when the pid is acceptable and its slot free; otherwise no record changes and the answer says why |
| `ProcessIndex.WithTargetHolds` | src/watchdog/src/watchdog.c:362-412 | an open call finds the record of its process, or a placeholder is put in; no other record changes |
| `ProcessIndex.RetrieveRemoves` | src/watchdog/src/watchdog.c:423-430 | retrieve returns what was there and empties that slot only |
| `ProcessIndex.SweepWellFormed` | src/watchdog/src/watchdog.c:972-992 | the liveness sweep keeps the table well-formed and decides each record by its own pid |
| `CodedGuards.CodedGrowthReachesSlotIff` | src/watchdog/src/watchdog.c:304-317 | as coded, growth leaves the slot used inside the table if and only if the pid is below maxPid and doubling does not stop exactly at pid + 1 |
| `CodedGuards.CodedAddAgreesUnlessFaulty` | src/watchdog/src/watchdog.c:294-329 | procindex_add as coded and as repaired agree on every input but an exactly stated family, on which the code leaves the array or follows a null pointer |
| `CodedGuards.CodedOpenAddAgreesUnlessFaulty` | src/watchdog/src/watchdog.c:340-420 | the same for procindex_opencall_add |
| `CodedGuards.CodedRetrieveAgreesUnlessFaulty` | src/watchdog/src/watchdog.c:423-430 | the same for procindex_retrieve |
| `AncestorTracking.OpenAddTracksExactlyAncestors` | src/watchdog/src/watchdog.c:413-417 | "a tracked entry's non-zero, present parent is tracked" is kept by an open call, after which exactly the entries tracked before, the process and all its reachable ancestors are tracked, cycles included; nothing but marks changes |
| `AncestorTracking.TrackParentsCloses` | src/watchdog/src/watchdog.c:331-338 | stopping at the first tracked ancestor is enough to restore the closure |
| `AncestorTracking.TrackParentsMarksOnlyAncestors` | src/watchdog/src/watchdog.c:331-338 | the walk marks nothing but ancestors |
| `ProcessIndex.MarkShrinksUntracked` | src/watchdog/src/watchdog.c:331-338 | every step of the walk lowers the number of untracked entries, so cyclic parent links end too |
| `AncestorTracking.RetrieveKeepsClosure` | src/watchdog/src/watchdog.c:423-430 | retrieve keeps the closure |
| `AncestorTracking.SweepKeepsClosure` | src/watchdog/src/watchdog.c:975-989 | the liveness sweep keeps the closure |
| `AncestorTracking.AddKeepsClosureIff` | src/watchdog/src/watchdog.c:321-325 | an exec call keeps the closure if and only if no tracked entry names the new pid as its parent |
| `AncestorTracking.ReplaceKeepsClosureIff` | src/watchdog/src/watchdog.c:942-955 | the same for a replacement, with the previous record taken out first |
| `ClosureRuns.DeliverKeepsClosureIff` | src/watchdog/src/watchdog.c:1309-1371 | whichever way a call is handed over, the closure is kept if and only if the call puts in no new record whose pid a tracked entry names as its parent |
| `ClosureRuns.ClosedThroughoutIff` | src/watchdog/src/watchdog.c:1296-1415 | from a closed index, over every interleaving and whatever the sweeps find dead, the closure holds at every moment if and only if every call handed over is of that kind |
| `AncestorTracking.ReexecedParentStaysUntracked` | src/watchdog/src/watchdog.c:413-417 | the failing family: a parent that execs after its child was tracked is present, is the child's parent, and stays unmarked by further open calls of the child |
| `RecordTable.AddExecEffect` | src/watchdog/src/watchdog.c:942-955 | a replacement puts in the new record, sends exactly the previous one to the ring, and touches no other pid |
| `RecordTable.ExecCallRecord` | src/watchdog/src/watchdog.c:173-192 | the record of an exec call put in has the call's fields, no mark and no open calls, and its parent with the parent's timestamp exactly if the parent has a record of its own |
| `RecordTable.PlaceholderRecord` | src/watchdog/src/watchdog.c:380-409 | the record of a process known only by an open call: no parent, the call's command name, the arguments "unknown", marked, with that call |
| `Basics.TimesCompareAsMoments` | src/watchdog/src/watchdog.c:1310-1311 | the comparisons order timestamps as the moments they stand for |
| `RecordTable.InsertReplacesIff` | src/watchdog/src/watchdog.c:1369 | the direct procindex_add does what surv_addExecCall does if and only if no record of that pid is present; otherwise it leaves every record as it was |
| `RecordTable.ReplaceLosesIff` | src/watchdog/src/watchdog.c:951 | a replacement loses the previous record if and only if there is one and the ring is full |
| `RecordTable.SweepLosesIff` | src/watchdog/src/watchdog.c:980 | a sweep loses a record if and only if it sends more of them than the ring has room for |
| `RecordTable.DeliverOk` | src/watchdog/src/watchdog.c:1309-1371 | every delivery keeps the table well-formed and the ring within 1024 |
| `RecordTable.OpenAddWellFormed` | src/watchdog/src/watchdog.c:340-420 | an open call keeps the table well-formed, is refused exactly for an unacceptable pid, and otherwise leaves its process tracked |
| `RecordTable.FlushSendsTracked` | src/watchdog/src/watchdog.c:957-969 | the flush empties every slot, sends exactly the tracked records in pid order, and loses one exactly when there are more of them than room in the ring |
| `RecordTable.DyingRecsInPidOrder` | src/watchdog/src/watchdog.c:975-982 | the sweep sends exactly the tracked records of dead processes, in pid order |
| `RecordTable.SweepSparesTheLiving` | src/watchdog/src/watchdog.c:976-988 | a sweep leaves the record of every process alone that it does not find dead |
| `RecordTable.UntrackedGoesOnFourthSweep` | src/watchdog/src/watchdog.c:983-988 | over any sweeps, an untracked record outlives three that find its process dead and is destroyed by the fourth; until then only its count changes, by one for each of them |
| `RecordTable.TrackedGoesOnFirstSweep` | src/watchdog/src/watchdog.c:979-982 | over any sweeps, a tracked record stays as it is until the first that finds its process dead |
| `ProcTables.ExecCall.AddCall` | src/watchdog/src/watchdog.c:365-376 | the call buffer, grown when exactly two places are left, takes one more call behind the others; two places stay free, so no write leaves it |
| `ProcTables.ProcTable.Reserve` | src/watchdog/src/watchdog.c:304-316 | the growth loop on the mutable array |
| `ProcTables.ProcTable.Add` | src/watchdog/src/watchdog.c:294-329 | procindex_add on mutable records: table, answer and record afterwards are the specified ones |
| `ProcTables.ProcTable.TrackParents` | src/watchdog/src/watchdog.c:331-338 | the recursion that marks records in place, and its termination |
| `ProcTables.ProcTable.OpenCallAdd` | src/watchdog/src/watchdog.c:340-420 | procindex_opencall_add in place, placeholder, buffer growth and marking included |
| `ProcTables.ProcTable.Retrieve` | src/watchdog/src/watchdog.c:423-430 | procindex_retrieve in place |
| `ProcTables.WriteAll` | src/watchdog/src/watchdog.c:980 | unchecked writes to the dispatch ring keep what fits and lose exactly the rest |
| `Surveillers.Surveiller.AddExecCall` | src/watchdog/src/watchdog.c:942-955 | surv_addExecCall in place |
| `Surveillers.Surveiller.CheckProcVitals` | src/watchdog/src/watchdog.c:972-992 | the sweep loop in place |
| `Surveillers.Surveiller.FlushProcindex` | src/watchdog/src/watchdog.c:957-969 | the flush loop in place |
| `Surveillers.Surveiller.DrainDispatchQueue` | src/watchdog/src/watchdog.c:1385-1397 | the dispatch batch: everything in the ring goes to the archive in order, and the archive is at all times the one built from what was drained |
| `OpenConservation.DeliverConserves` | src/watchdog/src/watchdog.c:362-417 | a delivery puts an accepted open call into exactly one call buffer, once, and moves no other call out of the buffers |
| `OpenConservation.SweepConserves` | src/watchdog/src/watchdog.c:972-992 | a sweep moves open calls with their records and destroys only records that have none |
| `OpenConservation.FlushConserves` | src/watchdog/src/watchdog.c:957-969 | so does the final flush, which leaves none in the index |
| `EventLoop.PassDoesItsTurn` | src/watchdog/src/watchdog.c:1309-1372 | a pass of the loop, executed in steps of one shared access each, does exactly the specified turn in each of its modes |
| `EventLoop.FinishDecides` | src/watchdog/src/watchdog.c:1373-1414 | the five reads of the exit condition, in short-circuit order, decide between final flush and next pass; the ring is drained at the exit and every 512 ticks |
| `EventLoop.DeadMattersOnlyAtSweeps` | src/watchdog/src/watchdog.c:1304-1307 | which processes are dead matters at the head of the loop every 1024 ticks, and nowhere else |
| `EventLoop.SweepComesFirst` | src/watchdog/src/watchdog.c:1304-1318 | there the sweep is made before the call that is due is handed over |
| `EventLoop.ReexecIsDropped` | src/watchdog/src/watchdog.c:1367-1371 | an exec call that comes while only exec calls are queued, and whose process has a record, is taken from the ring and leaves every record as it was |
| `MergeOrder.QuietOutputIsStableMerge` | src/watchdog/src/watchdog.c:1309-1372 | with no arrivals the whole output is the stable merge of both rings, behind the held pair if there is one: each call once, each stream in its order, and sorted with exec calls first on ties if the streams are |
| `MergeOrder.DriveMerges` | src/watchdog/src/watchdog.c:1309-1344 | the same from any held pair, against the textbook merge |
| `MergeOrder.MergeSorted` | src/watchdog/src/watchdog.c:1310-1311 | the merge of two sorted rings is sorted, exec calls first on ties |
| `MergeOrder.MergeKeepsBoth` | src/watchdog/src/watchdog.c:1324-1329 | the merge loses, adds and reorders nothing within a ring |
| `CompareRun.CompareRunIsSorted` | src/watchdog/src/watchdog.c:1309-1356 | over every interleaving with time-sorted producers, the calls handed over since compare mode was entered are sorted, exec first on ties, and none belongs behind a held call, whatever arrives meanwhile |
| `CompareRun.RunFollowsLog` | src/watchdog/src/watchdog.c:1345-1356 | the calls that theorem speaks of are all those handed over since the pair was picked up |
| `Daemon.HandlersLeaveNoGap` | src/watchdog/src/watchdog.c:672-695 | at every moment of every run the records written to a ring are a prefix of those accepted |
| `Daemon.GivesUpAfterFourTries` | src/watchdog/src/watchdog.c:867-885 | a record that finds the ring full is offered four times, and exactly then the handler gives up for good |
| `Daemon.TriesStartAfresh` | src/watchdog/src/watchdog.c:676 | every record starts with no failed attempt on its account |
| `Daemon.ChunkIsWritten` | src/watchdog/src/watchdog.c:641-713 | with room in the ring everything accepted from a chunk is written, in order, and the handler goes back to its guard |
| `Daemon.GuardObeysShutdown` | src/watchdog/src/watchdog.c:622-724 | at its guard a handler goes on to receive exactly if shutdown is not set; otherwise it stops with its flag lowered |
| `Daemon.FailureEndsHandler` | src/watchdog/src/watchdog.c:566-640 | a failure to connect or to receive ends the handler, flag lowered, nothing written |
| `Daemon.StoppedHandlersAreNotBusy` | src/watchdog/src/watchdog.c:723-724 | over every run, a handler that has stopped has its processing flag down |
| `Daemon.ShutdownIsRemembered` | src/watchdog/src/watchdog.c:936 | over every run, a shutdown request is never forgotten, and only a request or tick 424242 sets shutting_down |
| `Shutdown.CallsAreConserved` | src/watchdog/src/watchdog.c:1309-1383 | over every run, what came out of each ring is, in order, what was handed over and then what is held: one call of each kind in compare mode and none otherwise |
| `Shutdown.ExitIsSafe` | src/watchdog/src/watchdog.c:1373-1376 | over every interleaving of main, both handlers and the shutdown thread: once main has found the exit condition true no handler ever writes again, and all that was written has been handed over but for the held pair |
| `Shutdown.ApplyKeepsKnowledge` | src/watchdog/src/watchdog.c:575-622 | the inductive invariant behind it: what main has learnt from each read of the exit condition stays true under every step of every thread |
| `QuietRuns.QuietRunDrives` | src/watchdog/src/watchdog.c:1296-1372 | with nothing arriving and main not about to exit (a handler up, or no shutdown due), at most twice the queued calls plus one passes empty both rings and hand over their merge |
| `QuietRuns.ExitRunMerges` | src/watchdog/src/watchdog.c:1309-1376 | the deliveries up to the exit, followed by the two calls of the pair left in hand if there is one, are the stable merge of what was queued and held |
| `QuietRuns.ShutdownDrainsOut` | src/watchdog/src/watchdog.c:1296-1415 | with shutdown set and both flags down, main exits within twice the queued calls plus two passes |
| `QuietRuns.StoppedDaemonExits` | src/watchdog/src/watchdog.c:1296-1415 | after any run in which shutdown has been requested and both handlers have stopped, main exits within that many passes, with both rings empty and everything queued and held delivered as the stable merge but for the two calls of a pair it may hold |
| `QuietRuns.StoppedDaemonCanExit` | src/watchdog/src/watchdog.c:1296-1415 | the same from any point of the loop: steps of main alone lead out of it |
| `QuietRuns.ExitDropsPairIff` | src/watchdog/src/watchdog.c:1373-1377 | with shutdown set and both handlers stopped, in compare mode or not: main exits with everything queued and held delivered as the stable merge but for the two calls of a pair it may hold; it holds one if and only if that merge has at least three calls and ends with one of each kind, for sorted streams: their last calls come into hand together |
| `QuietRuns.PairMixedIff` | src/watchdog/src/watchdog.c:1330-1343 | the condition for the forgotten pair, for streams in any order |
| `QuietRuns.PassIsMainSteps` | src/watchdog/src/watchdog.c:1296-1415 | a pass is a run of consecutive steps of main in the interleaved system |
| `DispatchBound.DispatchNeverOverflows` | src/watchdog/src/watchdog.c:1384-1397 | over every run in which the sweeps between two drains find at most 512 tracked dead entries, no ignored write result loses a record before the final flush |
| `RingLoss.OneMoreThanTheBoundLoses` | src/watchdog/src/watchdog.c:942-955 | just after the drain half-way between two sweeps, with 512 replacements due, a sweep that finds 513 tracked dead entries before the next drain loses a record |
| `RingLoss.BoundIsSharp` | src/watchdog/src/watchdog.c:1384-1397 | there is a run, with both handlers, in which the sweeps between two drains find 513 tracked dead entries and a record is lost before the loop is left, so the bound of 512 cannot be raised |
| `DispatchBound.OpenCallsSitInOneBuffer` | src/watchdog/src/watchdog.c:1362 | over every run, each accepted open call sits in exactly one call buffer of one record: in the index, in the dispatch ring, archived, or refused by a full ring, the last excluded under that bound |
| `EndToEnd.EverythingIsAccountedFor` | src/watchdog/src/watchdog.c:1377-1397 | when main has left its loop, table and ring are empty, every written call has been handed over but for the held pair, and the archived records carry exactly the accepted open calls, but for records the ring refused |
| `EndToEnd.RecordsAreTheGenerations` | src/watchdog/src/watchdog.c:972-1372 | over every interleaving, whatever the sweeps find dead, as long as no record is lost: the records of each process, sent off and present, are exactly the generations of its life, in order, each once and with exactly its open calls |
| `EndToEnd.TaleIsLog` | src/watchdog/src/watchdog.c:1309-1372 | the calls in that life are exactly those handed over, in order |
| `EndToEnd.SparedLife` | src/watchdog/src/watchdog.c:972-992 | the life of a process that no sweep finds dead depends on the calls handed over alone, whatever happens to others |
| `EndToEnd.EveryOpenCallHasItsRecord` | src/watchdog/src/watchdog.c:1362 | over the same runs every open call handed over sits in the record of the generation present then, or that it began, and once main has left its loop that record has been archived, or refused by a full ring |
| `EndToEnd.EveryCallOfSparedProcess` | src/watchdog/src/watchdog.c:1362 | the same told by the log alone, for a process that no sweep finds dead |
| `SocketToArchive.HandedCallIsArchived` | src/watchdog/src/watchdog.c:1373-1397 | over every run that ends without losing a record, every open call handed over is in an archived record, that of its generation |
| `SocketToArchive.PrintedOpenIsFound` | src/watchdog/src/watchdog.c:622-1397 | from the socket to the lookup: an accepted printed open call handed over before the end is in an archived record of its process and, if no call of the same time and path end was archived before it, a lookup by its path finds it with the exec call of its process |
| `Attribution.DeliveriesAttributed` | src/watchdog/src/watchdog.c:342-420 | over any sequence of replacements, direct insertions and open calls in which no record is lost, the records of a process, those sent off and then the one present, are exactly the generations of its life, in order, each once, each with exactly its open calls |
| `Attribution.SweepMatches` | src/watchdog/src/watchdog.c:972-992 | a sweep sends the present generation off, or destroys it if it has no open calls, or leaves it, exactly as its mark and its deadness say |
| `Attribution.SweptProcessKeepsRecordIff` | src/watchdog/src/watchdog.c:975-989 | after a sweep an open call still reaches the exec record that was present if and only if the process was not found dead, or was untracked and not yet past the threshold; otherwise it goes into a placeholder |
| `Attribution.OpenCallIsAttributed` | src/watchdog/src/watchdog.c:413 | in a table that follows the life of a process every open call sits in the record of the generation present when it was handed over, or that it began, with exactly the open calls up to the end of that generation |
| `QuietAttribution.OpenCallsReachTheirExecCalls` | src/watchdog/src/watchdog.c:1309-1372 | with both streams sorted, no arrivals and main not about to exit, every open call queued or held whose process no sweep finds dead ends in the buffer of the latest exec call of its pid not later than it, or else in the record held before or the placeholder, whatever happens to other processes, as long as the ring cannot overflow |
| `QuietAttribution.OpenCallsReachTheArchive` | src/watchdog/src/watchdog.c:1373-1397 | the same through the exit, with shutdown set and both handlers stopped: but for the last open call if the exit forgets it, each ends in such a record that has been archived, or refused by a full ring during the flush |
| `QuietAttribution.LastIsLatest` | src/watchdog/src/watchdog.c:1310-1311 | in a sorted output the last preceding exec call of a process is the latest by timestamp |
| `MainLoops.MainPass` | src/watchdog/src/watchdog.c:1296-1415 | one iteration of the loop on the mutable surveiller is the specified pass |
| `MainLoops.ShutdownLoop` | src/watchdog/src/watchdog.c:1296-1415 | the while loop after shutdown ends, with both rings empty and every queued call delivered in order but for the pair the exit may hold |
| `Marshalling.ExecRoundTrip` | src/watchdog/src/database.c:115-160 | marshal then unmarshal restores every field, for all NUL-free strings, fills exactly the computed size, and returns the parent key as its cleared value |
| `Marshalling.OpenRoundTrip` | src/watchdog/src/database.c:241-274 | the same for open records, and the index callback's offset is where the path was put |
| `Marshalling.ExecLayout` | src/watchdog/src/database.c:127-132 | where each field of an exec record stands in its bytes |
| `Marshalling.OpenLayout` | src/watchdog/src/database.c:251-254 | where each field of an open record stands in its bytes |
| `Marshalling.LowestByteFirst` | src/watchdog/src/database.c:127-129 | numbers are copied from memory with their lowest byte first |
| `Marshalling.KeyCompOrdersIff` | src/watchdog/src/database.c:107-111 | the key comparison tells apart exactly the different keys; it orders two keys by time and then by pid if and only if the times differ or the pid difference does not wrap |
| `Marshalling.KeyCompIsTotalOrder` | src/watchdog/src/database.c:107-111 | on keys of processes, whose pids are not negative, it is a total order |
| `ArchiveStore.MObject.MarshalExec` | src/watchdog/src/database.c:115-136 | the buffer allocated is filled to its last byte with the specified layout; a used object is refused unchanged |
| `ArchiveStore.MObject.MarshalOpen` | src/watchdog/src/database.c:241-258 | the same for open records |
| `ArchiveStore.ReadExec` | src/watchdog/src/database.c:138-160 | the unmarshalling walk along the buffer |
| `ArchiveStore.DbManager.AddExecCall` | src/watchdog/src/database.c:591-619 | the put keeps the stores consistent, is rejected exactly for a taken key, and under a free key the record comes back with every field but the parent key; the key is present afterwards in any case |
| `ArchiveStore.DbManager.AddOpenCall` | src/watchdog/src/database.c:657-681 | the put and its filing in the secondary index keep the stores consistent |
| `ArchiveStore.DbManager.ExecChain` | src/watchdog/src/database.c:563-579 | the climb along parent keys ends, with at most one record |
| `ArchiveStore.DbManager.RetrieveRecordsPath` | src/watchdog/src/database.c:536-587 | the cursor loop appends exactly the looked-up full records, in filing order |
| `ArchiveStore.DbManager.DatabaseDispatch` | src/watchdog/src/watchdog.c:1186-1219 | one drained record is archived with all its open calls, whatever keys exist already |
| `Archive.ArchiveIsConsistent` | src/watchdog/src/watchdog.c:1186-1219 | whatever records are archived, duplicates included: every stored open record's exec key is in the exec store, stored bytes carry their own key, and the index files each stored record once under its path and nothing else |
| `Archive.EveryRecordIsStored` | src/watchdog/src/watchdog.c:1199-1211 | from its dispatch on, a record's exec key and the keys of all its open calls are stored, and nothing stored is overwritten |
| `Archive.StoredOpenFindsItsExec` | src/watchdog/src/database.c:621-653 | a lookup by the key of a stored open record succeeds and yields the exec record of that key, and no more than one |
| `Archive.LookupIsFullScan` | src/watchdog/src/database.c:536-587 | a lookup by path is a full scan: exactly the stored open records with that path, each once |
| `Archive.ArchivedOpenIsFound` | src/watchdog/src/database.c:657-681 | an open call just archived is found by its path with the exec record of its process, if its key was free |
| `Archive.PutThenGet` | src/watchdog/src/database.c:591-653 | an exec record put under a free key comes back, every field but the parent key; a taken key and every other key are left as they are |
| `Archive.FirstRecordIsStored` | src/watchdog/src/watchdog.c:1199-1204 | after any archived sequence, under its key stands the first record of a process and time, as it was archived |
| `Archive.OpenKeysCollideIff` | src/watchdog/src/database.c:218-239 | two open records take the same key if and only if their times, the last 99 characters of their paths, and what lies in memory behind them are equal |
| `Archive.RefusedPutHasTwin` | src/watchdog/src/database.c:657-681 | an open record is refused only if a stored one has the same time and the same last 99 characters of its path |
| `Archive.ArchiveKeysOk` | src/watchdog/src/database.c:235-239 | after any archived sequence every key of the open store carries the time and path end of its record |
| `Archive.MovedBySeconds` | src/watchdog/src/watchdog.c:1198 | the shift adds the boot time to the seconds, as long as that does not leave 64 bits |
| `Archive.EveryFreshCallIsFound` | src/watchdog/src/watchdog.c:1186-1219 | after any archived sequence, every open call before which no call of the same time and path end was archived is found by its path, with its own flag and time shifted by the boot time, and with pid, parent pid, command, arguments and shifted time of the first archived record of its process and time |

## Left out

- Sockets, `select`, signals, the kill pipe, log files, sleeping and `/proc`: choices of the surroundings, as above.
- The control socket, `watchdog_ctrl` and the JSON and text printers: option and string plumbing.
- libart's path filter, numeral conversion, the timestamp's dot and the inode lookup: which parsed records are accepted, and as what, is an arbitrary function in `SocketToTable` and an arbitrary sequence in `Daemon`.
- Lines with more than five tabs in one line: the handlers have no sixth field buffer, and the stream theorems exclude them.
- Allocation failures, frees and destructors, including `g_ringBuffer_destroy`.
- Berkeley DB below the level of maps and a multimap: environments, cursors, transactions and the order of duplicates (here the order of filing).
- The width of `end_pos`, `size`, `call_num` and of the main loop's counter: these are unbounded here; the ring cursors, pids and timestamps have their widths.
- Empty keys in `db_execCall_KeyComp`: every key the program makes has its full size.
- `char_ringBuffer`: the same arithmetic as `g_ringBuffer` for single characters.
- RingBuffers.RingBuffer.Write: does not model the cursor being advanced before the element is stored, because a write is one atomic step.
- SocketHandlers.SocketHandler.HandleChunk: holds the five field buffers by their contents; it covers one chunk, the writes to the ring are steps of `Daemon`.
- Surveillers.Surveiller.CheckProcVitals: rings carry copies of records, so that a ring and the table never share an object is not part of the statement.
- MainLoops.MainPass: covers passes in which nothing arrives, with the two input rings held by their contents; arrivals in the middle of a pass are covered by `Daemon`, step by step.
- QuietAttribution.OpenCallsReachTheirExecCalls: supposes that no sweep finds the process of the open call dead; `Attribution.SweptProcessKeepsRecordIff` says exactly when a sweep diverts its calls, and `EndToEnd.EveryOpenCallHasItsRecord` covers all runs with sweeps.
- Vectors.Vector.Append: requires a free place or a capacity of at least two; below that the growth makes no room (`GrowthMakesRoomIff`) and the source writes behind its array. All vectors of the program start at a capacity of eight or more.
- `src/ftracer` and `src/tracer`, but for the two output formats of `bashtrace.sh`.
