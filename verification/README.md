# A verified model of the Eidetic daemon

The Eidetic daemon watches the files other tools write, turns new lines into records (*engrams*), keeps them in
SQLite and serves them over HTTP. This project models its stateful core in Dafny and proves what it promises.

`dafny verify dfyconfig.toml` checks everything.

## How it is laid out

| part | modules | form |
|---|---|---|
| shared | `Engrams`, `Collections`, `Sorting` | records, metas, size limits; facts about sequences; stable sorting, functional and in place |
| capture | `Chunking`, `JsonlParser`, `JsonlTailing`, `JsonlText`, `CursorParser`, `OffsetState`, `Watcher` | the parsers, the offset file and the watcher as methods and classes |
| capture, every interleaving | `CapturePath`, `CaptureScheduler`, `CaptureProtocol`, `CaptureSafety`, `CaptureTheorems`, `CaptureHistory`, `CaptureTimers`, `CaptureShutdown` | the same watcher as a state machine: appends, events, timers, parse-and-commit jobs, failures, shutdown, crash, restart |
| reading back | `Reassembly`, `ReassemblyRoundTrip`, `ReassemblyBytes`, `CursorRoundTrip`, `CaptureRoundTrip`, `CaptureEveryRun` | the Python bridge's reassembly, that it undoes the splitting and conserves bytes, and the way from files through the store back to their lines or contents |
| store and API | `StoreCounters`, `Store`, `Export`, `Timeline`, `AskCache`, `Latency`, `TextSearch` | rows with trigger-kept counters, paginated export, timeline merge, the /ask cache, latency ring, question rewriting |
| around it | `Bundle`, `BundleText`, `Broker`, `Hooks` | import bundles, the wake broker, outbound hooks |

How the capture part fits together: `CapturePath.Good` is the invariant of one file, over *moves* (grow, parse, insert,
set offset, save, crash). `CaptureProtocol` is the whole daemon, over *steps*. `CaptureSafety.StepIsMove` shows that
each step is, for each path, one of those moves; `CaptureScheduler` holds the invariants of timers, jobs, mutexes and
the in-flight counter; `CaptureTheorems` puts them together for every run. `CaptureHistory` says when a run stores each
line once, `CaptureTimers` when the map of timers tells the truth, `CaptureShutdown` that a shutdown comes to its end. `Watcher.CaptureWatcher` has the watcher's own
methods, each proved to be a run of that state machine (`Watcher.MethodsStayInRuns`). A job may be interrupted anywhere
between its steps, so the theorems cover any number of jobs, timers, failures, crashes and restarts in any order.

## What turned out differently from the comments

In each case the model follows the code, gives a run or an input that shows the difference, and proves for all runs or
inputs when it arises.

- `parser_jsonl.go:174-179` says a stable chunk id makes a re-captured record idempotent. Rows of a record stored
  several times are all merged, each piece next to its copies, so the record is restored exactly when it was stored
  once (`ReassemblyRoundTrip.RedeliveredIsRestoredIffOnce`). Two oversized records with equal bytes share an id as
  well: the round trip succeeds exactly when the ids differ (`RoundTripIffDistinct`).
- `store.go:102-106` says a failed counter backfill heals on the next restart. After one insert it does so only if the
  store was empty; and if the inserted row's surface had rows already, the counters are wrong in every later run,
  whatever is written and however often the store is opened (`StoreCounters.FailedBackfillIsPermanentIff`).
- `/timeline` accepts limits up to 1000, but `Retrieve` gives at most 500 rows. Its answer is right on every store
  exactly when the limit is at most 500 and no surface is named twice, or the limit is 1 (`Timeline.AlwaysRightIff`).
- The cursor parser carries a 64-bit fold of the content hash as the file's "offset", where 0 also means "never seen".
  A save is captured exactly when its fold differs from the mark of the save before it, or is 0
  (`CursorParser.CaptureSaves`): an unchanged file with fold 0 is captured again each time, and a changed file whose
  fold is the same is missed.
- Capture is at least once, as documented, and a line can indeed be stored twice (`CaptureHistory.CrashMayStoreTwice`);
  `ExactlyOnceIffStopsAreCovered` says exactly when it is not.
- flushAll is said to stop all pending timers (`watcher.go:343`). A callback that fires late deletes the map entry of the
  timer that replaced its own, which flushAll then cannot find (`CaptureTheorems.ArmedTimerMayBeUnlisted`). An armed timer
  is in the map exactly when no callback of its path has deleted the entry since it was armed and flushAll has not taken
  the map (`CaptureTimers.ListedIff`), and exactly the timers unlisted in this way stay armed
  (`FlushLeavesTheUnlisted`). The in-flight counter is balanced all the same.
- Concurrent `WakeActive` calls hold only the read lock, so two subscribers of one role may see two events in
  opposite orders (`Broker.SubscribersMayDisagree`), but only those of calls that overlap (`DisagreementMeansOverlap`).
- A chunked file that returns to an earlier content is captured again under the same chunk id, and the rows of both
  captures are merged into one: after saves a, b, a no result is a (`CursorRoundTrip.RevertedContentIsLost`). The
  current content comes back exactly when it fits one row or was captured once, if no other content the file has had
  shares its fold or chunk id (`CurrentFileComesBackIff`).
- A state.json holding `null`, for the whole or for a surface, loads without an error, and the first Set that has to
  write there panics (`OffsetState.State.Set`). The daemon never writes such a file (`SaveThenLoad`).
- The rate limit of a hook needs no unique name: a decision under a shared name only makes it stricter.

## Model

| member | source | states |
|---|---|---|
| CaptureTheorems.NoLineLost | internal/capture/watcher.go:277-332 | Over every run: each complete non-blank line in front of the saved offset is in the store, everything in the store is a record of the file, and saved offset <= volatile offset <= file length |
| CaptureTheorems.ExactlyOnceIffEndsClean | internal/capture/watcher.go:292-332 | Over every run: the store holds the records before the committed offset, once each and in file order, if and only if no process ended between an InsertBatch and the Save that covers it |
| CaptureHistory.ExactlyOnceIffStopsAreCovered | internal/capture/watcher.go:320-331 | The same in terms of the steps taken: exactly once if and only if every InsertBatch of records of the file was followed by SetOffset and a successful Save, its own or another's, before the process ended |
| CaptureHistory.StopsAreCoveredIffEndsClean | internal/capture/state.go:79-101 | The condition on steps and the condition on offsets are the same |
| CaptureHistory.CrashMayStoreTwice | internal/capture/watcher.go:320-329 | A run that ends the process between InsertBatch and Save, restarts it, and has one line in the store twice |
| CaptureRoundTrip.CleanRunGivesBackTheLines | internal/capture/parser_jsonl.go:130-162 | From file to store to reader: on a run whose stops are covered, the stored rows in any order reassemble into the non-blank lines before the committed offset, each once, if and only if no two oversized ones share a chunk id; in stored order they give the lines in file order |
| CaptureEveryRun.RowsGiveBackTheLinesIff | internal/capture/parser_jsonl.go:130-162 | In every run, for any files together: all their stored rows, in any order, reassemble into the non-blank lines before the committed offsets, each once, if and only if the stops are covered for each file and no two oversized lines, of one file or of two, share a chunk id |
| CaptureTheorems.NoInsertAfterReturn | internal/capture/watcher.go:124-133 | In every interleaving the in-flight counter is armed timers plus unfinished jobs; once Run has returned, and while the store is closed, no timer is armed, no job exists, and no step of one is possible |
| CaptureShutdown.ShutdownCompletes | internal/capture/watcher.go:124-166 | From every state that a run reaches after the loop is left, with timers armed and jobs at any stage, steps of these timers and jobs alone lead to where Run returns and then the store is closed |
| CaptureShutdown.SignalIsObeyed | internal/capture/watcher.go:135-166 | So a signal in the initial scan, in the loop or in the midst of flushAll can always be followed through to the closed store |
| CaptureShutdown.FinishingFinishes | internal/capture/watcher.go:257-332 | In any order they are taken, each such step strictly lessens a finite measure of what timers and jobs have left to do |
| CaptureShutdown.SomebodyGoesOn | internal/capture/watcher.go:281-285 | While a timer is armed or a job exists, one of them can take a step: no job waits for a mutex for ever |
| CaptureShutdown.WorldIsFree | internal/capture/watcher.go:257-364 | In every reached state the protocol leaves to the world what is the world's: appends at any time, events while the loop runs, firing timers, failures to read, insert and save, and the end of the process |
| CaptureTheorems.ArmedTimerMayBeUnlisted | internal/capture/watcher.go:267-273 | A run in which flushAll leaves an armed timer that the map does not list |
| CaptureTimers.ListedIff | internal/capture/watcher.go:257-275 | In every run: an armed timer is in the map under its path if and only if, since it was armed, no callback of that path has deleted the path's entry and flushAll has not taken the map |
| CaptureTimers.FlushLeavesTheUnlisted | internal/capture/watcher.go:343-364 | In every run: once flushAll is through, the timers still armed are exactly those armed when it began, whose path's entry some callback had deleted since they were armed, and that have not fired meanwhile |
| CaptureTheorems.NoLostWakeup | internal/capture/watcher.go:257-275 | Before shutdown, a path whose reported bytes no Parse has read has an armed timer or a job that has not begun its Parse |
| CaptureTheorems.QuietMeansCaughtUp | internal/capture/watcher.go:257-346 | With nothing armed or running, every line complete at the last event is in the store unless the last attempt failed |
| CaptureHistory.ReadMeansStored | internal/capture/watcher.go:292-325 | In every run: all lines complete when the last Parse of a file began are in the store, unless that attempt failed or its batch is still on its way |
| CaptureHistory.ParseCatchesUp | internal/capture/watcher.go:195-213 | So the initial scan catches up with what was written while the daemon was down: the lines a file holds when a job parses it are in the store from then on, under the same two conditions |
| CaptureTheorems.BatchesPartitionTheFile | internal/capture/watcher.go:277-332 | However many jobs compete for a path, the committed byte ranges are consecutive and disjoint from the offset loaded at start to the committed one, and at most one job is between Lock and Unlock |
| CaptureTheorems.StepKeepsInv | internal/capture/watcher.go:257-364 | Every step of every kind keeps the four invariants behind the theorems above |
| CaptureTheorems.RunIsSafe | internal/capture/watcher.go:124-166 | So does every run from start-up |
| CapturePath.MoveKeepsGood | internal/capture/watcher.go:277-332 | Every move of one file, failures and crash included, keeps offsets at line starts and the store's content equal to what the offsets claim |
| CaptureSafety.StepIsMove | internal/capture/watcher.go:277-364 | A step of the daemon is, as each path sees it, one move of that path, and the identity for the others |
| CaptureScheduler.ActKeepsCounters | internal/capture/watcher.go:257-275 | Scheduling, firing, stopping, scanning and finishing keep the in-flight counter balanced |
| CaptureScheduler.ActKeepsLocks | internal/capture/watcher.go:281-285 | At most one job holds the mutex of a path |
| CaptureScheduler.StillAwaited | internal/capture/watcher.go:257-275 | Nothing but the start of its Parse, before shutdown, ends a path's wait |
| Watcher.MethodsStayInRuns | internal/capture/watcher.go:257-364 | Called in a state that a run reaches, each method below ends, by the steps it returns, in a state that a run reaches and the invariant covers |
| Watcher.CaptureWatcher.ScheduleParse | internal/capture/watcher.go:257-275 | Stopping and replacing the path's timer is exactly the protocol's event step |
| Watcher.CaptureWatcher.FlushAll | internal/capture/watcher.go:348-364 | The shutdown loop is a run of the protocol made of one take, the stops and one save: exactly the listed timers that have not fired are stopped, each gives its slot back, and the offsets are saved exactly when the disk can be written |
| Watcher.CaptureWatcher.ParseAndCommit | internal/capture/watcher.go:277-332 | The whole callback is a run of the protocol that releases the mutex. When the file can be read and the batch is accepted or empty, its records are appended, the offset is the parser's, and the saved offsets are the volatile ones if the offset moved and could be written; else files, rows and offsets are as before |
| Watcher.CaptureWatcher.ReadFile | internal/capture/watcher.go:292-297 | Parsing from the offset on record yields the protocol's parse step and only payloads within the store's limit |
| Watcher.CaptureWatcher.InsertBatch | internal/capture/watcher.go:320-325 | The batch is committed whole or not at all; the offset is untouched |
| Watcher.CaptureWatcher.RecordOffset | internal/capture/watcher.go:327-328 | The volatile offset moves only after the commit |
| Watcher.CaptureWatcher.SaveAfterSet | internal/capture/watcher.go:329-331 | All offsets are saved, or none |
| Watcher.Filter | internal/capture/watcher.go:305-313 | Keeps exactly the payloads within the limit, in order, and counts the rest |
| Watcher.OutcomeFits | internal/capture/parser_jsonl.go:148-162 | A JSONL pass emits nothing that filter would drop |
| JsonlParser.Parse | internal/capture/parser_jsonl.go:54-164 | The method with its file-size cases: nothing of an empty file, nothing of one with more than 500 MiB to read, which is skipped to its end; otherwise the records of the complete lines up to the new offset from the old one on, from 0 if the file is shorter than that, from 3 exactly when it begins with the bytes EF BB BF. The rows of one line carry one time, the one found in the whole line or else the clock's, and one surface |
| JsonlParser.ParseBuffer | internal/capture/parser_jsonl.go:115-164 | The buffer pass with its trims, splits and held-back last line does the same for the unread bytes |
| JsonlParser.EmitLines | internal/capture/parser_jsonl.go:129-162 | The loop over the split lines emits the records in order and counts the bytes consumed |
| JsonlParser.SplitEmitsRecords | internal/capture/parser_jsonl.go:127-162 | Cutting at newlines, dropping blanks and trimming CR gives the records that a definition by line positions gives |
| JsonlTailing.PassAdvances | internal/capture/parser_jsonl.go:70-164 | One pass starts and ends at a line start, never goes back or past the file, adds exactly the records between, and leaves only newlines and one unterminated tail unread |
| JsonlTailing.ChainCaptures | internal/capture/parser_jsonl.go:70-164 | After any chain of passes over a growing file the records so far are those before the offset |
| JsonlTailing.TailingEqualsOnePass | internal/capture/parser_jsonl.go:54-164 | Tailing a growing file in any pieces gives the records, metas included, of one pass over the final file |
| JsonlTailing.CapturedGrows | internal/capture/parser_jsonl.go:115-162 | Bytes appended later do not change the records before an offset |
| JsonlTailing.AllRecordsGrow | internal/capture/parser_jsonl.go:115-162 | Nor the records of the lines already complete |
| JsonlTailing.RecordsFitTheStore | internal/capture/parser_jsonl.go:134-162 | Every record emitted is non-empty and within the chunk budget |
| JsonlText.ParseReadsTheLines | internal/capture/parser_jsonl.go:54-164 | By the bytes of the file: the payloads of a pass are its complete non-blank lines from the start on, whole or in pieces; the new offset follows a newline that is not after another, or is the start or one past it, and leaves no line |
| JsonlText.WrittenLinesAreCaptured | internal/capture/parser_jsonl.go:108-164 | A file written as lines, with or without a byte-order mark and an unterminated tail, is captured as those lines, carriage returns at the end cut off and blank ones left out |
| JsonlText.RecordNamesItsLine | internal/capture/parser_jsonl.go:130-134 | Each record of a region comes from the line that ends where its meta says, which runs from the start or the newline before up to its own newline |
| JsonlText.LineRecordsAre | internal/capture/parser_jsonl.go:136-203 | A line is no record if blank, one with path, offset and parser up to 7 MiB, and else the rounded-up number of pieces with the digest of the whole, position and total |
| Chunking.SplitOversized | internal/capture/parser_jsonl.go:180-203 | The loop emits the pieces in order with the chunk id, position and total |
| Chunking.PiecesRejoin | internal/capture/parser_jsonl.go:180-203 | The pieces put together are the payload; each is non-empty and within the budget; there are two or more exactly when the payload is over it |
| Chunking.PiecesByIndex | internal/capture/parser_jsonl.go:187-199 | Piece i is the bytes from i times the budget to the next multiple or the end, and their number is the rounded-up quotient |
| Chunking.ChunksAre | internal/capture/parser_jsonl.go:187-203 | Their records in numbers: the bytes from k times 7,340,032 on, with the digest of the whole, k and the total added to the meta |
| CursorParser.Parse | internal/capture/parser_cursor.go:40-115 | Whole-file capture: nothing if the folded hash is the offset, else all chunks of the file with the file's own chunk id, and the fold as the new offset |
| CursorParser.PackHash | internal/capture/parser_cursor.go:75-79 | The shifting loop gives the first eight digest bytes as a signed 64-bit big-endian number |
| CursorParser.HashOffsetIsEightBytes | internal/capture/parser_cursor.go:75-80 | Two digests have the same mark if and only if their first eight bytes are equal, the mark is 0 if and only if these are all zero, and it is a signed 64-bit number |
| CursorParser.CapturedIffEightBytesChanged | internal/capture/parser_cursor.go:80-84 | The comparison of marks, with 0 for never seen and a negated size for an over-sized content, comes to a comparison of eight digest bytes |
| CursorParser.FileRecordsAre | internal/capture/parser_cursor.go:86-115 | A captured file is one record with path, digest, size and parser, or above 7 MiB the rounded-up number of pieces with these fields and the chunk's own |
| CursorParser.CaptureSaves | internal/capture/parser_cursor.go:40-115 | Parsing after each save of a file, each time from the offset left before: exactly those saves are captured, with all records of their content, that are not empty, are at most 100 MiB, and whose first eight digest bytes are all zero or not those of the content before |
| CursorParser.LatestCapture | internal/capture/parser_cursor.go:40-83 | After any number of saves, empty and over-sized ones among them, the latest capture of a content that can be read has its folded hash |
| CursorRoundTrip.SavesComeBackIff | internal/capture/parser_cursor.go:93-122 | All the rows of all captured saves of a file, in any order, give back each captured save once if and only if no two oversized ones share a chunk id |
| CursorRoundTrip.ContentComesBackIffOnce | internal/capture/parser_cursor.go:93-122 | The result for an oversized content whose chunk id no other content has: each piece as often as it was captured, so the content itself if and only if it was captured once |
| CursorRoundTrip.CurrentFileComesBackIff | internal/capture/parser_cursor.go:75-106 | Among all the rows, the result for the current content is that content if and only if it fits one row or has been captured once |
| CursorRoundTrip.RevertedContentIsLost | internal/capture/parser_cursor.go:80-106 | Saved as a, as b, and as a again, with a oversized: all three are captured and no result of reassembly is a |
| CursorParser.CapturedFileReassembles | internal/capture/parser_cursor.go:93-106 | The stored chunks of a captured file, in any order, reassemble into one row with the file's bytes |
| OffsetState.LoadState | internal/capture/state.go:33-53 | A missing or empty file gives no offsets, a decoded one its own, nil maps for JSON null included, an unreadable or malformed one an error |
| OffsetState.State.Get | internal/capture/state.go:55-63 | 0 for what was never set |
| OffsetState.State.Set | internal/capture/state.go:65-77 | Changes one offset only, and marks the state dirty exactly when it differs; panics exactly on a nil map of offsets it would have to write to, and never where there is none |
| OffsetState.State.Save | internal/capture/state.go:79-101 | Writes all offsets or leaves the old file; stays dirty when it fails |
| OffsetState.SaveThenLoad | internal/capture/state.go:79-101 | A load after a save finds every offset of the state, or after a failed save those of the last good one; files written by the daemon never bring in a nil map |
| Reassembly.ReassembleChunks | bridge/python/eidetic_mcp/reassemble.py:36-72 | The method with its lists and dicts computes the specification: order of first occurrence, then one merged row per group |
| Reassembly.MergeChunkGroup | bridge/python/eidetic_mcp/reassemble.py:101-151 | The in-place gathering and sorting of a group computes the merge of the specification |
| Reassembly.ChunkMetaMeans | bridge/python/eidetic_mcp/reassemble.py:75-98 | A row is a chunk exactly if its meta is an object with a non-empty string as chunk id; it has a place exactly if sequence number and total are integers, booleans included |
| Reassembly.MergedRow | bridge/python/eidetic_mcp/reassemble.py:101-168 | A group gives no row exactly if none of its rows has a place; otherwise id, surface and time are those of a row with the smallest number, and its meta without the chunk fields, with the number of rows merged |
| Reassembly.ReassembleIsIdempotent | bridge/python/eidetic_mcp/reassemble.py:52-72 | Reassembling its own output changes nothing, for every list of rows, malformed metas included |
| ReassemblyBytes.ReassemblyConservesBytes | bridge/python/eidetic_mcp/reassemble.py:52-72 | For every list of rows: the results carry as many payload bytes as the rows that are plain or have a sequence number and total |
| Reassembly.OutputFollowsFirstOccurrence | bridge/python/eidetic_mcp/reassemble.py:48-72 | For every list of rows: result i is what the i-th row that is plain, or first of a group with anything to merge, passes through or opens; there are no other results |
| ReassemblyRoundTrip.ParserWritesTheseRows | internal/capture/parser_jsonl.go:148-161 | The rows the round trip starts from are what the JSONL parser emits |
| ReassemblyRoundTrip.ChunksMerge | bridge/python/eidetic_mcp/reassemble.py:101-151 | Any arrangement of the chunks of a record merges into the record with its meta restored |
| ReassemblyRoundTrip.InOrderRoundTrip | bridge/python/eidetic_mcp/reassemble.py:36-72 | Reading rows back in the order written is the exact inverse of splitting |
| ReassemblyRoundTrip.AnyOrderRoundTrip | bridge/python/eidetic_mcp/reassemble.py:36-72 | In any order of the rows each record comes back exactly once, and the results stand in the order of the first rows of the records |
| ReassemblyRoundTrip.RoundTripIffDistinct | internal/capture/parser_cursor.go:119-122 | That holds exactly when no two oversized records share a chunk id |
| ReassemblyRoundTrip.RedeliveredIsRestoredIffOnce | internal/capture/parser_jsonl.go:174-203 | A record stored several times, with other ids, times and metas, amid any other rows: each piece comes back as often as stored, next to its copies, so the record is restored exactly when stored once |
| Sorting.SortInPlace | internal/api/routes.go:644-650 | Sorting by adjacent swaps leaves the array stably sorted |
| Sorting.SortIsSorted | internal/api/routes.go:644-650 | The result is a sorted permutation |
| Sorting.SortIsStable | internal/api/routes.go:644-650 | Rows with equal keys keep their order |
| StoreCounters.CountersAlwaysAgree | internal/store/schema.sql:43-55 | From a new store, after every run of inserts, batches, deletes, purges, meta updates and reopenings the counters are the numbers of rows per surface |
| StoreCounters.OpKeepsAgreement | internal/store/schema.sql:48-55 | Each operation keeps them so, a reopening with writers in between included |
| StoreCounters.BackfillHealsDespiteInserts | internal/store/store.go:151-172 | Opening a store without counters makes them right whatever is inserted between the probe and the scan |
| StoreCounters.BackfillHealsIff | internal/store/store.go:151-172 | With any interference it does so exactly when no surface without rows is left with a non-zero counter |
| StoreCounters.UndisturbedBackfillHealsIff | internal/store/store.go:151-160 | An undisturbed open heals exactly an empty or right counter table |
| StoreCounters.FailedBackfillIsPermanentIff | internal/store/store.go:101-108 | After a failed backfill and one insert the next open leaves right counters if and only if the store was empty, and no later run of any operations and openings ever has right ones if and only if the row's surface had rows already |
| StoreCounters.PopulatedTableHealsIff | internal/store/store.go:151-160 | Once the counter table has entries, some later run makes it right if and only if no entry is wrong |
| StoreCounters.ScanAgreesIff | internal/store/store.go:161-170 | When the grouped scan leaves right counters |
| StoreCounters.SumIsTotal | internal/store/store.go:352-359 | The sum of right counters is the number of rows |
| Store.Store.Insert | internal/store/store.go:186-206 | Adds one row with its counter and returns its new id, or reports an invalid engram or a failing database and changes nothing |
| Store.Store.InsertBatch | internal/store/store.go:208-239 | All rows of the batch or none: an invalid engram, or a failure to begin, to prepare, at any row or at the commit, leaves the store as it was; an empty batch always succeeds |
| Store.BatchIsAppended | internal/store/store.go:229-239 | The rows of an accepted batch stand beside the old ones, unchanged but for their ids, which increase and are larger than all before |
| Store.Store.DeleteByID | internal/store/store.go:379-389 | Removes the row and lowers its surface's counter, or reports that there is none |
| Store.Store.Purge | internal/store/store.go:453-480 | A row goes exactly if it is of the surface and, with a positive bound, older than it; the others are kept, the number is returned, and right counters stay right |
| Store.Store.UpdateMeta | internal/store/store.go:833-843 | Changes the meta of one row and no counter |
| Store.Store.BackfillCounts | internal/store/store.go:151-172 | Leaves right counters exactly when the table was empty or right |
| Store.Store.Count | internal/store/store.go:352-359 | With right counters, the number of rows |
| Store.Store.CountBySurface | internal/store/store.go:429-447 | With right counters, exactly the surfaces that have rows, each with the number of rows of that surface |
| Store.Store.CountEngrams | internal/store/store.go:394-422 | With right counters, or with a lower time bound in any case, the number of rows that have the surface, unless none is named, and are later than `since`, if it is positive |
| Export.RetrieveAfter | internal/store/store.go:777-829 | A page is the first rows after the cursor in (ts, id) order |
| Export.PageCatchesUp | internal/api/routes.go:530-558 | After a page whatever stays in the table is exported or still ahead of the cursor; after a short page nothing is ahead |
| Export.HandleExport | internal/api/routes.go:523-563 | The loop ends; rows are strictly increasing in (ts, id), and each is of the surface asked for, if one is, not before `since` and before `before`, where these are positive, and was in the table when its page was read; every such row that stays is exported whatever others insert or delete between pages; the count is the number of rows; on a quiet store exactly the matching rows come out |
| Export.QuietExportIsExact | internal/api/routes.go:523-563 | On a quiet store the output is exactly the rows of the surface in the time range, once each |
| Timeline.Retrieve | internal/store/store.go:266-319 | Rows of the surface, if one is named, after `since` and before `before`, where these are positive; sorted, none twice, at most 50 by default and 500 in any case; a matching row is missing only when the limit is reached, and is no older than any returned; ties in any order |
| Timeline.HandleTimeline | internal/api/routes.go:571-630 | Fetching per surface, merging, sorting in place and cutting; for different surfaces and a limit up to 500 (200 by default) the result is the oldest `limit` rows of all of them, in the same terms |
| Timeline.MergeIsFirst | internal/api/routes.go:615-628 | Cutting each surface's list loses nothing: sorted, min(limit, matches) rows, none twice, and every matching row left out is at least as recent as every row returned |
| Timeline.AlwaysRightIff | internal/api/routes.go:580-586 | The answer is right on every store that operations can bring about exactly when the limit is at most 500 and the surfaces are different or the limit is 1 |
| AskCache.Cache.Get | internal/api/ask_cache.go:46-64 | The value exactly when the key has an entry that is not past its time; an expired entry is dropped from list and map, a hit keeps the entries and goes to the front, and the counters say which |
| AskCache.Cache.Put | internal/api/ask_cache.go:73-98 | The entry refreshed or added at the front with the time of its end, and exactly the last key of the list evicted when a new key finds the cache full |
| AskCache.Cache.Len | internal/api/ask_cache.go:102-106 | The length of the list is the number of entries, at most the maximum |
| AskCache.RunHasShape | internal/api/ask_cache.go:46-98 | Over every history list and map hold the same keys, each once, at most the maximum |
| AskCache.HitIsFresh | internal/api/ask_cache.go:53-63 | A hit returns the value of the key's latest put, made no longer than the time to live ago |
| AskCache.OrderIsRecency | internal/api/ask_cache.go:60-97 | The list is in order of last use, so what is evicted is the least recently used |
| AskCache.EvictedLast | internal/api/ask_cache.go:91-97 | A put evicts a key only when `max` other keys have been used since its last use |
| AskCache.UnexpiredPutIsFound | internal/api/ask_cache.go:46-98 | An unexpired put is found while fewer than `max` other keys have been used since |
| Latency.Tracker.Record | internal/api/latency.go:35-48 | The ring read from its head is the last `cap` durations recorded |
| Latency.WindowIsLast | internal/api/latency.go:40-46 | What the tracker keeps are the last durations, as many as there are or fit, in the order recorded |
| Latency.Tracker.Count | internal/api/latency.go:77-84 | The number of durations recorded, at most the capacity |
| Latency.Tracker.GetPercentiles | internal/api/latency.go:53-74 | The percentiles are those of the last `cap` durations, wherever the ring has wrapped; none exactly if fewer than two samples were recorded or fit |
| Latency.PercentilesAreOrdered | internal/api/latency.go:71-74 | p50 <= p95 <= p99, all between the smallest and the largest sample |
| Latency.PercentilesAre | internal/api/latency.go:71-98 | They are the 50th, 95th and 99th: with n samples in order, the p-th divides the distance between two neighbours as p(n-1)/100 divides the cell it falls in |
| Latency.PercentilesGrow | internal/api/latency.go:86-98 | Interpolated percentiles grow with p |
| Latency.PercentileSplits | internal/api/latency.go:86-98 | Samples up to the rank are no larger than the percentile and the others no smaller |
| TextSearch.QuestionToFTS | internal/textsearch/textsearch.go:46-78 | The one-pass tokenizer gives the significant words, defined as the longest word runs, joined by OR, or the question itself |
| TextSearch.SurvivorsAreKeywords | internal/textsearch/textsearch.go:50-65 | Every keyword is lower case, three characters or more, no stop word and free of separators |
| TextSearch.WordSurvivesIff | internal/textsearch/textsearch.go:50-63 | A word survives if and only if it has three characters or more and is no stop word in lower case |
| TextSearch.WordCharacters | internal/textsearch/textsearch.go:66 | Words are made of the 26 letters in both cases, the ten digits and the underscore, and of nothing else |
| TextSearch.LowerCase | internal/textsearch/textsearch.go:54 | Each of the 26 capitals becomes its small letter, and small letters stay |
| TextSearch.JoinOfSum | internal/textsearch/textsearch.go:77 | Keywords stand in the query with " OR " between them |
| TextSearch.QueryReadsBack | internal/textsearch/textsearch.go:67-78 | Re-tokenizing the query gives back exactly the keywords, in order |
| TextSearch.RewritingIsIdempotent | internal/textsearch/textsearch.go:46-78 | Rewriting twice is rewriting once, on every input |
| TextSearch.CaseIsIgnored | internal/textsearch/textsearch.go:54 | Questions that differ in case only have the same keywords |
| Bundle.SplitParagraphs | internal/bundle/bundle.go:207-215 | The collapsing loop ends; the paragraphs joined by two newlines are the text with each "\r\n" made a newline and runs of newlines cut to two, none of them holds two newlines in a row, and none but the first starts with one |
| BundleText.BlankLineCuts | internal/bundle/bundle.go:207-215 | The paragraphs of two texts with a blank line between them are those of the one and then those of the other, if neither touches it with a line end |
| BundleText.OneParagraph | internal/bundle/bundle.go:207-215 | A text without a blank line is one paragraph, itself |
| BundleText.RunsAreCut | internal/bundle/bundle.go:211-213 | After the cut no three newlines stand in a row, and a text without three in a row is not changed |
| BundleText.LongRunsAreOne | internal/bundle/bundle.go:211-213 | Wherever three newlines stand, two would give the same |
| BundleText.CrlfBecomesNewline | internal/bundle/bundle.go:209 | Each "\r\n" becomes a newline and the texts around it are rewritten on their own |
| BundleText.NothingToReplace | internal/bundle/bundle.go:209 | A text without "\r\n" is not changed |
| BundleText.ContainedSomewhere | internal/bundle/bundle.go:211 | The loop's test says whether the part stands at some position |
| Bundle.CapSeesNoReplacement | internal/bundle/bundle.go:211-213 | A round of the loop does not change the one-pass result |
| Bundle.ParagraphsHaveNoBlankLine | internal/bundle/bundle.go:207-215 | No paragraph holds two newlines in a row, and none but the first starts with a newline |
| Bundle.SplitRejoins | internal/bundle/bundle.go:214 | Splitting loses only the separators |
| Bundle.ParseText | internal/bundle/bundle.go:188-205 | One record per non-blank paragraph, timed by its position; the others reported |
| BundleText.RowsTellPieces | internal/bundle/bundle.go:192-203 | Paragraph i gives a record with its trimmed text at base + i, or the report i + 1 if nothing is left of it; there is no other record or report |
| BundleText.BlanksIncrease | internal/bundle/bundle.go:192-197 | The reports stand in increasing order |
| BundleText.TrimmedIs | internal/bundle/bundle.go:193 | Trimming cuts white space from both ends, and no more than that |
| BundleText.SpaceIsWhite | internal/bundle/bundle.go:193 | What counts as white space, the 25 characters one by one |
| Bundle.ParseMarkdown | internal/bundle/bundle.go:147-186 | The builder loop gives the sections; with at most one it falls back to paragraphs |
| Bundle.GroupsCutAtHeaders | internal/bundle/bundle.go:150-167 | The sections hold all lines in order and are cut exactly before the headers |
| BundleText.SectionsAreGroups | internal/bundle/bundle.go:154-168 | The sections are, in order, the trimmed texts of exactly those groups of lines that hold more than white space |
| BundleText.TextIsTheLines | internal/bundle/bundle.go:165-166 | The text of a group is its lines with a newline after each |
| BundleText.MarkdownFallsBackIff | internal/bundle/bundle.go:171-185 | With two sections or more they are the records, numbered from the base; with fewer the body is read as text |
| Bundle.TextConserves | internal/bundle/bundle.go:188-215 | The payloads hold all the body's characters that are not white space, in order |
| Bundle.MarkdownConserves | internal/bundle/bundle.go:147-186 | So they do for markdown, with or without the fallback |
| Bundle.ParsedIsWellFormed | internal/bundle/bundle.go:174-205 | Times increase strictly from the base, and every payload is trimmed and not empty |
| Bundle.EveryPieceIsCounted | internal/bundle/bundle.go:192-203 | Every paragraph becomes a record or is reported |
| Broker.ChannelsAreSafe | internal/ccr/broker.go:40-118 | In every interleaving no channel is closed twice or sent to after close, registered channels are open, an open one is registered unless its id was drawn again, and no buffer exceeds ten |
| Broker.SubscribersReadInOrder | internal/ccr/broker.go:78-101 | A subscriber reads events of its role only, each at most once, in the order its channel took them; of two calls that do not overlap, the earlier one's event comes first; none of its first ten events is dropped |
| Broker.FinishedCallReachedAll | internal/ccr/broker.go:90-100 | A finished call has offered its event exactly once to each subscriber registered for the role when it began |
| Broker.CallReachesTheRegistered | internal/ccr/broker.go:90-100 | Over every run: the subscribers a finished call has offered its event to are those with its role that the table held when it began |
| Broker.SubscribersMayDisagree | internal/ccr/broker.go:90-100 | A run in which two calls reach two subscribers in opposite orders |
| Broker.DisagreementMeansOverlap | internal/ccr/broker.go:90-100 | In every run, subscribers that took two events in opposite orders took them from calls each of which began before the other was over |
| Broker.HeartbeatsKeepAlive | internal/ccr/broker.go:103-118 | While heartbeats come in time only Unsubscribe ends a subscription |
| Broker.SweepEndsTheSilent | internal/ccr/broker.go:106-117 | A sweep ends every subscription silent for more than three intervals: forgotten, its channel closed; it leaves every other as it was |
| Broker.StepKeepsInv | internal/ccr/broker.go:40-118 | Every step keeps the invariant behind these |
| Broker.Broker.Subscribe | internal/ccr/broker.go:40-57 | The method is the subscribe step: a new open channel under the id, empty, with its role and the time |
| Broker.Broker.Unsubscribe | internal/ccr/broker.go:59-66 | Closes and forgets the channel if it is registered |
| Broker.Broker.Heartbeat | internal/ccr/broker.go:68-76 | Renews the subscription if it is registered, and says so |
| Broker.Broker.Sweep | internal/ccr/broker.go:106-117 | The janitor's loop closes and forgets exactly the subscriptions silent for more than three intervals |
| Broker.Broker.WakeActive | internal/ccr/broker.go:78-101 | Undisturbed, the loop puts the event at the end of the channel of each registered subscriber of the role, or drops it there if ten are waiting, whatever order the map is gone through in, and leaves the others alone |
| Hooks.RateIsLimited | internal/hooks/hooks.go:167-180 | In any window of length T a hook with interval I fires at most floor(T/I) + 1 times |
| Hooks.Dispatcher.CanFire | internal/hooks/hooks.go:167-180 | Fires exactly when the hook has no interval or, since every firing of a hook of its name with an interval, its own number of seconds has passed |
| Hooks.Dispatcher.Maybe | internal/hooks/hooks.go:132-145 | Each matching hook is decided once, in order, and those that fire are dispatched |
| Hooks.MatchingInOrder | internal/hooks/hooks.go:136-139 | The hooks decided for an engram are those it matches, each position of the list once, in order |
| Hooks.FiringPerDecision | internal/hooks/hooks.go:140-143 | Each decision to fire starts one firing and no other decision starts any |
| Hooks.MatchingByEngram | internal/hooks/hooks.go:275-283 | A batch is decided engram by engram |
| Hooks.HookedSink.InsertBatch | internal/hooks/hooks.go:275-283 | A failed batch dispatches nothing; a stored one dispatches only its own matching engrams, decides every match, and skips no match of a hook without interval |

## Left out

- Files larger than the read cap: skipped by design, possibly in mid-line. The run properties assume unread bytes within the cap; `JsonlParser.Parse` models the skip.
- Truncated or replaced files in the run properties: files only grow there. `JsonlParser.Parse` models the restart from 0 on a shorter file.
- A state file holding JSON null in the run properties: there a process starts from offsets it can write (`OffsetState` has the nil maps).
- Two surfaces that share a path, and which parser a surface has: a path stands for a surface and a file, tailed as JSONL.
- The JSON text of metas (encoding, quoting) and of the state file: both are decoded values, distinguished as far as the code looks at them.
- UTF-8: payloads are bytes in capture and storage; a chunk cut inside a character is not followed through the JSON transport. `TextSearch` and `Bundle` work on characters, without invalid byte sequences.
- SHA-256 and timestamp extraction: functions about which nothing is assumed, except that a digest has 32 bytes and a chunk id is not empty.
- Records refused for a zero timestamp: a batch that fails for any reason is a failed InsertBatch in the protocol.
- SQLite itself, full-text search, ranking, snippets, VACUUM: a table is a finite map, a query is a filter, an order and a cut. The `Snippet` field is not part of a row.
- Database failures of the statements that delete, purge, edit a meta, count or query: those of Insert, InsertBatch, the export's queries and the backfill are modelled.
- Timeline under interference: the surfaces of one request are read from one table.
- Directory walking, glob matching, fsnotify: events arrive for paths in any order.
- Floating point: percentiles are exact reals.
- 64-bit overflow of timestamps (`BaseTS + i`), durations and counters, and of a hook interval in nanoseconds.
- Data races: Heartbeat writes under the read lock; each lock-protected section is one step, and so is that write.
- ndjson bundles and format sniffing: JSON decoding with one-line branches.
- Hook patterns (substring, regex) and the HTTP request: matching is any function of engram and hook, and a dispatch is the start of the request.
- Warnings, log lines, metrics, error texts and the parse-done channel used by tests.
- HTTP handling around the modelled loops, authentication, sync, the cloud worker, the TUI and the editor integrations.
- Cache capacity below zero: `AskCache` takes a natural number.
