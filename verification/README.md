# Verified model of CodeAstra's review core

CodeAstra reviews source code in chunks, offers fixes, keeps a ledger of applied fixes that can be
undone, rechecks a repaired review, and streams its progress to a browser. This project models the
parts of it that hold state and arithmetic, and proves what they keep over whole runs. Check it with
`dafny verify dfyconfig.toml`.

How the modules follow the system:

- **The fix ledger.** `Text` and `FixSplice` are lines of text and the three ways of splicing a
  replacement into a file. `FixLedger` is confirm, undo and the revision history as functions on a
  session; `FixRemap` is where findings and changed ranges go, `FixReopen` what a reopened finding then
  points at; `FixService` holds the loops and the service methods, proved against these.
- **The chunked review run.** `ReviewChunks` is a chunk and its bisection, `ChunkIds` the text of its
  id, `PythonChunker` the first cut of a Python file, `SourcePlan` the names that make the chunks of a
  plan new to the store. `ReviewForest` is the table of chunks under
  every interleaving of executor writes, splits and resumes. `ChunkExecution` is one execution as a
  sequence of such writes, `BatchMerge` the merges of the executions of a gathered batch. `ReviewStore`
  is the in-memory store as a class, `ReviewAggregator` the planner's check and the completion gate,
  and `ReviewRun` the executor and the work loop on the store.
- **Rechecks and events.** `RecheckProtocol` is the race of pipelines, timeouts, restarts and stale
  saves for one review. `EventBlocks` prints, frames and parses stream blocks, `EventStream` says what
  a block and a read do to the reader, `StreamEnds` what a connection does that ends anywhere,
  `StreamClient` is the service's generator and the browser's loop.
- **Self-contained cores.** `ChunkScheduler`, `SqlTableDefinitions` with `SqliteAuthMigration`,
  `ContextBudget`, `FixCandidateCache` with `CandidateEviction`, `SnippetFilename`; `Sorting`,
  `Decimal`, `Ascii` and `Wrappers` serve them.

Modelling decisions that matter when reading the theorems:

- Text has the newline as its only line terminator. A SHA-256 digest is modelled as its preimage, so
  no two contents collide. Fresh ids (revisions, recheck attempts) are assumed fresh; recheck ids are
  numbers in the order of issue, and a chunk id is its derivation (`ChunkIds.RenderInjective` shows
  that nothing is lost by that).
- What the model, the analysers and the network do is arbitrary: an execution may meet any outcome at
  either attempt and may be abandoned, a stream may break or end anywhere and be cut into any reads. The
  parser's statement positions enter the chunker as inputs in source order; JSON parsing is a
  predicate on the text.
- The executor's steps interleave freely in `ReviewForest`, where every theorem is about any legal
  sequence of single writes. The executions of a batch are gathered: the methods of `ReviewRun` let
  their writes reach the store in any merge of their orders. When one of them is stopped, the batch
  breaks off at any point of the others.
- JSON parsing accepts the data of every event in the log and, where a clean end is at issue, no
  shorter part of it; the data are JSON objects.
- Coverage percentages are exact rationals.

Findings about the code that the proofs brought out:

- Undoing a fix removes the finding's decision instead of bringing back an earlier one, and leaves its
  state waiting for revalidation, which is what decides whether the next run is a recheck:
  `FixLedger.UndoRestoresDecisionsExactly` says exactly when decisions and states are restored, and
  `FixLedger.UndoLosesDecision` is a session where they are not.
- A changed range that overlapped a repair which deletes the end of the file is moved one line past
  the end (`FixRemap.AdjustedInsideFileExactly`; deleting the only line of a file is
  `FixRemap.AdjustedLeavesFile`).
- A decided finding keeps its old lines through later repairs, and reopening puts it back there. These are
  the lines of its text exactly when no repair in force has touched it and those above it add up to no
  shift (`FixReopen.ReopenedStandsExactly`); in `FixReopen.ReopenedElsewhere` they are not.
- A stream that ends cleanly inside a block loses its event for good exactly when the data line has
  begun and is incomplete, because the id is taken over before the data is parsed
  (`EventStream.CleanEndInsideBlock`, `StreamEnds.OneEventLost`). Over a whole session these are the only
  events lost (`StreamClient.Client.StreamReviewSession`). A clean end before the last event, with
  a finished review, ends the reading without an error: what arrived is then handed over, not more.
- A confirm saves the session it has read, before its static checks, without comparing. If a recheck has
  ended in between, the save puts the ended attempt back as running, and it may end a second time
  (`RecheckProtocol.LateConfirmCommitsTwice`); `RecheckProtocol.SaveHarmsExactly` says which saves
  do this. The other ledger operations ask for a finished review and cannot
  (`RecheckProtocol.FinishedCopyHarmless`).
- The aggregator's "below 100 percent" branch cannot be taken for any input (`ReviewAggregator.Aggregate`),
  and the migration's "unsupported quoted identifier" error cannot either (`SqlTableDefinitions.RewrittenExactly`).
- Storing a fix candidate may evict one that both limits leave room for, since both eviction lists are
  drawn up first: exactly when both are full and their oldest candidates differ
  (`CandidateEviction.OverEvictsExactly`; `CandidateEviction.FullCacheOverEvicts` is such a cache).

## Model

| member | source | states |
|---|---|---|
| FixSplice.SpliceLinesRelines | src/code_review/application/hybrid_review_service.py:1741-1758 | the line splice leaves every line before and behind the scope as it was and puts exactly as many lines in its place as the recorded replacement count |
| FixSplice.AssembleLinesIsSplice | src/code_review/application/hybrid_review_service.py:404-411 | splicing by character offsets is the same as splicing by whole lines |
| FixSplice.AssembleLinesRelines | src/code_review/application/hybrid_review_service.py:394-411 | the statement splice, indentation included, replaces exactly its lines by as many as the logical replacement has |
| FixSplice.AssembleExpressionRelines | src/code_review/application/hybrid_review_service.py:400-403 | the expression splice between two columns keeps all other lines and turns its lines into as many as the replacement has |
| FixRemap.SpanCandidateAccurate | src/code_review/application/hybrid_review_service.py:1741-1758 | a candidate from the line splice carries a scope and a replacement line count that describe the new text truly |
| FixRemap.BlockCandidateAccurate | src/code_review/application/hybrid_review_service.py:394-411 | the same for the statement splice |
| FixRemap.ExpressionCandidateAccurate | src/code_review/application/hybrid_review_service.py:400-403 | the same for the expression splice |
| FixRemap.FileCandidateAccurate | src/code_review/application/hybrid_review_service.py:1728-1736 | the same for a whole-file replacement |
| FixRemap.DeltaIsReal | src/code_review/application/hybrid_review_service.py:2082-2083 | for candidates of all four splices, the line delta used for shifting is the real difference in the number of lines between the old text and the new one |
| FixRemap.RemappedDenotesSame | src/code_review/application/hybrid_review_service.py:2082-2101 | a finding that is kept, shifted or not, stands at the same text in the new file as in the old one |
| FixRemap.ConfirmKeepsDenotedText | src/code_review/application/hybrid_review_service.py:2082-2101 | after a confirm every kept finding of the session, in any file, denotes exactly the text it denoted before |
| FixRemap.AdjustedStaysValid | src/code_review/application/hybrid_review_service.py:2103-2136 | every adjusted range keeps 1 <= start <= end |
| FixRemap.AdjustedCoversExactly | src/code_review/application/hybrid_review_service.py:2103-2136 | a line is in some adjusted range if and only if it is a changed line before the fix, the image of one behind it, or a replacement line when a range overlapped the fix |
| FixRemap.AdjustedInsideFileExactly | src/code_review/application/hybrid_review_service.py:2118-2134 | an adjusted range ends inside the new file except when the fix deletes the file's end and the range overlapped it |
| FixReopen.FollowedDenotesSame | src/code_review/application/hybrid_review_service.py:2082-2101 | over any repairs, undos of these and other activity, the text of a finding that no repair in force has touched stands at its old lines plus what the repairs in force above it have added; an undo takes its share back |
| FixReopen.ReopenedStandsExactly | src/code_review/application/hybrid_review_service.py:1197-1259 | a finding decided away and reopened later is listed at its old lines, which, as long as no repair from before the decision is undone, are the lines of its text if and only if no repair in force has touched it and those above it have added up to no shift |
| FixLedger.ConfirmKeepsInv | src/code_review/application/hybrid_review_service.py:2137-2184 | a confirm pushes one workspace on the stack that undoing unwinds, also when it drops the oldest revision of 20 |
| FixLedger.UndoKeepsInv | src/code_review/application/hybrid_review_service.py:1058-1115 | an undo pops that stack and gives back the workspace on its top |
| FixLedger.RestoreUndoesConfirm | src/code_review/application/hybrid_review_service.py:1089-1103 | restoring a revision's own before-content and before-ranges gives exactly the files and changed ranges the confirm started from |
| FixLedger.FromNewSession | src/code_review/application/hybrid_review_service.py:2137-2183 | from a new session, any sequence of confirms, undos and other activity keeps the stack invariant, the history property and at most 20 revisions |
| FixLedger.StackMatchesActives | src/code_review/application/hybrid_review_service.py:1067-1088 | the k-th active revision leads from the k-th workspace of the stack to the next one: before-content and after-content of consecutive active revisions meet |
| FixLedger.UndoAcceptedExactly | src/code_review/application/hybrid_review_service.py:1064-1088 | in every reachable state an undo on a finished review succeeds if and only if it names the newest active revision; the missing-file and hash-mismatch refusals never fire |
| FixLedger.UndoTimesRestores | src/code_review/application/hybrid_review_service.py:1058-1115 | any number of undos up to all retained ones succeeds and restores the files and ranges from before the oldest one undone |
| FixLedger.UndoEverything | src/code_review/application/hybrid_review_service.py:1058-1115 | undoing all retained active revisions gives the text before the oldest retained one, even after truncation |
| FixLedger.UndoRestoresDecisionsExactly | src/code_review/application/hybrid_review_service.py:1089-1112 | a confirm undone at once restores files and ranges always, the decisions if and only if the finding had none, the states if and only if it was waiting for revalidation already |
| FixService.KeepFindings | src/code_review/application/hybrid_review_service.py:2084-2101 | the loop over the findings computes the kept and shifted list |
| FixService.AdjustRanges | src/code_review/application/hybrid_review_service.py:2103-2136 | the loop over the changed ranges computes the adjusted list |
| FixService.LatestOfActives | src/code_review/application/hybrid_review_service.py:1067-1073 | the last of the active revisions is the newest one not undone |
| FixService.HybridReviewService.ConfirmFix | src/code_review/application/hybrid_review_service.py:2001-2189 | the new session, or the refusal with the session unchanged |
| FixService.HybridReviewService.UndoRevision | src/code_review/application/hybrid_review_service.py:1058-1115 | the new session, or the refusal with the session unchanged |
| FixService.HybridReviewService.ReopenFinding | src/code_review/application/hybrid_review_service.py:1197-1259 | the new session, or the refusal with the session unchanged |
| FixService.HybridReviewService.Revisions | src/code_review/application/hybrid_review_service.py:1025-1056 | every active entry is shown, newest first, with the before-content of the next entry of its file or the current text |
| FixLedger.HistoryPush | src/code_review/application/hybrid_review_service.py:1029-1056 | a confirm keeps the property that the after-text shown for every active revision has that revision's after-hash |
| FixLedger.HistoryUndo | src/code_review/application/hybrid_review_service.py:1029-1056 | so does an undo, although undone entries stay in the list and supply after-texts |
| ReviewChunks.SplitPartitions | src/code_review/application/review_planner.py:74-107 | the halves of a chunk are non-empty, adjacent, cover its range, fit their texts and wait one level deeper |
| ReviewChunks.SplitAligned | src/code_review/application/review_planner.py:74-107 | if a chunk's text is that of its source lines, newlines stripped, so is each half's |
| ChunkIds.RenderInjective | src/code_review/application/review_planner.py:74-107 | different chunks have different id texts, at every depth |
| PythonChunker.GroupsAreGrouping | src/code_review/application/chunking/python_chunker.py:31-40 | the groups are the statements, in order, cut into single definitions and maximal runs of other statements |
| PythonChunker.Ranges | src/code_review/application/chunking/python_chunker.py:31-66 | the loop with its pending run yields the range of each group |
| PythonChunker.RangesAreOrdered | src/code_review/application/chunking/python_chunker.py:31-79 | the ranges stand in source order and share no line |
| PythonChunker.EachStatementOnce | src/code_review/application/chunking/python_chunker.py:31-79 | every statement lies in exactly one range and touches no other; a definition has a range of its own |
| PythonChunker.Split | src/code_review/application/chunking/python_chunker.py:14-98 | the chunks carry the text of their lines and stand in order without a common line, every statement in exactly one; a syntax error yields its line, 1 by default |
| SourcePlan.ChunkFiles | src/code_review/application/review_planner.py:24-49 | chunking all Python files of a review yields waiting chunks that fit their ranges and bear the names of review, file, lines and number, or the error line of a file |
| SourcePlan.PlanIsFresh | src/code_review/application/chunking/python_chunker.py:77-98 | the chunks of all files of a plan have distinct ids, and none that any other review has stored |
| SourcePlan.RunKeepsNames | src/code_review/application/review_planner.py:74-107 | over any run every stored id begins with the id of its chunk's review |
| ReviewForest.StepKeepsForest | src/code_review/application/chunk_review_service.py:64-234 | every write of an executor or a resume keeps superseded chunks exactly the inner nodes of a binary forest of bounded depth |
| ReviewForest.RunConserves | src/code_review/application/review_store.py:197-206 | over any run the number of live chunks that contain a given line of a given file never changes |
| ReviewForest.StepGauges | src/code_review/application/chunk_review_service.py:75-211 | every step leaves each line's multiplicity alone and pays for its executions and model calls out of what the pending chunks are worth |
| ReviewForest.RunPays | src/code_review/application/hybrid_review_service.py:2631-2664 | between resumes, executions and calls of a run are bounded by what the chunks pending at its start are worth |
| ReviewForest.ReviewBound | src/code_review/application/chunk_review_service.py:75-211 | a plan of n chunks causes at most n(2^(D+1)-1) executions and twice as many model calls, once for the run and once for every resume |
| ReviewForest.StoredBound | src/code_review/application/review_store.py:197-206 | however often it is resumed and however its chunks are split, a plan of n chunks never has more than n(2^(D+1)-1) chunks stored |
| ReviewForest.TreeBound | src/code_review/application/chunk_review_service.py:75-211 | the same for one planned chunk and all that is split off it: 2^(D+1)-1 executions, 2(2^(D+1)-1) calls |
| ReviewForest.RunKeepsAligned | src/code_review/application/review_planner.py:74-107 | over any run every stored chunk's text stays that of its source lines |
| ReviewStore.Store.Create | src/code_review/application/review_store.py:29-35 | a new session with an empty log, or a refusal for a known id |
| ReviewStore.Store.Save | src/code_review/application/review_store.py:44-48 | the stored title survives a save; foreign owners are refused |
| ReviewStore.Store.Publish | src/code_review/application/review_store.py:66-81 | appends one event numbered one above the last, and nothing else |
| ReviewStore.Store.EventsAfter | src/code_review/application/review_store.py:83-92 | the events numbered above n are the rest of the log from position n |
| ReviewStore.Store.SaveReviewIfRecheckAttempt | src/code_review/application/review_store.py:278-287 | writes if and only if the stored session still runs this attempt |
| ReviewStore.Store.TransitionReviewIfRecheckAttempt | src/code_review/application/review_store.py:289-308 | session and event are written together, if and only if the stored session still runs this attempt |
| ReviewStore.Store.SaveChunks | src/code_review/application/review_store.py:175-183 | all chunks are written or, when one is foreign, none |
| ReviewStore.Store.Chunks | src/code_review/application/review_store.py:185-192 | a duplicate-free listing of exactly the review's chunks |
| ReviewStore.Store.ReplaceChunk | src/code_review/application/review_store.py:197-206 | the parent superseded and the children stored, all or nothing |
| ReviewStore.Store.TransitionChunk | src/code_review/application/review_store.py:244-252 | the chunk written and its event appended |
| ReviewStore.Store.ResetReview | src/code_review/application/review_store.py:156-173 | the session replaced, its chunks, findings and attempts gone, every other review's and all logs untouched |
| ReviewStore.Store.Delete | src/code_review/application/review_store.py:318-333 | everything stored for the review is gone, nothing of the others |
| ReviewAggregator.MakePlan | src/code_review/application/review_planner.py:24-72 | a plan is handed out if and only if every file can be planned and the chunks cover every significant line; a refusal names the file it is for, with the lines this file lacks or its chunker reports |
| ReviewAggregator.CountCovered | src/code_review/application/review_aggregator.py:47-61 | counts every significant line, or names a file and exactly the lines it lacks |
| ReviewAggregator.Aggregate | src/code_review/application/review_aggregator.py:28-79 | passes if and only if no live chunk is unresolved and every significant line is covered, and then with 100 percent |
| ReviewAggregator.CoverageSurvives | src/code_review/application/review_aggregator.py:38-69 | a table covers the significant lines after a run if and only if it did before |
| ReviewAggregator.GateExactly | src/code_review/application/review_aggregator.py:38-69 | after any run from a covering plan the gate's missing-line branch is unreachable and it passes if and only if every live chunk is completed |
| ChunkExecution.ExecutionLegal | src/code_review/application/chunk_review_service.py:64-234 | an execution with any outcomes is a legal sequence of steps that ends in the state the method computes |
| ChunkExecution.ExecutionCost | src/code_review/application/chunk_review_service.py:75-133 | an execution counts once and asks the model at most twice |
| BatchMerge.MergeLegal | src/code_review/application/hybrid_review_service.py:2632-2654 | the writes of gathered executions are a legal run in every merge of their orders, complete or broken off, and each execution finds its chunk as it left it |
| BatchMerge.MergesAgree | src/code_review/application/hybrid_review_service.py:2632-2654 | all complete merges of a batch lead to the same chunks |
| BatchMerge.GatherIsSequence | src/code_review/application/hybrid_review_service.py:2632-2654 | gathering a batch leads to the same chunks as running its executions one after the other |
| ChunkExecution.NextPending | src/code_review/application/hybrid_review_service.py:2655-2663 | children first, then the stored pending chunks not queued: a duplicate-free listing of exactly the pending chunks |
| ReviewRun.ReviewService.Attempt | src/code_review/application/chunk_review_service.py:77-195 | one strategy: its attempt record, the chunk's new entry, its findings, and one model call when it gets that far |
| ReviewRun.ReviewService.TryStrategies | src/code_review/application/chunk_review_service.py:75-195 | the loop stops at the first attempt not rejected, with exactly the writes of the attempts made |
| ReviewRun.ReviewService.Execute | src/code_review/application/chunk_review_service.py:64-234 | the store afterwards and the children, for every pair of outcomes: completed, bisected, failed or abandoned |
| ReviewRun.ReviewService.Gather | src/code_review/application/hybrid_review_service.py:2632-2654 | the gathered executions write one at a time to the store, in any order that keeps each one's own: the store is that of the merge so far |
| ReviewRun.ReviewService.RunBatch | src/code_review/application/hybrid_review_service.py:2632-2654 | the writes of a batch, merged in any way, are a legal run, model calls are paid for, and unless the batch is broken off the children are pending and new |
| ReviewRun.ReviewService.Drain | src/code_review/application/hybrid_review_service.py:2631-2664 | the work loop over gathered batches terminates, leaves no chunk of the review pending unless it breaks off, and asks the model at most as often as the pending chunks allow |
| ReviewRun.ReviewService.ResumeChunks | src/code_review/application/hybrid_review_service.py:2890-2911 | unfinished chunks of the review are pending again, nothing else changes |
| ReviewRun.ReviewService.RunReview | src/code_review/application/hybrid_review_service.py:2602-2681 | a run on named files that neither breaks off nor fails to plan passes if and only if every live chunk is completed; coverage, the forest and the names are kept in every case |
| RecheckProtocol.ApplyKeepsInv | src/code_review/application/hybrid_review_service.py:2312-2346 | every store operation of any worker, restart, resume or ledger operation keeps the protocol's invariant, except a save that puts back as running an attempt that is over |
| RecheckProtocol.NothingBehindTerminal | src/code_review/application/review_store.py:263-308 | in any interleaving without such a save, no conditional write of an attempt is accepted behind its terminal commit |
| RecheckProtocol.AtMostOneTerminalCommit | src/code_review/application/hybrid_review_service.py:2438-2472 | nor does an attempt commit terminally twice |
| RecheckProtocol.NothingBehindNewerInstall | src/code_review/application/hybrid_review_service.py:1015-1018 | nor is a write of an older attempt accepted once a newer id is installed, or the id cleared |
| RecheckProtocol.SaveHarmsExactly | src/code_review/application/hybrid_review_service.py:2184-2189 | a save lets workers make an unjustified write if and only if its copy names, as running in an unfinished review, an attempt that has ended or is not the latest |
| RecheckProtocol.LateConfirmCommitsTwice | src/code_review/application/hybrid_review_service.py:2001-2189 | from every state with a running attempt, a confirm that reads before the attempt ends and saves behind it lets the attempt commit terminally a second time |
| RecheckProtocol.LogMatchesHistory | src/code_review/application/review_store.py:289-308 | the log only grows, by exactly one event for every progress notice and every accepted transition |
| EventBlocks.BlockRoundTrip | src/code_review/api/main.py:1836-1840 | parsing a printed block gives back its number, event and data, the number as long as it is a safe integer |
| EventBlocks.BlocksAppend | frontend/src/api/client.ts:755-769 | framing a text read in two parts gives the blocks of the whole text |
| EventBlocks.BlocksOfEncoded | frontend/src/api/client.ts:755-769 | any part of the server's stream frames into exactly the events that arrived whole |
| EventStream.CutsDoNotMatter | frontend/src/api/client.ts:755-770 | two ways of cutting one text into reads hand over the same events up to the first terminal one |
| StreamEnds.ConnectionExactly | frontend/src/api/client.ts:736-775 | one connection, broken or cleanly ended anywhere and cut into any reads: what was handed over stays a gap-free, duplicate-free prefix of the log, except when a clean end falls into an unfinished data line behind no terminal event, which loses that event |
| StreamEnds.ConnectionFaithful | frontend/src/api/client.ts:736-775 | the same for a reader that has lost events before: what it lost earlier stays the only other thing missing |
| EventStream.CleanEndInsideBlock | frontend/src/api/client.ts:742-769 | a clean end inside a block loses its event if and only if the data line has begun and is not complete |
| StreamClient.Events | src/code_review/application/hybrid_review_service.py:2986-3003 | the generator yields exactly the log behind the requested number, in order, which is what the reader is sent out of any log that grows from it, and ends by itself only on a final review with nothing left |
| StreamClient.Client.Consume | frontend/src/api/client.ts:736-753 | what a block does to the last id, the events handed over and the terminal flag |
| StreamClient.Client.Drain | frontend/src/api/client.ts:758-763 | all complete blocks of the buffer are consumed in order and the rest stays |
| StreamClient.Client.Receive | frontend/src/api/client.ts:731-770 | the reading loop of a connection, its clean end and its breaking included |
| StreamClient.Client.StreamReviewSession | frontend/src/api/client.ts:698-797 | over at most five connections that break or end anywhere, the numbered events handed over are the log up to the last id, each once and in order, but for the events lost in unfinished data lines; nothing is missing if and only if there were none |
| ChunkScheduler.RunIsFifo | src/code_review/application/chunk_scheduler.py:21-57 | in any run a review's chunks leave its queue in arrival order, none lost, invented or handed out twice |
| ChunkScheduler.DeparturesAreReturned | src/code_review/application/chunk_scheduler.py:34-46 | without a cancellation, what leaves is what is handed out |
| ChunkScheduler.ServedWithinRank | src/code_review/application/chunk_scheduler.py:34-46 | the chunk at position q of a review at rotation index i is handed out before its rank runs out, whatever else is put or cancelled |
| ChunkScheduler.BoundedWaiting | src/code_review/application/chunk_scheduler.py:21-57 | it is returned within i + 1 + q * limit gets unless its review is cancelled |
| ChunkScheduler.Scheduler.PutChunk | src/code_review/application/chunk_scheduler.py:21-32 | accepted if and only if the size is below the limit; the map of queues, the rotation and the size follow |
| ChunkScheduler.Scheduler.GetChunk | src/code_review/application/chunk_scheduler.py:34-46 | the head of the review whose turn it is, which then goes to the back or leaves the rotation |
| ChunkScheduler.Scheduler.CancelReview | src/code_review/application/chunk_scheduler.py:48-57 | exactly the review's chunks are removed, and their number is returned |
| SqlTableDefinitions.RewrittenParsesBack | src/code_review/infrastructure/persistence/sqlite_auth_migration.py:369-403 | re-scanning the rewritten statement gives exactly the edited definitions and the old suffix |
| SqlTableDefinitions.EditedExactly | src/code_review/infrastructure/persistence/sqlite_auth_migration.py:371-401 | the other definitions are unchanged and in order, and there is exactly one owner column, the canonical one, in its place |
| SqlTableDefinitions.RewritingIsIdempotent | src/code_review/infrastructure/persistence/sqlite_auth_migration.py:369-403 | rewriting twice is rewriting once |
| SqlTableDefinitions.RewrittenExactly | src/code_review/infrastructure/persistence/sqlite_auth_migration.py:356-378 | a statement is rewritten if and only if it scans and has at most one owner; an unterminated quoted name never reaches the name check |
| SqlTableDefinitions.DefinitionsOfListed | src/code_review/infrastructure/persistence/sqlite_auth_migration.py:324-353 | splitting a printed list of definitions gives the list back |
| SqliteAuthMigration.TableBodyBounds | src/code_review/infrastructure/persistence/sqlite_auth_migration.py:295-321 | the look-ahead scanner finds the same bounds as the state machine without look-ahead |
| SqliteAuthMigration.SplitTableDefinitions | src/code_review/infrastructure/persistence/sqlite_auth_migration.py:324-353 | the look-ahead splitter cuts where the state machine is at top level |
| SqliteAuthMigration.ReviewSessionsNewTableSql | src/code_review/infrastructure/persistence/sqlite_auth_migration.py:369-403 | scan, edit and print, with the source's refusals |
| ContextBudget.Fit | src/code_review/application/context_budget.py:42-78 | keeps the longest ranked prefix of references that leaves the minimum output, with the exact token counts and action |
| ContextBudget.BudgetIsKept | src/code_review/application/context_budget.py:42-78 | prompt and output stay within context minus safety, the output is at least the lesser of minimum and maximum, a split is asked for if and only if the target alone does not fit |
| ContextBudget.LargerContextKeepsMore | src/code_review/application/context_budget.py:42-78 | a larger context never keeps fewer references nor asks for a split where the smaller did not |
| ContextBudget.DroppedRankBehind | src/code_review/application/context_budget.py:56-69 | no reference is lost or invented, and what is dropped ranks behind what is kept |
| Sorting.SortStable | src/code_review/application/context_budget.py:56-59 | references that compare equal stay in their order |
| FixCandidateCache.RunKeepsBounded | src/code_review/application/hybrid_review_service.py:1261-1286 | after any sequence of stores, cancels and confirms every owner holds at most 20 candidates and at most 8 per review |
| FixCandidateCache.EvictsTheOldest | src/code_review/application/hybrid_review_service.py:1269-1286 | whoever is evicted is no newer than any survivor of its review, or of its owner |
| FixCandidateCache.OthersUntouched | src/code_review/application/hybrid_review_service.py:1269-1286 | storing evicts no candidate of another owner |
| CandidateEviction.OverEvictsExactly | src/code_review/application/hybrid_review_service.py:1269-1286 | storing evicts a candidate that both limits leave room for if and only if the owner has 20, the review has 8, and the first of the two eviction lists differ |
| FixCandidateCache.FixCandidates.CleanupFixCandidates | src/code_review/application/hybrid_review_service.py:1261-1267 | exactly the expired candidates go, the others stay in order |
| FixCandidateCache.FixCandidates.StoreFixCandidate | src/code_review/application/hybrid_review_service.py:1269-1286 | expiry, the two evictions and the insertion, in the source's order |
| FixCandidateCache.FixCandidates.CancelFix | src/code_review/application/hybrid_review_service.py:1977-1989 | takes out the candidate if and only if it is alive and belongs to the caller and the review |
| FixCandidateCache.FixCandidates.TakeForConfirm | src/code_review/application/hybrid_review_service.py:2007-2014 | takes the candidate out whoever asks, and hands it over if it is alive |
| SnippetFilename.CanonicalPathKey | frontend/src/utils/languageDetector.ts:50-58 | the loop over the parts computes the resolved lower-case path |
| SnippetFilename.CandidatesDiffer | frontend/src/utils/languageDetector.ts:81-83 | no two candidate names are equal |
| SnippetFilename.UniqueSnippetFilename | frontend/src/utils/languageDetector.ts:76-85 | the unbounded search ends within one more try than there are paths, at the smallest index whose name is free |

## Left out

- Model and HTTP calls, static analysers, LibCST, tree-sitter and the Python parser: outcomes and statement positions are inputs; a C++ file's chunks enter planning as given, named and fitting as that chunker makes them.
- FixRemap.DeltaIsReal: not for candidates of `_apply_symbol_repair` and the LibCST renames. The import and declare-local modes insert a line that the recorded splice does not account for, and a rename edits calls outside the recorded scope, so nothing is claimed about where findings point there.
- The syntax-error shortcut of a run, which completes a review without chunks.
- `cancel` and `delete` of the service and the cancelling of a run, which write and publish unconditionally.
- `record_finding_decision`, the ignored fingerprints and the decision history.
- Races of an undo, which takes no lock, with the other ledger operations, which share one lock per review: `FixLedger` takes a ledger operation as one step, `RecheckProtocol` its reading and its saving as two. Chunk runs do not edit files. Resuming a review whose text has changed since its chunks were planned is excluded by the same premise.
- ReviewRun.ReviewService.RunBatch: executions that go on behind a batch that was broken off, when the run itself is over; the findings and attempt records of gathered executions, which `Execute` covers one execution at a time.
- ReviewRun.ReviewService.Attempt: the evidence checks behind an outcome are not modelled; an attempt's outcome is an input.
- ReviewRun.ReviewService.RunReview: the session's own writes and the final aggregation's text are left out.
- ReviewStore.Store.Chunks: lists without the source's ordering by id, and reads return values where the source returns deep copies.
- ReviewStore.Store.Delete: without the follow-up messages, expiry and listing of sessions.
- ReviewAggregator.MakePlan: significant lines and the chunkers' results and refusals are inputs; the comment and blank-line rules of `significant_lines` are not modelled.
- ReviewAggregator.Aggregate: the merged findings, their policy, and the summary text.
- Error messages and codes of failed chunks beyond their kind; metrics other than the call counter.
- EventBlocks.BlockRoundTrip: ids are read as decimal digits; JavaScript's other numeric spellings (hexadecimal, exponents) count as no number.
- StreamClient.Client.StreamReviewSession: without the delays, the un-numbered reconnecting notices and the decoding of bytes; an abort by the caller is seen when a pass begins or something throws.
- RecheckProtocol.NothingBehindNewerInstall: a run without an attempt id appears as the saves of an editor, which may change the status and clear the attempt's; deadlines and the bookkeeping of orphaned tasks are not modelled; a worker may stop at any time, so cancellation adds no behaviour.
- ChunkScheduler.Scheduler.GetChunk: returns nothing where the source waits on its condition variable.
- SqliteAuthMigration.ReviewSessionsNewTableSql: names are compared and prefixes upper-cased for ASCII letters; the surrounding migration, its transactions and the SQLite store are left out.
- SqliteAuthMigration.SplitTableDefinitions: the quote and parenthesis tracking of the loop is a method of its own.
- ContextBudget.Fit: the estimator's ceiling of a half is exact integer arithmetic.
- SnippetFilename.CanonicalPathKey: ASCII paths only, without Unicode normalisation and case mapping.
- FixService.HybridReviewService.ConfirmFix: the candidate's lookup and expiry are in `FixCandidateCache`, the static re-check of the repaired file and the symbol check are one Boolean input, and summary texts are left out.
- Unusual line terminators of `str.splitlines`, carriage returns included.
- UI components, authentication, GitLab, deployment, the local-diff service, risk scores and keyword lists.
