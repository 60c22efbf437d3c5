# Desktop shell: verified model

A Dafny model of the parts of the desktop shell that carry state from call to call, with proofs of what they
promise. `dafny verify dfyconfig.toml` checks all of it. Code that changes things step by step is modelled by
classes and loops, proved against functions; what the code promises is then proved about those functions, and
for concurrent code about every run of a transition system whose steps the methods are tied to.

- **Windowed history paging** (`Utf8`, `HistoryModel`, `HistoryRows`, `HistoryConvert`, `HistorySource`, `HistoryTodo`,
  `HistoryEntries`, `HistoryPaging`, `HistoryPagingTheorem`, `HistoryPagingLimits`, `HistoryEvents`,
  `HistoryContentRefs`, `DerivedCache`): the pages cut from windows of a transcript are together one full
  conversion. Around it: the single-flight cache, the backward pager of old sessions, content references and
  their chunks.
- **Heartbeat engine** (`HeartbeatConfig`, `HeartbeatFile`, `HeartbeatRun`, `HeartbeatDrops`, `HeartbeatExecute`,
  `Calendar`, `HeartbeatDue`): the config file shared by processes, the life of topics, and when a task is due.
- **Bot bridge** (`BotRoutes`, `WatchPersist`, `Takeover`, `RemoteDrive`, `BotPrompts`): persisted watchers, remote
  control of tabs, prompts answered from chats.
- **Smaller cores**: media tokens (`MediaTokens`), checkpoint previews (`Checkpoints`), prompt history
  (`PromptTape`), multi-file export (`ExportFiles`), filtered search paging (`SearchPaging`), deferred rebuilds
  (`DeferredRebuild`).

Functions of other packages (steer texts, synthetic messages, display keys, trimming, catalog predicates, the
JSON codec) are function-valued fields of `Env`, `TodoEnv`, `World` and `Codec`; nothing is assumed about them
except where a lemma says so. Strings stand for byte strings, one `char` per byte. Times are integers that the
caller passes in; failures of files, fetches and foreign calls are either nondeterministic or given by a
parameter that may be any function.

## Findings

Where the code does not do what its comments or its design say for all inputs, the model keeps the code, a lemma
shows an input, and another gives the exact condition. They are marked "Finding" below. In short:

- Paging equals the full conversion only if tool-call ids are not reused (`PagedLookupExact`) and no steer's text
  has a planner display of its own (`LockStep`, `ReplayEqualsConversion`); both are the hypotheses `Pageable` of
  the paging theorem.
- Counting chunks of bytes without rune starts never ends (`CountingEndsExact`).
- A config refresh can restore an older watch list (`SeedIsCurrentExact`), although the comment above
  `seedWatchers` says that a stale snapshot is not applied.
- The release inside `DriveInput` acts on a tab read under an earlier lock (`UntieExact`); when another chat drives
  that tab by then, a drive can submit after a local turn (`LateUntieExact`). The effort command reclaims a tab
  without the turn gate (`EffortExact`).
- Prompts of different tabs share their ids, so a chat's answer can reach another tab's prompt
  (`ReplyReachesItsTabExact`).
- A reference to a field of a call reads the first call with that id, so of two calls without an id in one message
  only the first one's arguments can be read (`RefResolvesExact`).
- A heartbeat engine records the file it finds after its own write, but keeps its own list (`MergeRunUpdates`). A
  list edit is compared with what the engine recorded, not with what the list was taken from, so it can undo a merge
  (`ListEditLosesExact`), although the comment above `tick` says that concurrent edits are not lost.
- Conversations of one heartbeat task overlap when a list edit drops a pending topic that is marked submitted, and
  when two engines run on one config (`SEMANTIX_DEV` skips the single-instance lock, desktop/single_instance.go:10-13):
  the lease is given back right after the submit, and a pending topic guards its own engine only (`OverlapExact`). A
  prompt is sent twice when its turn was delivered but not seen running (`SecondPromptExact`).
- The prompt history can offer an older page that is empty (`ReadOlder`).
- A monthly task can overlook the slot of a short month (`MonthlyExact`), and a weekly task on its only day,
  before the hour, is decided by its interval (`WeeklyExact`).

## Model

| member | source | states |
|---|---|---|
| `Utf8.ClipStringBytes` | desktop/app.go:6193-6204 | The loop that backs off to the start of a rune computes the clip of the specification, for any byte limit, negative ones included. |
| `Utf8.ClipIsLongestValidPrefix` | desktop/app.go:6193-6204 | On well-formed text the clip is the longest well-formed prefix within the limit and gives away at most three bytes. |
| `Utf8.ValidExact` | desktop/app.go:6193-6204 | Well formed means: a byte string is well formed if and only if it is the encoding of a sequence of characters (sections 3 and 4 of RFC 3629). |
| `Utf8.TrimUTF8PartialSuffix` | desktop/app.go:10446-10460 | The suffix scan computes the trim of the specification. |
| `Utf8.TrimOfTruncatedRead` | desktop/app.go:10446-10460 | Trimming any truncated read of well-formed text gives what clipping that text at the same byte gives, and loses at most three bytes. |
| `Utf8.TrimValidIffTruncatedText` | desktop/app.go:10446-10460 | Finding, exact condition: the result is well formed if and only if some well-formed text starts with the data; other data comes back untouched. |
| `Utf8.ValidCut` | desktop/history_slice.go:1253-1264 | A cut of well-formed text is well formed on both sides exactly at rune boundaries. |
| `Utf8.HistoryContentChunkEnd` | desktop/history_slice.go:1253-1264 | The back-off loop computes the end of the chunk that starts at an offset. |
| `Utf8.ChunkEndProgress` | desktop/history_slice.go:1240-1264 | A chunk moves forward if and only if it reaches the end of the text or a rune starts inside it. |
| `Utf8.ChunkIsLongest` | desktop/history_slice.go:1253-1264 | A chunk ends at the end of the text if that is within reach, else at the last rune start within reach, else where it began. |
| `Utf8.CountingEndsExact` | desktop/history_slice.go:1240-1250 | Finding, exact condition: counting the chunks ends if and only if a rune starts in every stretch of one chunk. |
| `Utf8.CountingNeverEnds` | desktop/history_slice.go:1240-1250 | Finding, concrete input: on one chunk and one byte of continuation bytes counting never leaves the start. |
| `Utf8.ValidIsSplittable` | desktop/history_slice.go:1240-1250 | On well-formed text every chunk moves forward, so counting ends. |
| `Utf8.HistoryContentChunkCount` | desktop/history_slice.go:1240-1250 | The count is the number of chunks. |
| `Utf8.HistoryContentChunkAt` | desktop/history_slice.go:1266-1279 | Indexing gives that chunk of the same division, the first for negative indexes and nothing past the end, and the count. |
| `Utf8.ChunksRebuild` | desktop/history_slice.go:1266-1279 | The chunks of well-formed text concatenate to it; each is well formed, within the chunk size and, unless the text is empty, non-empty. |
| `HistoryModel.RowsDependOnOwnCalls` | desktop/app.go:5695-5822 | Looked-up results and todo lists reach the rows of a message only through the calls of that message. |
| `HistoryRows.RowsTold` | desktop/app.go:5695-5822 | The rows of a message, told from the message alone: notices with their text, code and level; the role, text, reasoning and calls each role shows; checkpoint and submit text of a user row; archived, failed and unnamed tool results; receipts, interruption and planner display in order. |
| `HistoryRows.StateTold` | desktop/app.go:5695-5822 | What a message leaves: which messages change nothing, which lift the suppression, and that a shown planner display is gone from its queue and suppresses what follows exactly if it tells of an interruption. |
| `HistoryRows.FailedTold` | desktop/app.go:6274-6280 | A result failed exactly if its trimmed text begins with one of four marks. |
| `HistoryRows.UserTextTold` | desktop/app.go:5615-5626 | The text of a user row, told by cases; it is the only such text. |
| `HistoryRows.TurnsAreUserRows` | desktop/app.go:5920-5930 | A provider message counts as a visible turn if and only if the first row it shows is a user row, unless a planner interruption hides it. |
| `HistoryConvert.HistoryMessageConvertState.constructor` | desktop/app.go:5671-5673 | A conversion starts with the recorded planner displays queued per user text and nothing suppressed. |
| `HistoryConvert.PlannerQueuesAreTurns` | desktop/app.go:5968-5977 | The queue of a text holds exactly its recorded displays, in recorded order. |
| `HistoryConvert.QueueHolds` | desktop/app.go:5968-5977 | A queue holds the recorded displays of its text that have messages, and none for a blank text. |
| `HistoryConvert.PlannerQueuesAreFifo` | desktop/app.go:5695-5822 | A converted message takes at most the head of the queue of its own text, shows it at the end of its rows, and leaves all other queues alone. |
| `HistoryConvert.HistoryMessageConvertState.ConvertHistoryMessage` | desktop/app.go:5695-5822 | Converting one message gives the rows and the new state of its fate: receipt, unapplied steer, suppressed, steer, synthetic or shown; and these are what the message shows and leaves, as told above. |
| `HistoryConvert.HistoryMessageConvertState.ConsumeHistoryPlannerState` | desktop/app.go:5830-5856 | Replaying one message without rows gives the state of the replay specification. |
| `HistoryConvert.LockStep` | desktop/app.go:5830-5856 | Finding, exact condition: replaying a message leaves the state that converting it leaves if and only if it is not a steer that meets a queued planner display. |
| `HistoryConvert.ReplayEqualsConversion` | desktop/app.go:5824-5856 | The same for all prefixes of a transcript: priming equals converting and discarding, if and only if no steer meets a planner display on the way. |
| `HistoryConvert.UnkeyedSteersMissPlanner` | desktop/app.go:5824-5856 | A condition on the recorded displays alone suffices: no display is keyed on the text of a steer. |
| `HistoryConvert.NoPlannerNoState` | desktop/history_slice.go:1122-1132 | Skipping the replay when no display is recorded changes nothing. |
| `HistoryPaging.HistoryMessages` | desktop/app.go:5675-5689 | The full conversion pass: the rows of every message, each in the state left by those before it. |
| `HistorySource.NewInMemorySource` | desktop/history_slice.go:526-560 | The visible turn of every message is counted as its rows would show it. |
| `HistorySource.VisibleTurnsCount` | desktop/history_slice.go:526-560 | The visible turn of a message is the number of turn messages up to it. |
| `HistorySource.PrimeHistoryPlannerState` | desktop/history_slice.go:1071-1132 | Priming in chunks of 128 messages equals one replay of the whole prefix; it fails only when a fetch fails. |
| `HistorySource.HistoryToolResultsByID` | desktop/app.go:6025-6034 | The map holds the last result of each id. |
| `HistorySource.ToolResultsAreLast` | desktop/app.go:6025-6034 | The same against an independent search for the last result. |
| `HistorySource.ScanResults` | desktop/history_slice.go:1029-1066 | The scan beyond the window, stopped as soon as nothing is wanted, finds what the scan to the end finds. |
| `HistorySource.ScanSaturates` | desktop/history_slice.go:1029-1066 | Once all wanted ids are found, going on changes nothing. |
| `HistorySource.ExtendHistoryToolResults` | desktop/history_slice.go:1029-1066 | The window results, extended by the first later result of each call still unanswered. |
| `HistorySource.PageResultsAreLookups` | desktop/history_slice.go:1029-1066 | For every call of the window, the page has the content of its last result in the window, or else of the first after it. |
| `HistorySource.PagedLookupExact` | desktop/history_slice.go:1029-1066 | Finding, exact condition: all windows around a call find the result of the full pass if and only if its id has no result, ends on the call message itself, or has one result only, after the call. |
| `HistoryTodo.HistoryTodoArgsState.Consume` | desktop/app.go:6229-6272 | One message advances the replayed todo list as the specification does. |
| `HistoryTodo.SuccessfulIDs` | desktop/history_slice.go:1095-1106 | The first pass collects exactly the ids with a successful result. |
| `HistoryTodo.HistoryTodoArgsForSource` | desktop/history_slice.go:1095-1117 | Both chunked passes together give the todo lists of one pass over the whole transcript. |
| `HistoryTodo.TodoArgsTold` | desktop/app.go:6229-6272 | A todo_write is shown with its list as advanced by the completed steps before the next todo_write, told from the successful calls of the transcript; nothing else is shown. |
| `HistoryTodo.SuccessfulTold` | desktop/app.go:6261-6272 | A call counts as successful if and only if some result of its id starts, after trimming, with none of the four marks of a failure. |
| `HistoryTodo.TodoArgsAreOfSuccessfulWrites` | desktop/app.go:6206-6272 | A list is replayed only for the id of a todo_write call that occurs and has a successful result. |
| `HistoryEntries.RefResolvesExact` | desktop/history_slice.go:1136-1185 | Finding, exact condition: every field past the inline threshold gets a reference with its size, which reads that field back if and only if the field is the row's own or the first call with its id holds the same value. |
| `HistoryEntries.CallsWithoutIDShareRef` | desktop/app.go:6018-6021 | Finding, concrete message: two calls without an id keep their arguments inline; the reference to the second one's reads the first one's. |
| `HistoryEntries.RefsShowPreviews` | desktop/history_slice.go:1177-1185 | What the entry shows for a reference is the preview of what the reference reads. |
| `HistoryEntries.RefsNameFullValues` | desktop/history_slice.go:1136-1185 | With distinct call ids each reference of an entry names a field over the inline threshold, with its exact size, and the entry shows the clip of that very value. |
| `HistoryEntries.EntryKeepsRow` | desktop/history_slice.go:1136-1185 | Nothing of a row is lost in its entry: each field and each field of each call shows in full, or as its clip with a reference of its size; all else is unchanged. |
| `HistoryEntries.FieldNames` | desktop/history_slice.go:1488-1520 | What each field name of a reference reads. |
| `HistoryEntries.EveryTextCounts` | desktop/history_slice.go:1187-1200 | Every text of a row counts once in the byte count. |
| `HistoryEntries.EveryCallCounts` | desktop/history_slice.go:1187-1200 | So does every text of every call, and nothing else. |
| `HistoryEntries.InlineBytes` | desktop/history_slice.go:1187-1200 | The byte count of an entry. |
| `HistoryEntries.DroppedLeavesLongestSuffix` | desktop/history_slice.go:943-965 | The budget rule keeps exactly the longest suffix of groups within both budgets, or the newest group alone. |
| `HistoryEntries.DroppedAppend` | desktop/history_slice.go:943-965 | Dropping while groups arrive keeps what dropping once at the end keeps. |
| `HistoryEntries.DropOldest` | desktop/history_slice.go:958-964 | The drop loop, with running totals, computes the budget rule. |
| `HistoryEntries.DroppedByGreedy` | desktop/history_slice.go:1583-1599 | A greedy cut from the newest end is the cut of the same rule. |
| `HistoryPaging.CandidateWindowStart` | desktop/history_slice.go:888-906 | The binary search and the shrinking loop find the start of the window: the oldest message within the turn budget from which the byte span fits. |
| `HistoryPaging.WindowIsTurnBudget` | desktop/history_slice.go:888-906 | There is one such start; without a byte cap the window holds exactly the messages of the last visible turns asked for, or all if these go back to the first turn. |
| `HistoryPaging.KeepGroup` | desktop/history_slice.go:943-965 | Adding one converted group keeps the groups and totals of the budget rule over all groups so far. |
| `HistoryPaging.ConvertWindow` | desktop/history_slice.go:932-965 | The forward loop keeps the budget-rule suffix of all non-empty groups of the window. |
| `HistoryPaging.TurnRange` | desktop/history_slice.go:974-984 | First and last turn of a page are the least and greatest positive turn of its entries. |
| `HistoryPaging.PageHistorySliceSource` | desktop/history_slice.go:866-996 | A page: stale exactly for a foreign cursor, otherwise the kept groups of the primed and converted window, with cursor and turn range; it fails only if a fetch fails. |
| `HistoryPaging.KeptGroupsAreRange` | desktop/history_slice.go:967-973 | What is kept is everything from one message to the end of the page, with no hole. |
| `HistoryPaging.EntriesShowRows` | desktop/history_slice.go:1136-1175 | Entries show the previews and references of their rows, one each, in order. |
| `HistoryPaging.OwnCursorAccepted` | desktop/history_slice.go:375-383 | A cursor is accepted if and only if it was handed out at the same revision, known or not, and digest; so a session accepts its own. |
| `HistoryPaging.AnyCursorAccepted` | desktop/history_slice.go:375-383 | Any cursor at all is accepted if and only if its digest fits and both revisions are known and equal or neither is known; the number in a cursor without a revision is ignored. |
| `HistoryPagingTheorem.WindowStateIsFullState` | desktop/history_slice.go:1119-1132 | Priming and converting a window reaches each message in the state of the full pass. |
| `HistoryPagingTheorem.PageRowsAreFullRows` | desktop/history_slice.go:45-52 | Each message of any window gets exactly the rows of the full pass. |
| `HistoryPagingTheorem.FullRowsShow` | desktop/app.go:5675-5689 | What the full pass, and so every page, shows of each message is what the message tells, in the state left by those before it. |
| `HistoryPagingTheorem.PageIsSliceOfFull` | desktop/history_slice.go:45-52 | A page is a contiguous slice of the entries of the full pass. |
| `HistoryPagingTheorem.ServedPageExact` | desktop/history_slice.go:943-994 | A served page, exactly: the full conversion from a start on that the cursor names; a message with rows is on it if and only if it is in the window, and nothing newer has rows or the entry and byte budgets hold everything from it on. |
| `HistoryPagingTheorem.PageFillsWindow` | desktop/history_slice.go:888-994 | When the other budgets hold the window, the page is the whole window. |
| `HistoryPagingTheorem.WalkIsFull` | desktop/history_slice.go:45-52 | Following the cursors from any message back, with any budgets that may change from page to page, concatenates to the full pass up to there. |
| `HistoryPagingTheorem.PagesEqualFullConversion` | desktop/history_slice.go:45-52 | The pages from newest to oldest are the full conversion: no row lost, repeated or changed. |
| `HistoryPagingTheorem.CollectPages` | desktop/history_slice.go:985-994 | A client that follows served cursors ends, and collects that walk. |
| `HistoryPagingTheorem.PageWithinTurnBudget` | desktop/history_slice.go:888-906 | A page reaches back at most its turn budget. |
| `HistoryPagingTheorem.PageWithinEntryBudget` | desktop/history_slice.go:958-964 | A page is within entry and byte budget, unless one message alone exceeds it. |
| `HistoryPagingLimits.ReusedIDChangesRow` | desktop/history_slice.go:1029-1066 | Finding, concrete input: with a reused tool-call id a page shows another row than the full pass. |
| `HistoryPagingLimits.KeyedSteerBreaksLockStep` | desktop/app.go:5830-5856 | Finding, concrete input: a steer whose text has a planner display breaks the lock-step. |
| `HistoryPagingLimits.KeyedSteerChangesPage` | desktop/history_slice.go:901-906 | Finding, concrete session: the served page starts behind such a steer and lacks the row of the answer, which the full pass shows. |
| `HistoryEvents.KeepBackward` | desktop/history_slice.go:1583-1599 | The backward greedy loop keeps what the forward budget rule keeps on groups of one row. |
| `HistoryEvents.PageHistoryEventRows` | desktop/history_slice.go:1548-1620 | A page of an old session: its rows, cursor, staleness, turn range and number of turns. |
| `HistoryEvents.EventPageExact` | desktop/history_slice.go:1571-1599 | A row is on the page if and only if it is within the turn budget, and is the newest or the budgets hold all rows from it on. |
| `HistoryEvents.TurnsCountUsers` | desktop/history_slice.go:1559-1567 | The turn of a row is the number of user rows up to it. |
| `HistoryEvents.EventPagesAreAllRows` | desktop/history_slice.go:1548-1620 | Those pages concatenate to all rows whatever the budgets, and each cursor moves back. |
| `HistoryContentRefs.HistoryFieldValueForSource` | desktop/history_slice.go:1454-1485 | Resolving a reference re-converts its one message and reads the field; foreign or out-of-range references are stale. |
| `HistoryContentRefs.RefResolvesToFullField` | desktop/history_slice.go:1454-1485 | Resolving the reference of any field of a row of the full conversion gives a field of that row, whose preview the entry shows and whose chunks rebuild it if it is well formed; it is that very field if and only if it is the row's own or the first call with its id holds the same value. |
| `HistoryContentRefs.DistinctIDsResolveToFullField` | desktop/history_slice.go:1454-1485 | With distinct call ids every reference shown resolves to the full field it was made for. |
| `DerivedCache.HistoryDerivedCache.Enter` | desktop/history_slice.go:298-317 | First critical section: join or start a computation. |
| `DerivedCache.HistoryDerivedCache.Close` | desktop/history_slice.go:319-320 | Publishing wakes all waiters with one outcome. |
| `DerivedCache.HistoryDerivedCache.Retire` | desktop/history_slice.go:321-335 | Second critical section: drop a failure that is still current, prune. |
| `DerivedCache.HistoryDerivedCache.PruneLocked` | desktop/history_slice.go:348-373 | The prune loop computes the prune of the specification. |
| `DerivedCache.PruneKeepsInFlight` | desktop/history_slice.go:348-373 | Pruning keeps the order list a permutation of the keys, drops nothing in flight, and leaves at most four entries unless all are in flight. |
| `DerivedCache.PruneDropsOldest` | desktop/history_slice.go:348-373 | Pruning drops the least recently used results that are not in flight, no more than it must, and keeps the order of the others. |
| `DerivedCache.TouchMakesNewest` | desktop/history_slice.go:338-346 | Using a key makes it the most recently used. |
| `DerivedCache.GoodResultsStay` | desktop/history_slice.go:298-336 | A stored result is used again; a good computation is dropped by pruning only. |
| `DerivedCache.SingleFlight` | desktop/history_slice.go:283-336 | In every interleaving at most one computation per key is in flight. |
| `DerivedCache.WaitersShareOutcome` | desktop/history_slice.go:298-336 | In every interleaving all callers that joined a computation return its one outcome. |
| `DerivedCache.OutcomeIsFinal` | desktop/history_slice.go:298-336 | A published outcome never changes. |
| `DerivedCache.CacheStaysTidy` | desktop/history_slice.go:298-373 | In every interleaving the order list is a duplicate-free permutation of the keys; a stored failure, or an idle entry over the limit, means that its caller is about to prune. |
| `DerivedCache.QuiescentCache` | desktop/history_slice.go:298-373 | Between calls no failure is stored and more than four entries means that all are in flight. |
| `HeartbeatConfig.SameConfigIsSameContent` | desktop/heartbeat.go:232-235 | The comparison under the lock holds exactly for the same file content. |
| `HeartbeatConfig.MergeHeartbeatRunUpdates` | desktop/heartbeat.go:718-739 | The in-place merge computes the merge of the specification, and leaves of each task what one merge leaves, as told next. |
| `HeartbeatConfig.MergesTell` | desktop/heartbeat.go:718-739 | Any number of merges leave of a task its definition, the greatest run time, the topic brought last by a completion that was newer than all before or the first to name one, and the recorded or first creation time. |
| `HeartbeatConfig.MergeWritesRunState` | desktop/heartbeat.go:718-739 | A merge changes run state only, lowers no run time, loses no topic or creation time, and ignores older completions. |
| `HeartbeatConfig.MergeIsIdempotent` | desktop/heartbeat.go:718-739 | Merging the same completions again changes nothing. |
| `HeartbeatConfig.HeartbeatEngine.RecordConfigSnapshot` | desktop/heartbeat.go:171-179 | What an engine remembers of the file it has read. |
| `HeartbeatConfig.HeartbeatEngine.Start` | desktop/heartbeat.go:252-268 | Starting records and takes over what the file says, if it can be read. |
| `HeartbeatConfig.HeartbeatEngine.ReloadConfig` | desktop/heartbeat.go:561-573 | Reloading takes over what the file says, changed or not. |
| `HeartbeatConfig.HeartbeatEngine.PrunePendingTopics` | desktop/heartbeat.go:625-640 | Pending topics survive exactly for listed tasks that open a conversation per run. |
| `HeartbeatConfig.HeartbeatEngine.AdoptExternalEdits` | desktop/heartbeat.go:183-208 | A changed file is adopted, a deleted one empties the engine, anything else changes nothing; an engine in step with its file stays so. |
| `HeartbeatConfig.HeartbeatEngine.WriteTasks` | desktop/heartbeat.go:215-248 | The locked compare-and-write: when it writes, conflicts or fails, exactly; a write puts the list under the next revision of the content it replaces, anything else changes nothing. |
| `HeartbeatConfig.HeartbeatEngine.WriteMerged` | desktop/heartbeat.go:701-708 | What a merge overwrites is what others left in the file by then, and equals what was read; otherwise it writes nothing. |
| `HeartbeatConfig.HeartbeatEngine.MergeRunUpdates` | desktop/heartbeat.go:663-716 | With anybody else writing in between: it overwrites at most once, and what it overwrites is exactly what the file held at that moment and what it had read; the list is the merge into that. After the reload the engine is in step with the file if and only if others left the list it wrote (finding). Undisturbed in its first attempt it does write, unless the file was deleted. |
| `HeartbeatConfig.HeartbeatEngine.ReplaceTasks` | desktop/heartbeat.go:576-600 | A list edit replaces only the file the engine last recorded; what it overwrites is what others left there by then and what it had read; undisturbed it succeeds. |
| `HeartbeatConfig.HeartbeatEngine.ReplaceConfig` | desktop/heartbeat.go:602-623 | A panel edit replaces only the file whose revision and tag the panel names; what it overwrites is what others left there by then and what it had read; undisturbed it succeeds. |
| `HeartbeatConfig.RunStateWriteKeeps` | desktop/heartbeat.go:663-739 | A run-state write has the task definitions on disk at that instant and counts the revision up. |
| `HeartbeatConfig.RevisionsCountUp` | desktop/heartbeat.go:237-241 | The first write to a missing file has revision 1, and each write counts one up, to the width of the counter. |
| `HeartbeatConfig.RunStateWritesAreMonotone` | desktop/heartbeat.go:663-739 | Over any number of run-state writes in a row: same tasks and definitions, no run time lowered, no topic lost. |
| `HeartbeatConfig.LaterEditsAreAdopted` | desktop/heartbeat.go:183-208 | An engine out of step stays so until the file changes again, and then catches up. |
| `HeartbeatConfig.ReloadHidesForeignWrite` | desktop/heartbeat.go:702-713 | Finding, concrete run of the merge: a foreign list that lands between write and reload leaves the engine out of step, and is not adopted afterwards. |
| `HeartbeatFile.NoLostUpdate` | desktop/heartbeat.go:215-248 | In every interleaving of engines starting, merging, editing lists and panels, reloading and adopting, with hand edits in between: each write replaces the content that was read for it. For merges and panel edits that is the content they started from, so they lose nobody's update; for list edits see ListEditLosesExact. |
| `HeartbeatFile.ListEditLosesExact` | desktop/heartbeat.go:576-600 | Finding, exact condition: a list edit, whose list was taken from what its engine had recorded then, replaces another content, and so loses an update, if and only if the engine has recorded another content by the time it writes. |
| `HeartbeatFile.ListEditCompares` | desktop/heartbeat.go:576-600 | In every interleaving a list edit of an engine that has recorded the file replaces only the content it recorded; one that has recorded nothing compares nothing. |
| `HeartbeatFile.StaleListEditUndoesMerge` | desktop/heartbeat.go:294-297 | Finding, concrete run: one engine starts, merges run state and then saves a list taken before; the merged run state is gone. |
| `HeartbeatFile.RunStateWritesKeepDefinitions` | desktop/heartbeat.go:663-739 | In every such interleaving a run-state write has exactly the task definitions on disk at that instant and lowers no run time. |
| `HeartbeatFile.RunTimesNeverFall` | desktop/heartbeat.go:663-739 | Over any stretch in which only such writes change the file, whatever else the engines do, run times never fall and definitions stay. |
| `HeartbeatRun.StepKeepsInv` | desktop/heartbeat.go:349-545 | Every step of any execution, of any engine, or of a list edit keeps the invariant. |
| `HeartbeatRun.RunKeepsInv` | desktop/heartbeat.go:349-545 | So does every run. |
| `HeartbeatRun.OneExecutionPerTask` | desktop/heartbeat.go:349-400 | In every run at most one execution of a task is active per engine, and at most one holds the lease in all engines together. |
| `HeartbeatRun.NothingLeftBehind` | desktop/heartbeat.go:349-400 | In every run a task is reserved exactly while an execution of it is under way in that engine, and its lease is taken exactly while an execution holds it. |
| `HeartbeatRun.TopicSubmittedOnce` | desktop/heartbeat.go:402-545 | In every run a topic of a task that opens a conversation per run receives at most one prompt that is reported as started, and two prompts only if the submit of one was reported as failed. |
| `HeartbeatRun.SecondPromptExact` | desktop/app.go:1124-1142 | Finding, exact condition: a prompt goes to a topic that already has one if and only if the submit of an earlier one was delivered but reported as failed. |
| `HeartbeatExecute.PromptedTwice` | desktop/app.go:1124-1142 | Finding, concrete run: the turn of the first prompt is not seen running, and the next execution prompts the topic again. |
| `HeartbeatRun.RecursesAtMostOnce` | desktop/heartbeat.go:487-494 | In every run an execution calls itself at most once. |
| `HeartbeatDrops.FreshTopicAfterIdle` | desktop/heartbeat.go:402-450 | Where no list edit has dropped a pending topic of the task in its engine, a fresh topic is created only after each earlier one, of any engine, was submitted and then seen idle, except those pending in another engine. |
| `HeartbeatRun.CreatedIsSubmittedPlusPending` | desktop/heartbeat.go:402-545 | Where no list edit has dropped one, the topics created for a task in an engine are those submitted plus the unsubmitted pending one if there is one. |
| `HeartbeatDrops.OverlapExact` | desktop/heartbeat.go:349-376 | Finding, exact condition: a prompt is submitted while an earlier conversation of the task, in any engine, was not seen idle, if and only if some topic of the task, of any engine, was dropped while marked submitted and not seen idle since, or another engine has one pending that is marked submitted. |
| `HeartbeatDrops.FreshTopicExact` | desktop/heartbeat.go:430-450 | The same for the creation of a fresh topic. |
| `HeartbeatDrops.UnseenTurnIsKept` | desktop/app.go:1124-1142 | A topic whose prompt was delivered but reported as failed stays pending unless a list edit drops it; when another topic of the task is prompted, it is pending in another engine. |
| `HeartbeatDrops.CreatedIsSubmittedPlusPendingExact` | desktop/heartbeat.go:402-545 | The count of topics of a task in its engine holds if and only if every topic dropped without a prompt got it after all. |
| `HeartbeatExecute.PruneLetsRunsOverlap` | desktop/heartbeat.go:625-640 | Finding, concrete run: two conversations of one task overlap in one engine after a list edit dropped the first. |
| `HeartbeatExecute.TwoEnginesOverlap` | desktop/heartbeat.go:349-376 | Finding, concrete run: two engines run two conversations of one task at once, with no list edit at all. |
| `HeartbeatExecute.Heartbeat.ClaimTask` | desktop/heartbeat.go:383-394 | A reservation is granted exactly when there is none, and is a step of the run model. |
| `HeartbeatExecute.Heartbeat.ReleaseTask` | desktop/heartbeat.go:396-400 | Giving the reservation back, as a step of the run model. |
| `HeartbeatExecute.Heartbeat.TryAcquireTaskLease` | desktop/heartbeat.go:370-376 | The lease of a task is taken only when no process has it. |
| `HeartbeatExecute.Heartbeat.TopicToUse` | desktop/heartbeat.go:418-450 | The pending topic, or a fresh one that becomes pending. |
| `HeartbeatExecute.Heartbeat.SubmitPrompt` | desktop/heartbeat.go:510-534 | Submitting succeeds exactly if the turn is seen running; then the topic is marked, and has received exactly one prompt so reported. |
| `HeartbeatExecute.Heartbeat.ExecuteTaskOwned` | desktop/heartbeat.go:402-545 | Whatever others do in between, an owned execution takes only steps of the run model and ends; the run time moves exactly when the outcome is not a retry. If every outside answer is favourable, it submits. |
| `HeartbeatExecute.Heartbeat.ExecuteTask` | desktop/heartbeat.go:349-365 | A trigger is refused exactly for a task that is running, and then does nothing; its reservation is given back on every path, and so is the lease (see NothingLeftBehind). The task then points to the topic created in the course of it, which is the one prompted, or to the same as before if none was created. |
| `Calendar.DayNumberOrders` | desktop/heartbeat.go:1035-1051 | Day numbers order civil dates as the calendar does, and name one date each. |
| `Calendar.Epoch` | desktop/heartbeat.go:1035-1070 | 1 January 1970 is day 0 and a Thursday. |
| `Calendar.NextDayNumber` | desktop/heartbeat.go:1035-1051 | The day after a date has the next number, over the ends of months and years. |
| `Calendar.NextWeekday` | desktop/heartbeat.go:1053-1070 | The next day has the next weekday, and a week begins on Monday only. |
| `Calendar.MonthLengths` | desktop/heartbeat.go:1049-1051 | The lengths of the months but February. |
| `Calendar.LeapDays` | desktop/heartbeat.go:1049-1051 | February has 28 days and the one its year is longer by; 400 years are whole weeks. |
| `HeartbeatDue.PreviousWeeklyAt` | desktop/heartbeat.go:928-949 | The nested loops find the latest matching day of the window. |
| `HeartbeatDue.TaskDueAt` | desktop/heartbeat.go:761-799 | The branches compute the due predicate of the specification. |
| `HeartbeatDue.DailyIsLast` | desktop/heartbeat.go:908-913 | The daily search gives the last slot not after now. |
| `HeartbeatDue.WeeklyExact` | desktop/heartbeat.go:914-949 | Finding, exact condition: the weekly search gives the last slot, or nothing if and only if all its days are today and the hour is still to come. |
| `HeartbeatDue.BiweeklyExact` | desktop/heartbeat.go:916-949 | The same for every second week, if and only if moreover this week counts. |
| `HeartbeatDue.MonthlyExact` | desktop/heartbeat.go:951-958 | Finding, exact condition: the monthly search gives the last slot if and only if it is not before this month's slot on a day the month before does not have; then it gives a slot still to come. |
| `HeartbeatDue.YearlyIsLast` | desktop/heartbeat.go:960-967 | The yearly search gives the last slot not after now. |
| `HeartbeatDue.DueExact` | desktop/heartbeat.go:761-799 | A scheduled task is due if and only if a slot since its creation and last run has passed; where the search fails, a weekly rule falls back to its interval and a monthly one is not due. |
| `HeartbeatDue.IntervalDueExact` | desktop/heartbeat.go:779-799 | A task without a schedule is due exactly when its interval is positive, its window open, and every time it ran, or before that its creation, lies an interval back. |
| `HeartbeatDue.AnchorTold` | desktop/heartbeat.go:969-977 | Every second week is counted from the creation of the task, or else from its first run, the last run known, or today. |
| `HeartbeatDue.ClampedIsNearest` | desktop/heartbeat.go:1039-1051 | The slot of a month is on the day of that month nearest to the one asked for. |
| `HeartbeatDue.ClockTold` | desktop/heartbeat.go:908-913 | A time of day is its share of the day. |
| `HeartbeatDue.MonthlyForgetsFebruary` | desktop/heartbeat.go:951-958 | Finding, concrete input: on 30 March a missed slot of the last of February is not due. |
| `HeartbeatDue.RunsAreApart` | desktop/heartbeat.go:761-799 | In any history of runs, between the end of one and the decision of any later one lies a slot, or for interval-decided runs the interval, with the window open. |
| `HeartbeatDue.WindowIsCircular` | desktop/heartbeat.go:804-836 | A time window is an interval on the clock face, also across midnight, start inclusive and end exclusive. |
| `HeartbeatDue.WindowOneEnded` | desktop/heartbeat.go:804-836 | With one end a window is open from its start on or up to its end; with none, always. |
| `WatchPersist.BotBridgeHub.Mutate` | desktop/bot_bridge.go:425-440 | First section of a watch command: new table, next sequence number, snapshot, dirty. |
| `WatchPersist.BotBridgeHub.Persist` | desktop/bot_bridge.go:441-452 | Only a snapshot newer than the last persisted one is written. |
| `WatchPersist.BotBridgeHub.ClearDirty` | desktop/bot_bridge.go:453-460 | Dirty is cleared only by the latest command. |
| `WatchPersist.BotBridgeHub.SeedWatchers` | desktop/bot_bridge.go:471-486 | A refresh applies only when nothing is unsaved and no newer command came. |
| `WatchPersist.DiskIsLatest` | desktop/bot_bridge.go:425-460 | In every interleaving, with failing writes: written snapshots have rising numbers, the disk is the last written one, and it is that of the latest command whenever a command was given and dirty is clear. |
| `WatchPersist.TableTold` | desktop/bot_bridge.go:425-486 | In every interleaving the table holds for each key what the last step that decided about it said: a command that enabled it with that route, one that disabled it, or a refresh that applied what it had read; and nothing for other keys. |
| `WatchPersist.DiskTold` | desktop/bot_bridge.go:425-460 | Once nothing is unsaved, the disk holds for each key what the last step up to the latest command said. |
| `WatchPersist.LatestIsSaved` | desktop/bot_bridge.go:441-460 | When the latest command persists and the write succeeds, the disk holds its table and nothing is unsaved. |
| `WatchPersist.SeedSparesUnsaved` | desktop/bot_bridge.go:467-486 | Through any stretch of a run that begins with a watch command, the table is what the commands made it, as long as every refresh that seeds was under way when that command came or finds a command unsaved: neither stale refreshes nor failed persists erase newer state. |
| `WatchPersist.CleanSeedIsCurrent` | desktop/bot_bridge.go:462-486 | A refresh whose version was read while clean seeds what is on disk. |
| `WatchPersist.SeedIsCurrentExact` | desktop/bot_bridge.go:462-486 | Finding, exact condition: an applied refresh seeds the snapshot that was on disk when it read the config; by number that is the one of the latest command if and only if the command whose version it had read was on disk by then. Otherwise it is an older one, though the disk holds the latest. |
| `WatchPersist.SeedCanRestoreOldSnapshot` | desktop/bot_bridge.go:462-486 | Finding, concrete interleaving: a version read before a persist and applied after it restores the older snapshot. |
| `BotRoutes.KeyTellsRoute` | harness/bot/desktop.go:44-46 | Chats of one key agree in platform, connection, domain and chat, as long as no part but the last has a bar in it. |
| `Takeover.BotBridgeTies.Takeover` | desktop/bot_bridge.go:560-604 | A takeover succeeds exactly for a private chat and a free, attached tab, ties the two and unties what the chat drove before. |
| `Takeover.BotBridgeTies.Release` | desktop/bot_bridge.go:606-626 | A release unties the chat, and tells which tab it drove. |
| `Takeover.BotBridgeTies.ReclaimFromDesktop` | desktop/bot_bridge.go:674-699 | A local turn unties the tab. |
| `Takeover.BotBridgeTies.DriveInput` | desktop/bot_bridge.go:634-666 | What a chat message does: nothing tied, tab lost and untied, busy, or drive that tab. |
| `Takeover.CallsKeepTablesInverse` | desktop/bot_bridge.go:560-699 | After any sequence of atomic calls the two tables are inverse partial maps of private chats only. |
| `Takeover.OthersKeepTheirTies` | desktop/bot_bridge.go:560-699 | Tabs and chats that have nothing to do with a call keep their ties. |
| `Takeover.UntieExact` | desktop/bot_bridge.go:634-666 | Finding, exact condition: the untying of a tab read under an earlier lock keeps the tables inverse if and only if chat and tab are still tied to each other, or neither is tied. |
| `Takeover.LateReleaseBreaksInverse` | desktop/bot_bridge.go:634-666 | Finding, concrete calls: a takeover in between parts the tables. |
| `RemoteDrive.NoDriveAfterLocalTurn` | desktop/bot_bridge_app.go:115-151 | In every interleaving with the turn gate and with late untyings, none of which robs another chat: no drive submits to a tab after a local turn reclaimed it, unless the same chat took it over again in between. |
| `RemoteDrive.LateUntieExact` | desktop/bot_bridge.go:640-650 | Finding, exact condition: after the late untying of a chat and a tab a drive can slip in behind a local turn if and only if another chat drives that tab by then. |
| `RemoteDrive.LateUntieFaithful` | desktop/bot_bridge.go:640-650 | The untying leaves every driving chat the holder of its tab if and only if it robs nobody. |
| `RemoteDrive.LateUntieLetsDriveSlipIn` | desktop/bot_bridge.go:640-650 | Finding, concrete run: a drive submits after a local turn that found nothing to reclaim. |
| `RemoteDrive.EffortExact` | desktop/app.go:1201-1215 | Finding, exact condition: some run has a drive of a chat submit to a tab after a local effort command on it, with no takeover by that chat in between, if and only if a drive of the chat had passed its re-check before the command. |
| `RemoteDrive.EffortCanSlipIn` | desktop/app.go:1201-1215 | Finding, concrete interleaving: a local effort command reclaims without the gate, so a drive can submit after it. |
| `BotPrompts.BotBridgePrompts.Observe` | desktop/bot_bridge.go:145-200 | Prompts are noted when raised and dropped when their tab's turn ends; at most 200 are kept. |
| `BotPrompts.BotBridgePrompts.TakePrompt` | desktop/bot_bridge.go:504-556 | An answer takes the prompt out, or finds none of its kind. |
| `BotPrompts.ReplyReachesItsPrompt` | desktop/bot_bridge.go:504-556 | Whatever an answer reaches was raised by that tab under that id, and is still open and the latest under it. |
| `BotPrompts.ReplyReachesItsTabExact` | desktop/bot_bridge.go:504-556 | Finding, exact condition: an answer to an open prompt reaches the tab that raised it if and only if no other tab raised a prompt under the same id since and the table did not overflow. |
| `BotPrompts.OtherTabsPromptIsAnswered` | desktop/bot_bridge.go:193-200 | Finding, concrete history: two tabs raise the id 1; the answer approves the second tab's prompt, and the first tab's can no longer be answered. |
| `BotPrompts.AnsweredOnce` | desktop/bot_bridge.go:504-556 | Between two answers that reach one tab under one id, that tab raised the prompt again. |
| `MediaTokens.MediaTokenStore.Cleanup` | desktop/app.go:408-429 | The loops pop expired heads and trim to the limit. |
| `MediaTokens.MediaTokenStore.Create` | desktop/app.go:431-464 | A create cleans up, stores and trims again. |
| `MediaTokens.MediaTokenStore.Get` | desktop/app.go:466-478 | A get gives the unexpired entry, and drops an expired one from the map only. |
| `MediaTokens.CreateKeepsNewest` | desktop/app.go:408-464 | A create leaves keys equal to the order list, and both exactly the newest live tokens. |
| `MediaTokens.GetFindsHeldTokens` | desktop/app.go:466-478 | A get finds exactly the held unexpired tokens, and keeps what the store holds. |
| `MediaTokens.LiveMeaning` | desktop/app.go:390-429 | Live tokens are a suffix of those issued, unexpired, at most the limit, and nothing else is left out. |
| `MediaTokens.StoreRefinesNewestLive` | desktop/app.go:390-478 | Over any calls on a clock that does not go back the store refines the newest at most the limit of unexpired tokens. |
| `Checkpoints.InsertCheckpointFilePreview` | desktop/app.go:2520-2540 | Inserting a path keeps the preview the sorted smallest paths of the set. |
| `Checkpoints.SmallestUnique` | desktop/app.go:2520-2540 | That preview is determined by the set and the limit. |
| `Checkpoints.AddFiles` | desktop/app.go:2505-2511 | The files of a turn join the union and its preview. |
| `Checkpoints.CheckpointsForTab` | desktop/app.go:2448-2518 | Every row has the size of the union of files from its turn on, its smallest paths, and can undo code exactly when some such turn has files and each that has can. |
| `Checkpoints.FilesFromIsUnion` | desktop/app.go:2488-2517 | Those are the files of its own and all later turns. |
| `Checkpoints.EarlierRewindsReachFurther` | desktop/app.go:2488-2517 | A rewind further back never affects fewer files. |
| `PromptTape.PromptHistoryTape.EntriesForSession` | desktop/app.go:4664-4687 | A session is scanned once; a failing one counts as empty from then on. |
| `PromptTape.PromptHistoryTape.TakeFrom` | desktop/app.go:4620-4635 | One turn of the loop appends the next stretch of the tape and moves the position forward. |
| `PromptTape.PromptHistoryTape.ReadOlder` | desktop/app.go:4605-4649 | A page is the next stretch of the tape, full unless the tape ends in it. It has a cursor, further on in (session, offset) order, if and only if it is full and entries are left or the last session is empty (finding). |
| `PromptTape.EmptySessionLeavesCursor` | desktop/app.go:4636-4648 | Finding, concrete tape: a page that ends at the end of a session before an empty one has a cursor though nothing is left. |
| `PromptTape.PromptHistoryTape.ReadAll` | desktop/app.go:4651-4662 | Following the cursors ends and gives all entries of all sessions, each once and in order. |
| `PromptTape.SessionOnTape` | desktop/app.go:4605-4649 | A stretch of a session is the corresponding stretch of the tape. |
| `ExportFiles.CreateExportTempFile` | desktop/app.go:11124-11150 | A temporary file is new; when none can be made nothing changes. |
| `ExportFiles.DirTold` | desktop/app.go:11079-11086 | Temporary files are made in the directory of their target. |
| `ExportFiles.StageOne` | desktop/app.go:11079-11105 | A staged payload is in a file of its own; a failed one leaves at most that file. |
| `ExportFiles.StageAll` | desktop/app.go:11072-11106 | Staging adds temporary files only. |
| `ExportFiles.CommitStagedExportFile` | desktop/app.go:11152-11199 | Publishing, by link or by exclusive copy, creates the target with the staged content, or changes nothing. |
| `ExportFiles.RollbackCommitted` | desktop/app.go:11201-11215 | Rolling back removes exactly the names this export created and still owns. |
| `ExportFiles.CommitAll` | desktop/app.go:11108-11117 | Publishing all, or nothing. |
| `ExportFiles.SaveExclusiveExportPayloads` | desktop/app.go:11060-11118 | All or nothing with any operation but stat and remove allowed to fail: success leaves each target a new name with its payload and nothing else changed; failure leaves every name as before; no old file is ever replaced. It fails only after a mishap on the disk or for a request that cannot be fulfilled (no or repeated targets, a target that exists or is a temporary name, a missing payload). |
| `SearchPaging.HistoryHitFromCandidate` | desktop/history_search_collect.go:40-85 | A row gives the same hit whether its session was loaded before or not. |
| `SearchPaging.Search` | harness/historycatalog/catalog.go:589-671 | The catalog answers with the next 200 rows after the cursor, less those outside their root. |
| `SearchPaging.ReachIsWholeCatalog` | desktop/history_search_collect.go:87-144 | A search reads the rest of the catalog if and only if every row outside its root falls in the last batch. |
| `SearchPaging.CollectHistorySearchItems` | desktop/history_search_collect.go:87-144 | A page is the first matches within that reach, and has a cursor, on its last match, exactly when there is one more. |
| `SearchPaging.SearchPageIsNextMatches` | desktop/history_search_collect.go:87-144 | With all rows within their root a page is the first matches after the cursor in the whole catalog. |
| `SearchPaging.CursorContinues` | desktop/history_search_collect.go:87-144 | The matches after a page's cursor are those the page did not show. |
| `SearchPaging.SearchAll` | desktop/history_search_collect.go:87-144 | Iterated pages give every match once and in order, whatever the batch boundaries. |
| `SearchPaging.StatusTold` | desktop/history_catalog.go:175-196 | The current session is the active one, the open ones are the others that are open. |
| `SearchPaging.RowOutsideRootHidesMatch` | desktop/history_search_collect.go:87-144 | A limit of the root filter: one row outside its root would hide a match 200 rows later. |
| `SearchPaging.ListHistorySessions` | desktop/history_catalog.go:154-220 | A page is the first admitted sessions from the cursor, all at one revision, and a full one goes on right after its last; a broken query or another revision gives what was collected, and nothing else does. |
| `SearchPaging.ListAllSessions` | desktop/history_catalog.go:154-220 | Iterated pages give every admitted session once and in order while the catalog answers at one revision. |
| `DeferredRebuild.DeferredRebuildState.StartLoopLocked` | desktop/deferred_rebuild.go:56-69 | A loop is launched exactly when armed, not stopped, needed and none runs. |
| `DeferredRebuild.DeferredRebuildState.Schedule` | desktop/deferred_rebuild.go:71-87 | Scheduling notes the tab, and launches a loop if needed. |
| `DeferredRebuild.DeferredRebuildState.StopRetry` | desktop/deferred_rebuild.go:118-129 | Stopping is final. |
| `DeferredRebuild.DeferredRebuildState.Tick` | desktop/deferred_rebuild.go:156-174 | A tick is done, or hands out a copy of all that is pending. |
| `DeferredRebuild.NoLostWakeUp` | desktop/deferred_rebuild.go:45-87 | In every interleaving: armed, not stopped and something pending means running; running means exactly one loop that has not decided to exit. |
| `DeferredRebuild.NothingStartsAfterStop` | desktop/deferred_rebuild.go:118-129 | After a stop no loop ever starts and nothing is added. |
| `DeferredRebuild.TickRetriesAllPending` | desktop/deferred_rebuild.go:156-174 | What is pending when an armed loop ticks is retried by that tick. |
| `DeferredRebuild.ScheduledStaysPending` | desktop/deferred_rebuild.go:71-87 | What is scheduled stays pending, with the setting given last, until it is cleared. |
| `DeferredRebuild.EachTabIsRetried` | desktop/deferred_rebuild.go:131-154 | A loop has each tab of its copy to do until its retry is over. |

## Left out

- PagesEqualFullConversion: over a transcript that does not grow between pages (a cursor of another revision or digest is stale); rows are compared before previews and without the overlay of persisted timestamps, which depends on external records; its hypotheses are those named under Findings.
- RefResolvesToFullField: asks for what the paging theorem asks for; the number of chunks stored with a reference is not part of the modelled reference; `HistoryContentChunkCount` models it.
- HistoryContentChunkCount: asks for splittable text, because by `CountingEndsExact` the loop of the source does not end on any other.
- HistoryContentChunkAt: asks for the same.
- NoLostUpdate: comparison and write are one step, since all engines take the lock; an editor that writes without it between the two is not modelled.
- OverlapExact: counts conversations whose submit was reported as started; `UnseenTurnIsKept` says where the others are.
- FreshTopicExact: counts the same conversations.
- TopicSubmittedOnce: covers tasks that open a conversation per run; tasks that reuse one topic submit to it many times by design, and a change of that setting while an execution runs is not modelled.
- ExecuteTaskOwned: opening the tab, waiting for its controller and setting the approval mode are one nondeterministic answer each.
- NoLostWakeUp: retrying one tab is a single step; controller and lease internals are not part of this model.
- SaveExclusiveExportPayloads: a crash in the middle of an export and other programs changing the directory are not modelled.
- DiskIsLatest: without edits of the config file from outside; the order of the persisted list and the branch without a persist function are not modelled.
- CallsKeepTablesInverse: each bridge call is atomic; `RemoteDrive` has the one call that is not in two steps.
- SearchAll: over a catalog that does not change while paging, with every row within its root; its writers pair a path with a root it is under (harness/historycatalog/catalog.go:358-371), so the root filter is a precaution.
- Row fields that the converter copies without a branch (work duration, memory citations, tool execution, resolved names, line counts).
- JSON and base64 forms of cursors and entry ids: they are records and pairs (message, row); digests are the content itself; that of the heartbeat file is of the decoded text.
- A fetch that returns the wrong number of messages counts as a failed fetch.
- Defaults and upper limits of page sizes: any size is covered, the turn budget and the prompt page from one on, which the defaults guarantee.
- Parsing of schedule texts, intervals and clocks: the model starts from the parsed rule.
- Time zones and daylight saving: a calendar at a fixed offset; fractions of a millisecond.
- Overflow of the 64-bit watch sequence number; the revision of the heartbeat file does wrap.
- Same-file checks of the export against other programs' files, and file modes and permissions.
- The text, cards and delivery of bridge notifications, and the queue they wait in.
- Windows, tray, dialogs, bot installation, telemetry, controller build and switching, session leases: operating-system and network code.
- Index files, their migration and their publication.
- View projections, settings copies and text templates: nothing to prove beyond reading a branch.
