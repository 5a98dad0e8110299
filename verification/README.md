# DartClaw: verified models of its hardest logic

These Dafny modules model the parts of DartClaw in which many things can happen
in many orders and nothing may be lost: the browser runtime's event-stream
reader and reconnect loop, the draft and context protocols of the chat page,
find marks and selections, the conversation rail, the SQLite to PostgreSQL
import, the command dialogs and the Windows installer. Each is modelled with its
own branches, constants and failure cases, and its main promises are proved for
every input, every run or every reachable state.

Code that updates fields is a class whose methods are proved equal to steps of a
specification; the promises are then proved about runs of those steps.
Asynchronous code is a state machine whose events are the points at which the
browser can run something else: a keystroke, a timer, an answer, a delivered
broadcast. The network, the database server, other tabs and the file system are
parameters or events that may do anything the platform lets them do.

Modules, by component:

- `EventStreamLines`, `EventStreamParser`, `EventStreamFields`,
  `EventStreamStandard`, `EventStreamResume`, `EventStreamReconnect`: line
  splitting, the incremental parser, what lines and fields say, its refinement of section 9.2.6 of the HTML Living Standard, resumption
  over lossy connections, and the retry loop.
- `DraftTabs`, `ContextCommit`: drafts shared by tabs, and the coalescing commit
  loop with its revision counter.
- `TextTree`, `FindMarks`, `FindCasing`, `HistorySelection`: text nodes, find
  marks and their removal, what lower-casing does to marks, and selections
  restored after the text was cut anew.
- `RailLayout`, `RailGroups`, `RailOrder`, `RefreshFlight`: CSS order, the
  grouped rail, the order of its groups, and single-flight refresh.
- `SchemaText`, `SqliteImport`, `ImportSource`, `ImportTransaction`, `ImportRuns`:
  schema text, the generated script, reading the source, the server that runs the
  script, and whole imports.
- `CommandSearch`: the command dialogs' debounced, overlapping searches.
- `Installer`: moving an install aside, in, and back.
- `Options`, `JsText`: an optional value, and JavaScript white space.

## What the proofs found

- A chunk boundary inside a CRLF adds a blank line. It is harmless exactly when
  no record is pending at the CR (`SplitCrlfHarmlessIffRecordEmpty`).
- The standard starts each stream with an empty last event id; the reader starts
  with the id it resumes from. The refinement is stated with that seed.
- A tab's first read of its store replaces what was typed before it
  (`LoadOverwritesTypedText`), and recovering a conflict that is no longer stored
  leaves tabs apart (`RecoveryConvergesIffStored`).
- A snapshot that names nothing the page lists can leave idle controls that do
  not show the applied context (`IdleShowsIff`).
- A stale success can lower the conversation revision once the applied snapshot
  is behind, which takes a read receipt or an unlisted snapshot
  (`RevisionLoweredIff`).
- A character whose lower case is longer misplaces the find marks after it, and a
  final sigma is marked although the mark alone lower-cases otherwise
  (`DottedCapitalMisplacesMark`, `FinalSigmaMarkLowersOtherwise`). No text is
  ever lost (`ReplacementIsLossless`).
- A rail row of the project `_local` stays among the grouped rows, in no group
  (`PaintedRailIsStableGroupingIff`).
- A rail load that finds an active row missing waits for itself and stalls the
  rail (`CallsAreCoveredIffNoRowMissing`).
- A search dialog closed by a command, or whose project is unlisted meanwhile, is
  still painted with the awaited answer (`PaintIsCurrentIff`).
- A dialog opened over another drops the other's search (`OvertakenDialogStays`).
  The pages shipped have one dialog, so this cannot be seen yet.
- Schema text comparison also ignores spaces in quoted defaults
  (`SpaceBesidePunctuationIsLost`).
- If something else takes the install root between the two moves, the old install
  stays in the backup although the error says it was left unchanged (`Install`).

## Model

| member | source | states |
|---|---|---|
| EventStreamLines.SplitAppend | packages/dartclaw_runtime/lib/src/static/sse.js:1 | splitting a longer text resumes exactly from the buffered tail, unless the boundary cuts a CRLF |
| EventStreamLines.SplitRemovesBreaks | packages/dartclaw_runtime/lib/src/static/sse.js:1 | no CR or LF is left in any line or in the buffered tail, so no break is ever missed |
| EventStreamFields.AssembledTextSplits | packages/dartclaw_runtime/lib/src/static/sse.js:1 | a text put together from lines, each ended by CRLF, LF or a lone CR, is split into exactly those lines and its rest |
| EventStreamFields.LinesReadAsFields | packages/dartclaw_runtime/lib/src/static/sse.js:1 | a line is a name, a colon, at most one space dropped, and a value; without a colon it is all name, and with a leading one a comment |
| EventStreamFields.RetryReadsDigits | packages/dartclaw_runtime/lib/src/static/sse.js:1 | a retry value is the decimal number after white space and one sign, whatever follows it |
| EventStreamFields.RetryWithoutDigits | packages/dartclaw_runtime/lib/src/static/sse.js:1 | without a digit there it is ignored |
| EventStreamFields.RecordIsYieldedIff | packages/dartclaw_runtime/lib/src/static/sse.js:1 | a blank line yields one message if and only if the lines since the last gave data, an id without NUL, or a last event name that is not empty, and the message carries that name |
| EventStreamParser.EventReader.Read | packages/dartclaw_runtime/lib/src/static/sse.js:1 | one chunk processed in nested loops over buffer, flags and record leaves the reader where the specification `Feed` leaves it and yields the same messages |
| EventStreamParser.EventReader.ReadAll | packages/dartclaw_runtime/lib/src/static/sse.js:1 | draining a whole body chunk by chunk equals the specification fold over its chunks |
| EventStreamParser.ChunksReadAsBridgedText | packages/dartclaw_runtime/lib/src/static/sse.js:1 | for every chunking, wherever it cuts: messages, buffer, id and record are those of one single text, which is the body with one extra break where a CRLF was cut |
| EventStreamParser.ChunkIndependence | packages/dartclaw_runtime/lib/src/static/sse.js:1 | for every text and every chunking that keeps each CRLF together: messages, leftover buffer, id and pending record equal those of reading the text in one chunk |
| EventStreamParser.SplitCrlfHarmlessIffRecordEmpty | packages/dartclaw_runtime/lib/src/static/sse.js:1 | at one boundary inside a CRLF the reader ends as if uncut if and only if the pending record is untouched at the CR |
| EventStreamParser.SplitCrlfCanTearARecord | packages/dartclaw_runtime/lib/src/static/sse.js:1 | a concrete body whose record is torn in two when a chunk boundary falls inside a CRLF |
| EventStreamStandard.LinesRefineStandard | packages/dartclaw_runtime/lib/src/static/sse.js:1 | for every line sequence, the messages that carry data are the events dispatched by section 9.2.6 of the HTML Living Standard (data, type, last event id), although data is joined with a leading newline and flags |
| EventStreamStandard.ReaderRefinesStandard | packages/dartclaw_runtime/lib/src/static/sse.js:1 | the same refinement for every text and every chunking that keeps each CRLF together |
| EventStreamResume.ConnectionYieldsPrefix | packages/dartclaw_runtime/lib/src/static/sse.js:1 | a connection cut at any character and chunked in any way yields a prefix of the messages it was sent, so nothing of a half-received event, and all of them if it is not cut |
| EventStreamResume.ExactlyOnceResume | packages/dartclaw_runtime/lib/src/static/sse.js:1 | over any number of cut and chunked connections to a server that resumes after Last-Event-ID, the delivered messages are a gap-free, duplicate-free prefix of the log, and the id resumed from is that of the last delivered message |
| EventStreamResume.DeliveredIdsDistinct | packages/dartclaw_runtime/lib/src/static/sse.js:1 | no two delivered messages have the same id |
| EventStreamResume.UncutConnectionCompletes | packages/dartclaw_runtime/lib/src/static/sse.js:1 | whatever happened before, one connection that is not cut delivers the rest of the log |
| EventStreamResume.FrameReadsBack | packages/dartclaw_runtime/lib/src/static/sse.js:1 | an id line, a data line and a blank line are read back as exactly that id and data, so the framing assumed of the server is met by what it writes |
| EventStreamReconnect.Connection.ReadBody | packages/dartclaw_runtime/lib/src/static/sse.js:1 | draining one body updates id, delay and running flag exactly as the specification of taking its messages one by one |
| EventStreamReconnect.Connection.Step | packages/dartclaw_runtime/lib/src/static/sse.js:1 | one pass of the loop (retry gate, wait, fetch, body) is the specification's pass, for every way the pass can fail |
| EventStreamReconnect.Connection.Run | packages/dartclaw_runtime/lib/src/static/sse.js:1 | any number of passes leaves a sound state: fetches within budget and every header current |
| EventStreamReconnect.PassFetchesIff | packages/dartclaw_runtime/lib/src/static/sse.js:1 | a pass fetches, and then once, if and only if a connection was lost, the element is in the page at every test, the request is not vetoed, and either the page came back to the foreground or reconnecting is on with no limit or attempts left |
| EventStreamReconnect.PassRunsIff | packages/dartclaw_runtime/lib/src/static/sse.js:1 | exactly when the loop goes on after a pass, over what the page, the fetch and the body did |
| EventStreamReconnect.UnlimitedLoopKeepsFetching | packages/dartclaw_runtime/lib/src/static/sse.js:1 | with the default of no limit the loop never gives up: undisturbed, every pass after the first fetches again |
| EventStreamReconnect.LimitIsSpentExactly | packages/dartclaw_runtime/lib/src/static/sse.js:1 | with a limit, a connection that does not come back is tried exactly that often |
| EventStreamReconnect.BodyStopsIff | packages/dartclaw_runtime/lib/src/static/sse.js:1 | a body is read to its end unless a message of the close event is let through |
| EventStreamReconnect.BodyIsTakenWhole | packages/dartclaw_runtime/lib/src/static/sse.js:1 | and then every message of it is taken, in order |
| EventStreamReconnect.DelayFollowsRetry | packages/dartclaw_runtime/lib/src/static/sse.js:1 | the delay becomes the retry field of a message with data or an event that was let through, and nothing else changes it |
| EventStreamReconnect.RunsStayWithinBudget | packages/dartclaw_runtime/lib/src/static/sse.js:1 | between two points that are each a successful connection or a return to the foreground the loop issues at most the configured attempts, and right after a return at least one is allowed; every fetch carries exactly the id of the messages taken, or no header |
| EventStreamReconnect.ReconnectOffNeverFetches | packages/dartclaw_runtime/lib/src/static/sse.js:1 | with reconnecting off and no background pause no retry is ever fetched |
| EventStreamReconnect.LoopDeliversExactlyOnce | packages/dartclaw_runtime/lib/src/static/sse.js:1 | the whole loop, failures, pauses and cancelled events included, takes each message of the log once and in order and holds the id of the last one |
| EventStreamReconnect.BackoffGrowsToMaximum | packages/dartclaw_runtime/lib/src/static/sse.js:1 | for non-negative delays the wait before jitter never decreases with the attempt and never exceeds the maximum |
| EventStreamReconnect.BackoffDoubles | packages/dartclaw_runtime/lib/src/static/sse.js:1 | the wait before jitter starts at the configured delay and doubles with each attempt, up to the maximum |
| EventStreamReconnect.WaitMovesWithDraw | packages/dartclaw_runtime/lib/src/static/sse.js:1 | with a jitter of at most one, the wait runs evenly with the draw from one jitter share below the backoff to one above |
| EventStreamReconnect.WaitWithinJitter | packages/dartclaw_runtime/lib/src/static/sse.js:1 | with jitter the wait lies within that share of the backoff on either side and is never negative |
| EventStreamReconnect.RunsWaitWithinMaximum | packages/dartclaw_runtime/lib/src/static/sse.js:1 | over every run, retry fields included, every wait lies between 0 and (1 + jitter) times the maximum |
| DraftTabs.RevisionNamesText | packages/dartclaw_runtime/lib/src/static/controllers/dc_chat_controller.js:2198-2206 | in every reachable state of any number of tabs, two copies of a draft with the same revision id have the same text |
| DraftTabs.AcknowledgementLosesNothing | packages/dartclaw_runtime/lib/src/static/controllers/dc_chat_controller.js:2359-2376 | an acknowledgement clears the composer only if its text is exactly the submitted text; otherwise the text stays and is saved |
| DraftTabs.TypedTextSurvives | packages/dartclaw_runtime/lib/src/static/controllers/dc_chat_controller.js:2359-2376 | text typed while a submission is in flight outlives every following save, announcement and acknowledgement |
| DraftTabs.AnnouncementsSpareTouchedDrafts | packages/dartclaw_runtime/lib/src/static/controllers/dc_chat_controller.js:2315-2330 | no event of another tab and no announcement ever replaces the text of a touched tab |
| DraftTabs.LoadReplacesTypedText | packages/dartclaw_runtime/lib/src/static/controllers/dc_chat_controller.js:2211-2285 | before its storage has been read, a tab's typed text survives the first read if and only if the store is empty or holds the same text |
| DraftTabs.LoadOverwritesTypedText | packages/dartclaw_runtime/lib/src/static/controllers/dc_chat_controller.js:2211-2285 | the run that loses it, from every state with a draft in the store: a tab opens, text is typed, and the first read replaces it |
| DraftTabs.OneSavedIsStored | packages/dartclaw_runtime/lib/src/static/controllers/dc_chat_controller.js:2287-2309 | a run that reaches such a state: a tab opens, loads, is typed in and saves |
| DraftTabs.TabsConverge | packages/dartclaw_runtime/lib/src/static/controllers/dc_chat_controller.js:2287-2357 | once every save and announcement has been processed, each loaded untouched tab whose own last save did not fail shows exactly the stored revision; over runs in which tabs close with nothing left to announce and a conflict is recovered only while it is still what is stored |
| DraftTabs.FailedAcknowledgementDiverges | packages/dartclaw_runtime/lib/src/static/controllers/dc_chat_controller.js:2359-2376 | why failed saves are excepted: an acknowledgement whose save fails leaves an untouched, empty tab over an older stored draft |
| DraftTabs.RecoveryConvergesIffStored | packages/dartclaw_runtime/lib/src/static/controllers/dc_chat_controller.js:2332-2340 | recovering a conflicting draft keeps quiet tabs converged if and only if the recovered revision is still the stored one |
| DraftTabs.StaleRecoveryDiverges | packages/dartclaw_runtime/lib/src/static/controllers/dc_chat_controller.js:2332-2340 | a concrete run in which a stale recovery leaves a quiet tab showing a draft that is not stored |
| DraftTabs.TypedRevisionIsUnique | packages/dartclaw_runtime/lib/src/static/controllers/dc_chat_controller.js:849-861 | after typing, no other copy of a draft anywhere has the tab's revision: not the store, not another tab, and not a submission under way |
| DraftTabs.TakenDraftIsStable | packages/dartclaw_runtime/lib/src/static/controllers/dc_chat_controller.js:2342-2357 | a composer that has taken the stored draft is the stored draft, and no announcement changes it while the store stays |
| DraftTabs.ChatDraft.InitializeDraftStorage | packages/dartclaw_runtime/lib/src/static/controllers/dc_chat_controller.js:2211-2285 | the first read of the store takes the stored draft, if there is one |
| DraftTabs.ChatDraft.SaveDraftNow | packages/dartclaw_runtime/lib/src/static/controllers/dc_chat_controller.js:2287-2309 | a save stores the current text under its revision exactly if the storage is open and accepts it, and reports the draft unsaved otherwise; the composer itself stays |
| DraftTabs.ChatDraft.ReceiveDraftUpdate | packages/dartclaw_runtime/lib/src/static/controllers/dc_chat_controller.js:2315-2330 | a delivered announcement is applied, ignored or kept as a conflict, according to revision and touched mark |
| DraftTabs.ChatDraft.RecoverConflictingDraft | packages/dartclaw_runtime/lib/src/static/controllers/dc_chat_controller.js:2332-2340 | recovery applies the conflicting draft and drops the conflict |
| DraftTabs.SubmittedTextIsCleared | packages/dartclaw_runtime/lib/src/static/controllers/dc_chat_controller.js:948-965 | what a submission captures is what its acknowledgement clears: at once the composer empties, but text typed in between stays with its revision |
| DraftTabs.ChatDraft.AcknowledgeSubmittedDraft | packages/dartclaw_runtime/lib/src/static/controllers/dc_chat_controller.js:2359-2376 | the acknowledgement clears or keeps the composer as the protocol's step does |
| ContextCommit.RunsCommitInOrder | packages/dartclaw_runtime/lib/src/static/controllers/dc_chat_controller.js:521-535 | over every run at most one commit is in flight, and each PATCH states the controls as the latest request left them, but for a directory that was refused |
| ContextCommit.PatchIsBuiltWhenSent | packages/dartclaw_runtime/lib/src/static/controllers/dc_chat_controller.js:545-562 | each PATCH carries the revision held when it leaves, and the applied directory in place of a refused one |
| ContextCommit.PatchSaysControls | packages/dartclaw_runtime/lib/src/static/controllers/dc_chat_controller.js:545-562 | each PATCH carries the project unless none is chosen, the provider, and model and effort without the white space around them, or nothing for a blank one |
| ContextCommit.RequestsAreHeard | packages/dartclaw_runtime/lib/src/static/controllers/dc_chat_controller.js:521-535 | a pick or an entry changes its own controls, is logged as asked for, and waits if a commit is in flight |
| ContextCommit.EveryRequestIsCovered | packages/dartclaw_runtime/lib/src/static/controllers/dc_chat_controller.js:521-535 | when nothing is in flight, every commit request was followed by a PATCH built after it or dropped by a refusal |
| ContextCommit.IdleControlsShowApplied | packages/dartclaw_runtime/lib/src/static/controllers/dc_chat_controller.js:545-617 | over every run whose snapshots name listed projects and providers: with nothing in flight the selects show the applied snapshot, and Directory does too unless it is marked rejected |
| ContextCommit.IdleControlsSpelledOut | packages/dartclaw_runtime/lib/src/static/controllers/dc_chat_controller.js:676-679 | there, project and provider equal the applied ones, and the model and effort pickers each show their applied value if they offer it and nothing if not |
| ContextCommit.DirectoryMarkedIff | packages/dartclaw_runtime/lib/src/static/controllers/dc_chat_controller.js:600-617 | Directory is marked by a refusal that finds it different from the applied one, unmarked by a success or an entry, and otherwise left alone |
| ContextCommit.IdleShowsIff | packages/dartclaw_runtime/lib/src/static/controllers/dc_chat_controller.js:545-704 | for any snapshots, exactly when a step that leaves nothing in flight leaves the controls showing the applied context: an unlisted snapshot is shown only by controls that agree already |
| ContextCommit.UnlistedAnswerStaysUnshown | packages/dartclaw_runtime/lib/src/static/controllers/dc_chat_controller.js:657-704 | the run in which that fails, for every picked context and accepted answer the page does not list: idle, and not showing what is applied |
| ContextCommit.UnlistedRefreshStaysUnshown | packages/dartclaw_runtime/lib/src/static/controllers/dc_chat_controller.js:1805-1812 | the other one: an unlisted refresh lands while a commit is in flight, and the refusal cannot restore it |
| ContextCommit.RevisionFollowsApplied | packages/dartclaw_runtime/lib/src/static/controllers/dc_chat_controller.js:576-583 | over every run of listed snapshots without read receipts the revision is the applied snapshot's |
| ContextCommit.RevisionNeverDecreases | packages/dartclaw_runtime/lib/src/static/controllers/dc_chat_controller.js:1805-1812 | over refreshes and successful, stale or refused commits arriving in any order, with listed snapshots and no read receipts, the revision never decreases |
| ContextCommit.RevisionLoweredIff | packages/dartclaw_runtime/lib/src/static/controllers/dc_chat_controller.js:612-616 | for any snapshots and receipts, a step lowers the revision if and only if it is a receipt that reports less, or a stale success taken back to an applied snapshot already behind; a refusal or a refresh never lowers it |
| ContextCommit.ContextController.ApplyContext | packages/dartclaw_runtime/lib/src/static/controllers/dc_chat_controller.js:521-535 | a request sends a PATCH of the current controls, or is queued behind the one in flight |
| ContextCommit.ContextController.ReconcileContext | packages/dartclaw_runtime/lib/src/static/controllers/dc_chat_controller.js:657-704 | reconciling shows a listed snapshot in every control but a rejected directory, and ignores an unlisted one |
| ContextCommit.ContextController.CommitSucceeded | packages/dartclaw_runtime/lib/src/static/controllers/dc_chat_controller.js:571-590 | a success adopts the newer of answer and applied snapshot and releases the queued commit, if any |
| ContextCommit.ContextController.RejectContext | packages/dartclaw_runtime/lib/src/static/controllers/dc_chat_controller.js:600-617 | a refusal restores the selects, marks a differing directory, keeps the higher revision and drops the queue |
| ContextCommit.ContextController.RefreshConversationState | packages/dartclaw_runtime/lib/src/static/controllers/dc_chat_controller.js:1805-1812 | a refresh older than the revision is ignored; a newer one is applied, or only remembered while a commit is in flight |
| ContextCommit.StaleSuccessAfterReceiptLowers | packages/dartclaw_runtime/lib/src/static/controllers/dc_chat_controller.js:829-838 | a run in which a receipt runs ahead of the applied snapshot and a stale success takes the revision back to it |
| ContextCommit.StaleSuccessAfterUnlistedRefreshLowers | packages/dartclaw_runtime/lib/src/static/controllers/dc_chat_controller.js:1805-1812 | the same after a refresh naming what the page does not list, which moves the revision and nothing else |
| FindMarks.MarkTextNode | packages/dartclaw_runtime/lib/src/static/controllers/dc_chat_controller.js:2067-2086 | the cursor loop's fragment and mark count are those of the recursive marking, for any lower-casing, even one that changes the length |
| FindMarks.ReplacementIsLossless | packages/dartclaw_runtime/lib/src/static/controllers/dc_chat_controller.js:2067-2086 | the pieces that replace a text node concatenate to its text, whatever lower-casing did |
| FindMarks.MarksAreHits | packages/dartclaw_runtime/lib/src/static/controllers/dc_chat_controller.js:2067-2086 | where lower-casing goes character by character, every mark lowers to exactly the needle |
| FindCasing.MarksArePlacedIff | packages/dartclaw_runtime/lib/src/static/controllers/dc_chat_controller.js:2067-2086 | for lower-casing as the browser does it, every mark stands on the characters whose lower case was found if and only if no character before the mark's end becomes more than one |
| FindCasing.MarkLowersToNeedleIff | packages/dartclaw_runtime/lib/src/static/controllers/dc_chat_controller.js:2067-2086 | such a mark lower-cased by itself is the needle if and only if each of its capital sigmas ends a word in the mark exactly when it does in the text |
| FindCasing.DottedCapitalMisplacesMark | packages/dartclaw_runtime/lib/src/static/controllers/dc_chat_controller.js:2067-2086 | a capital I with a dot before the hit: the mark is cut behind the text and is empty |
| FindCasing.FinalSigmaMarkLowersOtherwise | packages/dartclaw_runtime/lib/src/static/controllers/dc_chat_controller.js:2067-2086 | a final sigma, at equal length: the mark by itself lower-cases to the other small sigma |
| FindMarks.MarkingIsMaximal | packages/dartclaw_runtime/lib/src/static/controllers/dc_chat_controller.js:2067-2086 | the number of marks is the largest number of pairwise disjoint occurrences: none has more, and some has as many |
| FindMarks.GreedyIsMaximal | packages/dartclaw_runtime/lib/src/static/controllers/dc_chat_controller.js:2067-2086 | from any cursor on, no set of disjoint occurrences is larger than the number of marks |
| FindMarks.IndexFromIsFirst | packages/dartclaw_runtime/lib/src/static/controllers/dc_chat_controller.js:2067-2086 | the search returns the first occurrence at or after the cursor |
| FindMarks.ClearFindMarks | packages/dartclaw_runtime/lib/src/static/controllers/dc_chat_controller.js:2039-2046 | unwrapping mark after mark, with a normalize of each parent, ends with no mark left and the text underneath |
| FindMarks.ClearingRestores | packages/dartclaw_runtime/lib/src/static/controllers/dc_chat_controller.js:2039-2046 | marking a normalised transcript and clearing the marks gives back the same tree of text nodes, for every needle and any lower-casing |
| FindMarks.MarkAllKeepsContent | packages/dartclaw_runtime/lib/src/static/controllers/dc_chat_controller.js:2051-2065 | marking a whole transcript changes where its text is cut, never the text |
| FindMarks.AllHitsAreMarked | packages/dartclaw_runtime/lib/src/static/controllers/dc_chat_controller.js:2051-2065 | the marks of a transcript grow by exactly the hits, as many as fit, of its text nodes outside code blocks |
| HistorySelection.FindPosition | packages/dartclaw_runtime/lib/src/static/controllers/dc_chat_controller.js:1388-1401 | the walk with a running offset stops in the node that holds the captured offset, at an offset inside it |
| HistorySelection.RestoreSelection | packages/dartclaw_runtime/lib/src/static/controllers/dc_chat_controller.js:1375-1405 | both ends of a captured selection are found in the text as it is cut now, or nothing if there is no text node |
| HistorySelection.CapturedIsTextBefore | packages/dartclaw_runtime/lib/src/static/controllers/dc_chat_controller.js:1362-1372 | a captured offset counts exactly the text before its place, and the next character is the one there |
| HistorySelection.PlaceExists | packages/dartclaw_runtime/lib/src/static/controllers/dc_chat_controller.js:1388-1401 | every captured offset has a place in every cutting of the text, and the walk can find only one |
| HistorySelection.SelectionSurvivesResplitting | packages/dartclaw_runtime/lib/src/static/controllers/dc_chat_controller.js:1362-1401 | captured on one cutting of a text and restored on any other, a selection has the same absolute start and end, in order, each inside its node |
| HistorySelection.SelectionSurvivesMarking | packages/dartclaw_runtime/lib/src/static/controllers/dc_chat_controller.js:1362-1401 | in particular when find marks are added between capture and restore |
| RailLayout.LayoutByOrder | packages/dartclaw_runtime/lib/src/static/controllers/dc_shell_controller.js:979-985 | laying boxes out by a stable sort on `order` is listing each order's boxes in document position, order after order |
| RailGroups.ArrangedInRecencyOrder | packages/dartclaw_runtime/lib/src/static/controllers/dc_shell_controller.js:894-900 | inserting the rows before the settled section one by one leaves them last in the list, in the server's recency order |
| RailGroups.StatusGroupIsMostUrgent | packages/dartclaw_runtime/lib/src/static/controllers/dc_shell_controller.js:713-717 | a row's group is that of the most urgent state it carries, and the last group if it carries none of them |
| RailGroups.GroupKeysAreThePresentOnes | packages/dartclaw_runtime/lib/src/static/controllers/dc_shell_controller.js:1007-1009 | each group is drawn once, and exactly the groups that some visible row belongs to |
| RailGroups.AtMostFiveStatusGroups | packages/dartclaw_runtime/lib/src/static/controllers/dc_shell_controller.js:45 | there are at most five status groups, so every slot stays below the settled section's order |
| RailGroups.PlaceRows | packages/dartclaw_runtime/lib/src/static/controllers/dc_shell_controller.js:1026-1031 | the rows of a bucket that exist get its slot, and are hidden exactly when the group is collapsed |
| RailGroups.FillBuckets | packages/dartclaw_runtime/lib/src/static/controllers/dc_shell_controller.js:998-1006 | the map of buckets holds, for each key in order of first appearance, the visible rows of that key in order |
| RailGroups.RenderInboxGroups | packages/dartclaw_runtime/lib/src/static/controllers/dc_shell_controller.js:987-1033 | headers, row orders and hidden rows set by the slot counter are those of the specification |
| RailGroups.GroupedRailIsStableGrouping | packages/dartclaw_runtime/lib/src/static/controllers/dc_shell_controller.js:987-1033 | by (`order`, document position) the list reads as each non-empty status group in group order, header first and rows in recency order, then the settled section |
| RailGroups.PaintedRailIsStableGroupingIff | packages/dartclaw_runtime/lib/src/static/controllers/dc_shell_controller.js:839-900 | from server rows and inbox entries to the screen: after arranging, moving project rows, ordering and folding, the rail reads as that stable grouping of its visible general rows, and the settled section last, if and only if no row in view belongs to the project `_local`, which has no section and no group |
| RailGroups.EachRowIsReadOnce | packages/dartclaw_runtime/lib/src/static/controllers/dc_shell_controller.js:987-1033 | in that grouping every visible general row is read exactly once, or not at all if its group is collapsed |
| RailOrder.MoreUrgentGroupComesFirst | packages/dartclaw_runtime/lib/src/static/controllers/dc_shell_controller.js:1007-1009 | for any two general chats in view of different urgency, waiting before running, failed, unread and done, the laid-out rail has the header of each one's group, the more urgent first |
| RailOrder.HeadersCountTheirGroups | packages/dartclaw_runtime/lib/src/static/controllers/dc_shell_controller.js:1011-1025 | every header in the laid-out rail names a group with its number of general chats in view, never none, and is expanded unless collapsed |
| RailOrder.ProjectsComeInOrder | packages/dartclaw_runtime/lib/src/static/controllers/dc_shell_controller.js:998-1009 | grouped by project, the groups are the projects of the rows, in order of their first rows |
| RefreshFlight.AtMostOneLoad | packages/dartclaw_runtime/lib/src/static/controllers/dc_shell_controller.js:628-645 | in every interleaving of calls, completions and resuming callers at most one unpaged load is in progress |
| RefreshFlight.CallsAreOwedALoad | packages/dartclaw_runtime/lib/src/static/controllers/dc_shell_controller.js:628-645 | a call not yet followed by a load has raised the flag, and a load or a resuming caller that will look at it is outstanding |
| RefreshFlight.QuietRunsAreShort | packages/dartclaw_runtime/lib/src/static/controllers/dc_shell_controller.js:1401-1418 | once calls stop, the number of remaining steps is bounded |
| RefreshFlight.OneMoreLoadAtMost | packages/dartclaw_runtime/lib/src/static/controllers/dc_shell_controller.js:1401-1418 | once calls stop, at most one more load starts, and none if the flag was down |
| RefreshFlight.Drain | packages/dartclaw_runtime/lib/src/static/controllers/dc_shell_controller.js:628-645 | left alone the system comes to rest: a run without calls that ends with nothing enabled, from every state |
| RefreshFlight.RestIsIdleIffNoRowMissing | packages/dartclaw_runtime/lib/src/static/controllers/dc_shell_controller.js:628-645 | when no more step is possible, nothing is in progress if and only if no load found an active row missing; then nothing is queued and every call was followed by a load that started no earlier, unless the page lost the rail |
| RefreshFlight.CallsAreCoveredIffNoRowMissing | packages/dartclaw_runtime/lib/src/static/controllers/dc_shell_controller.js:628-645 | while the page holds the rail, at rest every call was followed by such a load if and only if no load found an active row missing |
| RefreshFlight.StuckIffRowMissing | packages/dartclaw_runtime/lib/src/static/controllers/dc_shell_controller.js:672-675 | a load waits for itself exactly if one has found an active row missing |
| RefreshFlight.StuckStartsNothing | packages/dartclaw_runtime/lib/src/static/controllers/dc_shell_controller.js:672-675 | after a load has found an active row missing, no load ever starts again, whatever calls follow |
| RefreshFlight.StuckNeverCovers | packages/dartclaw_runtime/lib/src/static/controllers/dc_shell_controller.js:672-675 | and a call not yet covered then stays so, as long as the page holds the rail |
| RefreshFlight.ARowMissingStallsTheRail | packages/dartclaw_runtime/lib/src/static/controllers/dc_shell_controller.js:672-675 | a concrete run of three steps that ends stalled with an uncovered call |
| RefreshFlight.StepsFollowTheFields | packages/dartclaw_runtime/lib/src/static/controllers/dc_shell_controller.js:628-645 | a step of the system changes the two fields as the script's methods do, and starts a load exactly when they say so |
| RefreshFlight.Refresher.Refresh | packages/dartclaw_runtime/lib/src/static/controllers/dc_shell_controller.js:628-642 | a call starts a load when there is none, raises the flag when there is one, and does neither without the rail |
| RefreshFlight.Refresher.AfterFlight | packages/dartclaw_runtime/lib/src/static/controllers/dc_shell_controller.js:641-644 | the caller that started the load consumes the flag and calls again if it was up |
| SchemaText.NormalizingKeepsTokens | dev/tools/migrate_sqlite_to_postgres.py:63-64 | normalising changes whitespace only: the tokens of the text stay |
| SchemaText.NormalizedIsCanonical | dev/tools/migrate_sqlite_to_postgres.py:63-64 | the result has single spaces only, none beside punctuation and none at the ends |
| SchemaText.NormalFormIsRenderedTokens | dev/tools/migrate_sqlite_to_postgres.py:63-64 | the three passes produce exactly the tokens of the text with one space between adjacent words |
| SchemaText.NormalizeIsIdempotent | dev/tools/migrate_sqlite_to_postgres.py:63-64 | normalising twice is normalising once, also for an absent value |
| SchemaText.NormalFormIsCanonical | dev/tools/migrate_sqlite_to_postgres.py:63-64 | two texts normalise alike if and only if they are the same tokens under whitespace of any length and kind, required between two words and optional beside `( ) , ; =` and at the ends |
| SchemaText.SpaceBesidePunctuationIsLost | dev/tools/migrate_sqlite_to_postgres.py:63-64 | the comparison does not spare quoted text: a space before punctuation is lost wherever it stands |
| SchemaText.SpaceIsLostIff | dev/tools/migrate_sqlite_to_postgres.py:63-64 | a space between two other characters can go, anywhere in a text, if and only if one of them is `(`, `)`, `,`, `;` or `=` |
| SchemaText.WhiteSpaceIsASpace | dev/tools/migrate_sqlite_to_postgres.py:63-64 | every white space character counts as a space |
| SqliteImport.ReadRow | dev/tools/migrate_sqlite_to_postgres.py:138-150 | a row is accepted if and only if every value fits its column and has no NUL, and its payload is then exactly its columns and values |
| SqliteImport.ReadTable | dev/tools/migrate_sqlite_to_postgres.py:137-151 | a table is accepted if and only if all its rows are, each payload in its row's place |
| SqliteImport.ValuesThatFit | dev/tools/migrate_sqlite_to_postgres.py:141-148 | which kinds of value fit which kinds of column, case by case |
| SqliteImport.BuildLines | dev/tools/migrate_sqlite_to_postgres.py:245-253 | the payload lines list every row of every table in manifest order, with its ordinal |
| SqliteImport.LineAt | dev/tools/migrate_sqlite_to_postgres.py:245-253 | the k-th line of a table is its k-th row under the ordinal k |
| SqliteImport.BuildScript | dev/tools/migrate_sqlite_to_postgres.py:269-392 | the statements are, in order: guards, emptiness checks, staging, inserts, the injected fault, verification, links, identity, commit; refused if and only if the next identity would not fit |
| ImportTransaction.EveryRowIsStaged | dev/tools/migrate_sqlite_to_postgres.py:245-253 | under each table's name at least its rows are staged, exactly those if no table is listed twice, and none for other names |
| ImportTransaction.ChecksVerify | dev/tools/migrate_sqlite_to_postgres.py:344-361 | passing the count and the two EXCEPT ALL checks changes nothing and means every table equals its staged bag; an obliging server passes them whenever that holds |
| ImportTransaction.VerifiedIsExact | dev/tools/migrate_sqlite_to_postgres.py:344-361 | a verified table equals its source table as a bag |
| ImportTransaction.LargestIsLargest | dev/tools/migrate_sqlite_to_postgres.py:381-384 | no fact id exceeds the one the identity is restarted past |
| ImportTransaction.ImportIsAllOrNothing | dev/tools/migrate_sqlite_to_postgres.py:269-392 | every run, whichever statement fails and whatever changes rows between insert and verification, leaves the target unchanged or commits each copied table equal as a bag to its source, links intact, and the identity past every id within 2^63-1 |
| ImportRuns.SourceChecksDecideTargetChecks | dev/tools/migrate_sqlite_to_postgres.py:167-182 | once the tables are as read, the relationship check on the target passes if and only if the one on the source did |
| ImportRuns.CleanImportCommitsIff | dev/tools/migrate_sqlite_to_postgres.py:269-392 | on an empty target where nothing fails, the import commits if and only if the source's relationships hold and its largest fact id can be advanced to a legal identity |
| ImportRuns.OccupiedTargetIsRefused | dev/tools/migrate_sqlite_to_postgres.py:297-301 | a target with any row in a checked table is refused and unchanged, whatever the server does |
| ImportRuns.SecondImportIsRefused | dev/tools/migrate_sqlite_to_postgres.py:297-301 | an import that copied any row can be neither repeated nor added to |
| ImportRuns.UnmetConditionIsRefused | dev/tools/migrate_sqlite_to_postgres.py:278-296 | the server's version, a running DartClaw, locked tables and the schema are asked about in this order, and the first that does not hold refuses the import, unchanged |
| ImportRuns.FaultAfterWritesNeverCommits | dev/tools/migrate_sqlite_to_postgres.py:336-337 | the injected fault after the writes always rolls them back |
| ImportSource.LinksHoldIffNoOrphans | dev/tools/migrate_sqlite_to_postgres.py:167-182 | the relationship checks reject exactly the snapshots in which some row of goals, tasks, workflow_step_executions, task_events or turns refers to an id no parent row has; a null reference is an orphan for steps and events only |
| ImportSource.ReadSource | dev/tools/migrate_sqlite_to_postgres.py:81-164 | which source is read, and why one is refused, over its rows: not sound, a value that does not fit, or an orphan row, in that order and in no other case |
| ImportRuns.Import | dev/tools/migrate_sqlite_to_postgres.py:439-456 | the command reports success only for a source that can be imported, and then the target holds exactly its rows; it does so for every such source if nothing on the other side is against it; a refusal leaves the target as it was unless the connection was lost after the commit took effect |
| CommandSearch.PaintsAnswerWhatWasAsked | packages/dartclaw_runtime/lib/src/static/controllers/dc_conversation_command_controller.js:197-279 | over every interleaving of typing, timers, filters, opening, closing in any way, project reloads and answers in any order, each paint is of the dialog that took the newest generation and answers what was asked under it: the query and lifecycle the dialog has, and its project unless that is no longer listed |
| CommandSearch.PaintIsCurrentIff | packages/dartclaw_runtime/lib/src/static/controllers/dc_conversation_command_controller.js:217-279 | an answer painted under the generation of a refresh answers query, lifecycle and project of an open dialog at that moment if and only if since the refresh the dialog was not closed in place and the project asked about was not unlisted |
| CommandSearch.RefreshSendsFields | packages/dartclaw_runtime/lib/src/static/controllers/dc_conversation_command_controller.js:217-257 | the request a refresh sends, over the dialog's fields: commands for a slash or a blank query in the global dialog, nothing for a blank one elsewhere, and otherwise the query, the chosen lifecycle or `all`, and the chosen project unless that is every chat |
| CommandSearch.EventsSetFields | packages/dartclaw_runtime/lib/src/static/controllers/dc_conversation_command_controller.js:81-95 | each event sets its own field of the dialog it names, and no other |
| CommandSearch.TypedTextIsSearched | packages/dartclaw_runtime/lib/src/static/controllers/dc_conversation_command_controller.js:172-181 | typed text is searched: the timer it starts can fire and refreshes the dialog with that text |
| CommandSearch.ClosedDialogIsPainted | packages/dartclaw_runtime/lib/src/static/controllers/dc_conversation_command_controller.js:469-478 | the run that fails by closing, on every page with something to ask: opened, closed by a command sent to the provider, and painted all the same |
| CommandSearch.UnlistedProjectIsPainted | packages/dartclaw_runtime/lib/src/static/controllers/dc_shell_controller.js:603-620 | the run that fails by reloading: opened, its project unlisted, and painted with the list of that project |
| CommandSearch.SearchPageAsks | packages/dartclaw_runtime/lib/src/static/controllers/dc_conversation_command_controller.js:243-256 | a page both runs exist on |
| CommandSearch.SettledDialogAnswersIff | packages/dartclaw_runtime/lib/src/static/controllers/dc_conversation_command_controller.js:167-181 | once nothing is awaited, the dialog that refreshed last, if still open, shows the answer to its fields if and only if the project asked about is still listed, unless that answer was one that paints nothing |
| CommandSearch.LostNeedsABadAnswer | packages/dartclaw_runtime/lib/src/static/controllers/dc_conversation_command_controller.js:258-278 | and an answer paints nothing only if it failed or carried another token |
| CommandSearch.OvertakenDialogStays | packages/dartclaw_runtime/lib/src/static/controllers/dc_conversation_command_controller.js:210-215 | after another dialog has acted, a dialog left alone is never repainted: at rest it shows the answer to its fields if and only if it did when it was overtaken |
| CommandSearch.SecondDialogDropsTheFirstsSearch | packages/dartclaw_runtime/lib/src/static/controllers/dc_conversation_command_controller.js:197-208 | whenever one dialog opens over another that has a query, the first one's search is dropped |
| CommandSearch.DroppedSearchNeverShows | packages/dartclaw_runtime/lib/src/static/controllers/dc_conversation_command_controller.js:197-208 | and however the run goes on, it never shows its answer until it acts itself |
| CommandSearch.CommandController.RefreshDialog | packages/dartclaw_runtime/lib/src/static/controllers/dc_conversation_command_controller.js:217-241 | a refresh of a closed dialog or an old generation does nothing; otherwise it clears the list or sends the request its fields ask for |
| CommandSearch.CommandController.HandleQueryInput | packages/dartclaw_runtime/lib/src/static/controllers/dc_conversation_command_controller.js:172-181 | typing restarts the timer under a fresh generation |
| CommandSearch.CommandController.TimerFires | packages/dartclaw_runtime/lib/src/static/controllers/dc_conversation_command_controller.js:176-179 | the timer refreshes with the generation it was set for |
| CommandSearch.CommandController.OpenDialog | packages/dartclaw_runtime/lib/src/static/controllers/dc_conversation_command_controller.js:197-208 | opening takes a fresh generation and refreshes |
| CommandSearch.CommandController.CloseDialog | packages/dartclaw_runtime/lib/src/static/controllers/dc_conversation_command_controller.js:210-215 | closing takes a fresh generation, so that nothing awaited is painted; closing a closed dialog does nothing |
| CommandSearch.CommandController.SearchAnswered | packages/dartclaw_runtime/lib/src/static/controllers/dc_conversation_command_controller.js:243-279 | an answer of an old generation changes nothing; a current one paints its list, or empties it on failure |
| Installer.MoveCarriesTree | install.ps1:98-105 | a directory move puts the whole tree of its source at its destination |
| Installer.MoveAside | install.ps1:176-179 | the previous install is moved to the backup, or stays whole when that move fails |
| Installer.MoveIn | install.ps1:180 | the new tree is at the target, unless the move fails or something else took the target, and the backup stays whole in either case |
| Installer.Restore | install.ps1:181-192 | the rollback runs exactly when a backup exists and the target is free, and then restores the old tree or leaves it in the backup |
| Installer.Activate | install.ps1:173-192 | exactly which failures end in activation, in a restored install, or in the old tree left in the backup |
| Installer.Install | install.ps1:135-219 | at every step the previous tree is whole at the target or the backup until the new tree is at the target, and nothing outside target, backup and working directory changes; every outcome is characterised by what failed, and cleaning up removes neither tree |

## Left out

- `EventStreamParser.SplitCrlfHarmlessIffRecordEmpty`: is stated for one boundary, at the state the reader has there; over many cut CRLFs the exact result is `ChunksReadAsBridgedText`.
- UTF-8 decoding of the stream: the model starts from decoded characters, and treats UTF-16 code units as characters.
- Rounding of very long `retry` numbers by JavaScript doubles; the delay is a real number.
- `RailGroups`: the `none` grouping, which only clears orders; labels and the project grouping's header text.
- `RefreshFlight`: paged loads, which never share a flight, and a failing sidebar refetch, after which the load ends like any other.
- `DraftTabs`: attachments and references of a draft, temporary conversations whose drafts live in memory, the move of a provisional draft to its session, edits between opening the store and its first read, and closing a tab before its save is announced.
- `ContextCommit`: `confirmMove`, which sends a commit outside the loop behind a modal dialog, and the submission's own revision updates.
- `FindMarks`: the server-side stops and the count shown beside the field.
- `FindCasing`: characters outside the basic plane, which a browser counts as two.
- `HistorySelection`: the anchor message and scroll position kept with a selection.
- `CommandSearch`: a conversation change under an open dialog, the slash palette, and the status line.
- `SqliteImport`: base64 and JSON encoding of a payload, SQL text, the schema checks against `information_schema`, hashing and opening the snapshot, which are conditions that hold or not.
- `ImportTransaction`: `SET CONSTRAINTS ALL IMMEDIATE`, a statement that like any other may fail, and concurrent sessions, which the exclusive locks keep away from the checked tables.
- `Installer`: creation of the parent directory, architecture and version checks made before anything is written, and the PATH value itself.
- `_startTurnStatusPolling`: a timer that polls until a turn ends; it would add only easy members.
- `showToast` overflow handling: no bound is claimed for its loop.
