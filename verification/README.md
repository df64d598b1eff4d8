# Verified models of LittleBaby's state machines and text algorithms

This project models, in Dafny 4.11, the parts of LittleBaby whose behaviour is decided by state and by text: the
patch engine, the ACP session store and gateway agent, the process output buffers, the message aggregator and tool
name allocation of the Feishu service, the two streaming parsers, and the shell splitter. `dafny verify
dfyconfig.toml` checks all of it.

Where the source works step by step the model has a class or a method with the same fields and loops. Its `ensures`
ties the new state, or the result, to a function; what the source promises is then proved about that function, over
all inputs or over all runs of steps. Beside the functions stand definitions that do not use them, of matches, formats,
quoting rules, frames and histories of events, and the theorems say that the two agree.

| file | models |
|---|---|
| `PatchUpdate.dfy` | locating and applying the chunks of an update, `src/agents/apply-patch-update.ts` |
| `ChunkSearch.dfy` | what locating means, in terms of matching lines alone |
| `PatchParser.dfy` | the parser of the patch format, `src/agents/apply-patch.ts` |
| `PatchFormat.dfy` | that format as a relation between lines and hunks, and its errors, without reading |
| `PatchPrinter.dfy` | a printed form of the format, and its round trip |
| `GatewayRuns.dfy` | disconnects, deadlines and reconciliation of `src/acp/translator.ts`, all interleavings |
| `GatewayVerdicts.dfy` | what its steps come to, told by the events of the run alone |
| `GatewayAgent.dfy` | the agent class itself, its methods cut at their awaits |
| `DeltaStream.dfy` | snapshot-to-delta streaming of `src/acp/translator.ts` |
| `SessionStore.dfy` | the session store, `src/acp/session.ts` |
| `ProcessRegistry.dfy` | pending and aggregated process output, `src/agents/bash-process-registry.ts` |
| `MessageAggregator.dfy`, `ToolNames.dfy` | batching per sender and tool names, `src/feishu-service.ts` |
| `SseBody.dfy` | the event-stream body parser, `src/agents/anthropic-transport-stream.ts` |
| `SseFrames.dfy` | frames with all kinds of lines, and what the parser makes of them |
| `CliStream.dfy` | the JSONL streaming parser, `src/agents/cli-output.ts` |
| `ShellSplitter.dfy` | the quote-aware splitter, `src/agents/bash-tools.exec.ts` |
| `ShellQuoting.dfy` | its rules of quoting, by what a text begins with |
| `Text.dfy`, `Collections.dfy` | string operations and facts shared by the above |

## Where the code does not do what one would expect

Each of these is a proved statement, with the condition under which the code does.

- A reconciliation that works off a deadline clears the timer at its end even when a prompt admitted meanwhile has
  armed it anew: that prompt keeps the live stamp and no deadline comes for it (`PromptCanMissDeadline`). A deadline
  comes to every stamped prompt, however the replies fall, exactly when no prompt is admitted while a deadline of the
  live disconnect is being worked off (`DeadlineComesIff` for one prompt, `DeadlinesComeIff` for whole runs); and a
  deadline never leaves behind a prompt that was pending when it fired (`DeadlineLeavesNone`).
- A failed send takes whatever prompt its session has pending, also that of a newer run, which is then neither
  finished nor rejected (`NewerPromptCanBeLost`). It leaves the prompts of other runs alone exactly when its session
  has none of these pending (`SendFailedSparesOthersIff`).
- An end-of-file chunk searches at the end of the file whatever was located before, and a chunk without old lines
  goes before a blank last line; both can overlap another chunk, and then inserted text is deleted again
  (`EofChunkCanRewind`, `InsertBeforeBlankCanBeLost`). The replacements are disjoint, and the edit the single pass,
  exactly when every end-of-file chunk is found at or behind the end of what chunks with old lines replaced or put in
  before it, and text goes before a blank last line only if no earlier chunk replaces that line and no later one
  replaces it together with the line before (`GuardedChunksMeaning`).
- An update that leaves all lines alone keeps a file's text exactly when the file is empty or ends in one line feed
  behind a line that is not blank (`UnchangedLinesKeepTextIff`): of several line feeds at the end one is lost.
- An idle session whose id is the empty string is taken for none when a session is to be evicted, so a create can
  fail although there is an idle session (`EmptyIdBlocksEviction`, `CreateFailsIff`).
- A tool name is cut to 64 characters after underscores were stripped, so a name can end in one and sanitizing twice
  then differs from sanitizing once, exactly when the stripped name is longer and its 64th character is an underscore
  (`SanitizeTwice`, and `SanitizeTwiceCanDiffer` for such a name).
- With `maxMessages` of 1 or less a batch can have 2 items; the limit holds exactly from 2 on (`BatchesWithinLimit`).
- With a CR before a CR LF, the event-stream parser's result can depend on where reads cut the text
  (`CrCrLfDependsOnCuts`). The frames seen and the text buffered are the same for all divisions into reads exactly
  without that sequence (`CutsDoNotMatterIff`). For the payloads it is a sufficient condition
  (`ChunkIndependent`) and not a necessary one: text without a colon gives none, whatever its line ends
  (`NoColonNoPayload`).

## Reading the models

- A `char` stands for one UTF-16 code unit. Dafny's `char` leaves out lone surrogates, which the algorithms treat
  like any other character.
- Clock readings, fresh run ids and requests to other systems are parameters. A clock is read once per step.
- `hide` statements inside proofs only keep the solver from unfolding definitions; nothing is left unproved.

## Model

| member | source | states |
|---|---|---|
| `PatchUpdate.LinesMatch` | src/agents/apply-patch-update.ts:150-162 | true exactly when every pattern line equals the line below `start` under the given normalisation |
| `PatchUpdate.SeekSequence` | src/agents/apply-patch-update.ts:107-148 | the four search loops compute the tiered search function |
| `PatchUpdate.LooserMatches` | src/agents/apply-patch-update.ts:126-145 | a match stays a match under every looser normalisation: exact, end-trimmed, trimmed, punctuation |
| `PatchUpdate.SeekMeaning` | src/agents/apply-patch-update.ts:107-148 | the result is the lowest position in the strictest tier that has a match in range; null exactly when even the loosest tier has none |
| `PatchUpdate.EofMatchesAtEnd` | src/agents/apply-patch-update.ts:120-121 | with the end-of-file mark a non-empty pattern matches only where it ends at the last line |
| `ChunkSearch.SeekIff` | src/agents/apply-patch-update.ts:107-148 | a search finds a position exactly when it is the best match: in the strictest tier that has one, the first at or behind the start; with the end-of-file mark the one that ends at the last line; and nothing exactly when no tier has one |
| `ChunkSearch.SamePunctuationIff` | src/agents/apply-patch-update.ts:164-205 | two characters count as the same punctuation exactly when they are equal or of one family: 7 dashes, 4 single and 4 double quotes, 13 blanks, each with its plain form |
| `PatchUpdate.ComputeReplacements` | src/agents/apply-patch-update.ts:37-87 | the chunk loop, its retry without a blank last line and its two errors yield exactly the located replacements, sorted by start |
| `ChunkSearch.LocateChunkIff` | src/agents/apply-patch-update.ts:45-83 | for every chunk and line, by matches alone: the replacement and the next running line, and each of the two errors, if and only if; a context is found best behind the running line and the search goes on behind it |
| `ChunkSearch.ContextMovesSearch` | src/agents/apply-patch-update.ts:45-52 | what a chunk with a context replaces begins behind the line the context was found on, and an insert-only one leaves the running line there |
| `ChunkSearch.LocateIff` | src/agents/apply-patch-update.ts:37-83 | all chunks are located as a list of replacements exactly when they are one after the other |
| `ChunkSearch.LocateFailsIff` | src/agents/apply-patch-update.ts:45-82 | locating fails with an error exactly when a chunk does, behind chunks that are located |
| `PatchUpdate.LocatedCovers` | src/agents/apply-patch-update.ts:45-83 | for every chunk list: one replacement per chunk, within the file; a chunk with old lines gets lines that match them under one of the four normalisations (all, or all but a blank last one) and its own new lines |
| `PatchUpdate.SortSorts` | src/agents/apply-patch-update.ts:85 | sorting orders by start and keeps the replacements as a multiset |
| `PatchUpdate.SortIsStable` | src/agents/apply-patch-update.ts:85 | for every list and line, the entries that start on that line come out in their given order |
| `PatchUpdate.SortKeepsSorted` | src/agents/apply-patch-update.ts:85 | a list in order is left alone |
| `PatchUpdate.SortedIsOrderedIff` | src/agents/apply-patch-update.ts:85 | sorted, replacements are in order, in bounds and disjoint exactly when they are in bounds and no two clash |
| `PatchUpdate.OrderedIffNoClash` | src/agents/apply-patch-update.ts:37-87 | for every chunk list the result is sorted and in bounds, and meets the precondition of the single pass exactly when no two chunks were located on overlapping lines |
| `PatchUpdate.Splice` | src/agents/apply-patch-update.ts:95-102 | the two inner loops delete and insert one slice, clamped at the end of the file |
| `PatchUpdate.ApplyReplacements` | src/agents/apply-patch-update.ts:89-105 | the reversed loop equals applying the replacements from last to first |
| `PatchUpdate.InPlaceEditMeaning` | src/agents/apply-patch-update.ts:89-105 | for ordered, in-bounds, disjoint replacements the back-to-front edit is the single left-to-right pass that copies gaps and substitutes slices, insertions at one index in list order |
| `PatchUpdate.PlainChunksMeaning` | src/agents/apply-patch-update.ts:37-105 | chunks with old lines and without end-of-file mark fail or are located in order, sorting changes nothing, and the edit is the single pass |
| `PatchUpdate.ClearIffGuarded` | src/agents/apply-patch-update.ts:54-83 | the guard of an end-of-file or insert-only chunk holds exactly when its replacement clashes with none located before |
| `PatchUpdate.GuardsIffNoClashes` | src/agents/apply-patch-update.ts:37-83 | for every chunk list that can be located: no two replacements clash exactly when the guard of every step holds |
| `PatchUpdate.GuardedChunksMeaning` | src/agents/apply-patch-update.ts:37-105 | for every chunk list: the replacements are in order, in bounds and disjoint exactly when the guards hold, and then the edit is the single pass |
| `PatchUpdate.EofChunkCanRewind` | src/agents/apply-patch-update.ts:121 | for any three lines: two chunks on a one-line file, the second at end of file, cover the same line and the second's text is lost |
| `PatchUpdate.InsertBeforeBlankCanBeLost` | src/agents/apply-patch-update.ts:54-60 | for any lines: text inserted before a blank last line is deleted with it when another chunk covers that line |
| `PatchUpdate.ApplyUpdateHunk` | src/agents/apply-patch-update.ts:14-35 | text to text: errors are passed on, otherwise the edited lines with the final line feed; when the guards hold, those of the single pass |
| `PatchUpdate.UnchangedLinesKeepTextIff` | src/agents/apply-patch-update.ts:24-34 | splitting into lines and joining again keeps the text exactly when it is empty or ends in one line feed behind a non-blank line |
| `PatchParser.CheckPatchBoundariesStrict` | src/agents/apply-patch.ts:423-434 | which of the two boundary errors is reported, if any; no lines at all lack the first one |
| `PatchParser.CheckPatchBoundariesLenient` | src/agents/apply-patch.ts:400-421 | the lines themselves, or those inside a heredoc of at least four lines, or the boundary error |
| `PatchParser.ParseUpdateFileChunk` | src/agents/apply-patch.ts:522-607 | the chunk, the lines consumed, or the error with its line number, as the recursive reading gives them |
| `PatchParser.ParseOneHunk` | src/agents/apply-patch.ts:436-520 | the same for a hunk: header, move line, added lines, chunks and the blank lines between them |
| `PatchParser.ParsePatchText` | src/agents/apply-patch.ts:376-398 | the same for a whole text: trimming, splitting at LF or CR LF, boundaries, all hunks |
| `PatchFormat.ReadChunkIff` | src/agents/apply-patch.ts:522-607 | by the format alone: which lines are a chunk, where it ends, and which error with which line number is reported otherwise, if and only if |
| `PatchFormat.ReadHunkIff` | src/agents/apply-patch.ts:436-520 | the same for a hunk: the three headers, the move line, added lines, chunks with blank lines between; a line with none of the headers is an error at its number |
| `PatchFormat.ParseIff` | src/agents/apply-patch.ts:376-520 | for every text: it parses as these hunks exactly when its framed lines are these hunks, one block each |
| `PatchFormat.ParseFailsIff` | src/agents/apply-patch.ts:376-607 | for every text and error: it fails so exactly when its bounds do, or a hunk does behind lines that are hunks |
| `PatchPrinter.ReadChunkLines` | src/agents/apply-patch.ts:522-607 | a printed chunk followed by anything that ends its body reads back as itself and consumes exactly its lines |
| `PatchPrinter.ReadHunkLines` | src/agents/apply-patch.ts:436-520 | a printed hunk followed by another header or nothing reads back as itself and consumes exactly its lines |
| `PatchPrinter.ParseOfPrint` | src/agents/apply-patch.ts:376-607 | parsing undoes printing, for any mix of context, added, removed and blank lines, implicit or named contexts, moves, end-of-file marks, with LF or CR LF |
| `PatchPrinter.ParseOfHeredoc` | src/agents/apply-patch.ts:400-421 | the same inside a heredoc |
| `PatchPrinter.ParseOfPrintAll` | src/agents/apply-patch.ts:376-607 | round trip on hunks: any list of printable hunks, printed and parsed, comes back |
| `PatchPrinter.ParsedIsGood` | src/agents/apply-patch.ts:376-607 | whatever text is parsed, the hunks are printable: paths are there and end in no white space, contents end in a line feed, updates have chunks, chunks have lines |
| `PatchPrinter.PrintIsNormalForm` | src/agents/apply-patch.ts:376-607 | for every text the parser accepts, the printed form of its hunks parses to the same hunks |
| `PatchPrinter.ParserRange` | src/agents/apply-patch.ts:376-607 | a hunk list is the result of parsing some text exactly when it is printable and free of line feeds |
| `GatewayRuns.ReachableSafety` | src/acp/translator.ts:466-491 | over all interleavings, with a step of its own between a settled reply and the rest of the loop: the live context is the newest, no stamp is newer, an armed timer belongs to the newest disconnect and to pending prompts, every rejection hit a prompt with the stamp it was decided for |
| `GatewayRuns.OlderReconcileSparesRestamped` | src/acp/translator.ts:1076-1208 | in every reachable state, a reconciliation begun for another generation than a prompt's stamp leaves that prompt pending as it is and never rejects it, unless it is reported finished |
| `GatewayRuns.RejectedAtMostOnce` | src/acp/translator.ts:766-1087 | over all interleavings a prompt is rejected at most once by a reconciliation, and at most once, and then later, by its failed send; after either it is pending no more |
| `GatewayRuns.SendFailedSparesOthersIff` | src/acp/translator.ts:766-774 | a failed send leaves the prompts of other runs alone exactly when its session has none of these pending |
| `GatewayRuns.NewerPromptCanBeLost` | src/acp/translator.ts:770 | there is a run in which a failed send takes a newer prompt off the map that nobody finishes or rejects |
| `GatewayRuns.DeadlineLeavesNone` | src/acp/translator.ts:1110-1143 | when a deadline has been worked off, in the step in which it fires or later, every prompt pending when it fired is gone or has lost its stamp |
| `GatewayRuns.ReconcileIsThorough` | src/acp/translator.ts:1110-1143 | when any reconciliation has ended, every prompt that was pending when it began was asked about, or is gone or stamped otherwise |
| `GatewayRuns.DeadlineComesToAll` | src/acp/translator.ts:1067-1143 | every prompt with the stamp of the newest disconnect, reconnected or not, has an armed timer or is ahead of a running deadline, as long as no prompt is admitted while such a deadline runs (`DeadlinesComeIff` has the converse) |
| `GatewayRuns.DeadlineComesIff` | src/acp/translator.ts:722-733 | for every orderly run and every prompt admitted after it: a deadline comes to all stamped prompts, whatever replies follow, exactly when no deadline of the live disconnect is being worked off |
| `GatewayRuns.DeadlinesComeIff` | src/acp/translator.ts:722-1143 | for every run: every stamped prompt has a deadline coming at every time, whatever replies come next, if and only if no prompt is admitted while a deadline of the live disconnect is being worked off |
| `GatewayRuns.PromptCanMissDeadline` | src/acp/translator.ts:731-733 | there is a run that leaves a stamped prompt without any deadline |
| `GatewayVerdicts.LiveIsNewest` | src/acp/translator.ts:466-491 | over all runs: the live context is that of the last disconnect, unless a reconnect followed |
| `GatewayVerdicts.AcceptedIsMarked` | src/acp/translator.ts:746-749 | over all runs: a pending prompt is marked exactly when its send was accepted |
| `GatewayVerdicts.LiveStampsAll` | src/acp/translator.ts:476-491 | over all runs: while a disconnect is live every pending prompt carries its stamp, admitted before it or since |
| `GatewayVerdicts.DeadlineVerdict` | src/acp/translator.ts:1099-1207 | over all runs, by events: at a deadline a prompt that still carries the stamp asked about is rejected exactly when its send was never accepted or no reconnect nor newer disconnect followed; otherwise it stays without the stamp |
| `GatewayVerdicts.ReplyVerdict` | src/acp/translator.ts:1164-1207 | every other reply: finished prompts go without a rejection, all else stays, and when the timer is to be kept |
| `GatewayVerdicts.ReconnectAsksAll` | src/acp/translator.ts:466-474 | a reconnect behind a live disconnect has every pending prompt asked about |
| `GatewayVerdicts.PromptVerdict` | src/acp/translator.ts:722-733 | the new prompt, its stamp and the timer, by the live disconnect |
| `GatewayVerdicts.FailedSendVerdict` | src/acp/translator.ts:766-776 | a failed send keeps its prompt exactly when it is pending and the gateway was closed; otherwise it is rejected and the session has none |
| `GatewayAgent.AcpGatewayAgent.GetPendingPrompt` | src/acp/translator.ts:432-438 | the session's prompt if it has this run id |
| `GatewayAgent.AcpGatewayAgent.HandleGatewayDisconnect` | src/acp/translator.ts:476-491 | new generation, new live context, every pending prompt stamped, timer armed if there is one |
| `GatewayAgent.AcpGatewayAgent.HandleGatewayReconnect` | src/acp/translator.ts:466-474 | the live context is dropped and a reconciliation for its generation runs up to its first await |
| `GatewayAgent.AcpGatewayAgent.ArmDisconnectTimer` | src/acp/translator.ts:1067-1074 | one timer, for the context's generation |
| `GatewayAgent.AcpGatewayAgent.TimerFired` | src/acp/translator.ts:1069-1072 | the timer is spent before the reconciliation of its generation begins |
| `GatewayAgent.AcpGatewayAgent.AdmitPrompt` | src/acp/translator.ts:722-733 | the prompt replaces the session's pending one, stamped with the live context, and arms the timer if none runs |
| `GatewayAgent.AcpGatewayAgent.AcceptSend` | src/acp/translator.ts:746-749 | only the prompt that is still current is marked as sent |
| `GatewayAgent.AcpGatewayAgent.FailSend` | src/acp/translator.ts:766-776 | what a failed send takes off the map, with the session's run in the store, when it leaves the prompt pending, and whether it rejects |
| `GatewayAgent.AcpGatewayAgent.DropPrompt` | src/acp/translator.ts:1030-1034 | the session's prompt is gone and its run in the store is cleared; without prompts so is the timer |
| `GatewayAgent.AcpGatewayAgent.RejectPendingPrompt` | src/acp/translator.ts:1076-1087 | rejects exactly the current prompt, stamped or not, and clears its run; otherwise nothing changes |
| `GatewayAgent.AcpGatewayAgent.ClearPendingDisconnectState` | src/acp/translator.ts:1089-1097 | the stamp goes only if it is this context |
| `GatewayAgent.AcpGatewayAgent.ShouldRejectPendingAtDisconnectDeadline` | src/acp/translator.ts:1099-1108 | stamped with this context, and not accepted or the context's generation is live |
| `GatewayAgent.AcpGatewayAgent.SettleReply` | src/acp/translator.ts:1164-1207 | what each reply of agent.wait does to the agent, and whether the timer is kept; the session's run is cleared exactly when the prompt goes |
| `GatewayAgent.AcpGatewayAgent.Entries` | src/acp/translator.ts:1121 | the snapshot lists exactly the pending prompts |
| `GatewayAgent.AcpGatewayAgent.ListsSnapshot` | src/acp/translator.ts:1121 | by session and run id it is a snapshot as the runs take it |
| `GatewayAgent.AcpGatewayAgent.BeginReconcile` | src/acp/translator.ts:1110-1127 | from the call to the first await, or to the end when there is nothing to ask about |
| `GatewayAgent.AcpGatewayAgent.ResumeReconcile` | src/acp/translator.ts:1128-1142 | from one await to the next: a reply is settled, or the loop goes on, as the step of a run says |
| `GatewayAgent.AcpGatewayAgent.AdvanceReconcile` | src/acp/translator.ts:1121-1142 | from one await to the next: skips what is gone or stamped otherwise, and clears the timer at the end only for the newest generation |
| `DeltaStream.PendingStream.BeginDelta` | src/acp/translator.ts:974-1023 | thought first, and the text at once only when no thought was sent |
| `DeltaStream.PendingStream.SendText` | src/acp/translator.ts:1003-1022 | sends the part of the trimmed text beyond the length sent when it resumes |
| `DeltaStream.StreamConserves` | src/acp/translator.ts:974-1023 | when snapshots only extend one another, message chunks join to the longest trimmed text handled, and thoughts likewise, however handlers interleave at the await |
| `DeltaStream.SnapshotPush` | src/acp/translator.ts:984-988 | what one more block adds to a snapshot of a kind: its text behind a line feed, or nothing when it is of another kind |
| `DeltaStream.FullIsTrimmed` | src/acp/translator.ts:988 | what is streamed is the snapshot without the white space at its end |
| `DeltaStream.GrowingIsExtending` | src/acp/translator.ts:984-1008 | snapshots of a message that grows by text in its last block and by blocks only extend one another |
| `DeltaStream.ThoughtFirst` | src/acp/translator.ts:989-1015 | of one snapshot the thought is sent first and alone |
| `DeltaStream.DeliveryIsExactIff` | src/acp/translator.ts:1008-1015 | without that discipline what was sent joins to the new snapshot exactly when it was a prefix of it |
| `SessionStore.AcpSessionStore.RemoveSession` | src/acp/session.ts:35-46 | the record, its run in the index and nothing else go; its controller is told to abort |
| `SessionStore.AcpSessionStore.ReapIdleSessions` | src/acp/session.ts:48-59 | exactly the expired idle sessions go; index and controllers are untouched |
| `SessionStore.AcpSessionStore.EvictOldestIdleSession` | src/acp/session.ts:61-78 | which session is evicted, and when none is |
| `SessionStore.AcpSessionStore.CreateSession` | src/acp/session.ts:80-107 | renewal, reaping, eviction, the limit error and the new record |
| `SessionStore.AcpSessionStore.GetSession` | src/acp/session.ts:111-117 | the record is returned and touched, nothing else changes |
| `SessionStore.AcpSessionStore.GetSessionByRunId` | src/acp/session.ts:119-129 | the same through the run index |
| `SessionStore.AcpSessionStore.SetActiveRun` | src/acp/session.ts:131-140 | run, controller and index entry are set together |
| `SessionStore.AcpSessionStore.ClearActiveRun` | src/acp/session.ts:142-153 | they are cleared together, without an abort |
| `SessionStore.AcpSessionStore.CancelActiveRun` | src/acp/session.ts:155-168 | the same with an abort, and only if there is a controller |
| `SessionStore.OldestIsLeastRecent` | src/acp/session.ts:61-73 | the session chosen is idle and least recently touched, the first in insertion order of several; none is chosen exactly when all are active |
| `SessionStore.CreateKeepsActive` | src/acp/session.ts:80-107 | a create leaves every other session with a run, the run index and all controllers as they are |
| `SessionStore.CreateRemovesOnly` | src/acp/session.ts:48-107 | what a create removes was expired, or is the least recently touched idle session of a full store |
| `SessionStore.CreateFailsIff` | src/acp/session.ts:80-95 | a create fails exactly when the id is new, the store is full after reaping, and all sessions left are active or the one to evict has the empty id |
| `SessionStore.CreateFailsOnlyWhenBusy` | src/acp/session.ts:80-95 | without an empty id: exactly when the store is full of active sessions |
| `SessionStore.EmptyIdBlocksEviction` | src/acp/session.ts:74-76 | a create fails although the only session is idle, because its id is empty |
| `SessionStore.SessionAfter` | src/acp/session.ts:80-168 | what every event leaves of a session: touched exactly when used, and the run and controller of the last prompt unless a clear or cancel took them |
| `SessionStore.SessionBorn` | src/acp/session.ts:96-107 | only a create brings a session, fresh and idle |
| `SessionStore.SessionGone` | src/acp/session.ts:48-107 | only a create for a new id removes a session, and none with a run |
| `SessionStore.AbortsAfter` | src/acp/session.ts:155-168 | a controller is told to abort exactly when a cancel, or a prompt before its own run, finds it |
| `SessionStore.TouchIsLastUse` | src/acp/session.ts:31-33 | over all runs a session's last touch is its last use |
| `SessionStore.UnusedSessionsGo` | src/acp/session.ts:48-107 | over all runs: a create for a new id takes every idle session unused for the time to live, and of the others at most the least recently used idle one of a full store |
| `SessionStore.SetActiveRunKeepsIndexedIff` | src/acp/session.ts:131-140 | the index stays exact if and only if the run id is not empty, the session has no other run and no other session has this run id |
| `SessionStore.CapacityIsKept` | src/acp/session.ts:80-95 | in every run, whatever the run ids, the store holds at most maxSessions sessions |
| `SessionStore.OrderIsListed` | src/acp/session.ts:35-107 | in every run, whatever the run ids, the insertion order lists exactly the sessions |
| `SessionStore.ReachableIsIndexed` | src/acp/session.ts:35-168 | with fresh run ids and prompt's discipline: in every reachable state the index is the inverse of the active runs, runs and controllers go together, and the capacity is kept |
| `ProcessRegistry.SumPendingChars` | src/agents/bash-process-registry.ts:226-232 | the total length of the chunks |
| `ProcessRegistry.CapPendingBuffer` | src/agents/bash-process-registry.ts:234-254 | for any count passed in, right or wrong: how much is dropped from the front and what count is returned; with the right one the chunks left join to exactly the last `cap` characters |
| `ProcessRegistry.ProcessSession.AppendOutput` | src/agents/bash-process-registry.ts:108-136 | pending text, aggregate, total, tail and flag after an append; the stored counts are exact; the other stream is untouched |
| `ProcessRegistry.ProcessSession.DrainSession` | src/agents/bash-process-registry.ts:138-146 | returns both pending texts and leaves both empty |
| `ProcessRegistry.BuffersAreHistory` | src/agents/bash-process-registry.ts:108-146 | after any run each stream's pending text is the last min(cap, n) characters written since its last drain, the aggregate the end of the whole history, the total its length |
| `ProcessRegistry.PendingIsLongestWithinLimits` | src/agents/bash-process-registry.ts:115-118 | pending output is the longest end of what was written since the last drain within both limits, the pending one being 30000 by default |
| `ProcessRegistry.AggregateIsLongestWithinLimit` | src/agents/bash-process-registry.ts:131-134 | the aggregate is the longest end of the history within its own limit |
| `ProcessRegistry.TruncatedIffLost` | src/agents/bash-process-registry.ts:120-134 | the flag is false exactly when each stream's drained texts and pending text join to all that was written to it and the aggregate is the whole history |
| `MessageAggregator.MessageAggregator.Push` | src/feishu-service.ts:1585-1625 | the three maps, the order and the batches after a push: new window, longer window, or flush |
| `MessageAggregator.MessageAggregator.FlushAll` | src/feishu-service.ts:1627-1631 | every waiting sender is flushed, in the order of creation |
| `MessageAggregator.MessageAggregator.FlushKey` | src/feishu-service.ts:1633-1645 | a sender's timer, buffer and window go, and its buffer, if not empty, is submitted |
| `MessageAggregator.MessageAggregator.ResetTimer` | src/feishu-service.ts:1647-1653 | one timer per sender, due after the window and the extra time |
| `MessageAggregator.RunKeepsAll` | src/feishu-service.ts:1585-1653 | over any run a sender's pushed items are those of its batches followed by those waiting, each once and in order, and the invariant holds |
| `MessageAggregator.WaitingIsBounded` | src/feishu-service.ts:1594-1653 | the maps have the same keys; a waiting sender's timer is due within windowStart + maxWindowMs + windowMs + 2000; buffers and batches have bounded sizes |
| `MessageAggregator.RunIsTimed` | src/feishu-service.ts:1594-1653 | over all runs: a waiting sender's window began with the first push that still waits, and its timer counts from the last one, with 2 seconds more if that brought images |
| `MessageAggregator.PushEndsWaitIff` | src/feishu-service.ts:1594-1624 | over all runs: a push ends its sender's wait exactly when it is immediate, fills the buffer or comes too late in the window; then one batch of all that waits is submitted, with the first push's sender data |
| `MessageAggregator.FlushAllEmpties` | src/feishu-service.ts:1627-1645 | flushAll leaves all three maps empty |
| `MessageAggregator.BatchesWithinLimit` | src/feishu-service.ts:1597-1624 | no batch of any run exceeds maxMessages exactly when maxMessages is at least 2 |
| `ToolNames.SanitizedShape` | src/feishu-service.ts:2339-2343 | 1 to 64 name characters, no underscore in front |
| `ToolNames.SanitizeMeaning` | src/feishu-service.ts:2339-2343 | for every text: its words of name characters joined by single underscores, without underscores at the ends, cut to 64, or "tool" |
| `ToolNames.SanitizeFixesProperNames` | src/feishu-service.ts:2339-2343 | sanitizing changes nothing exactly for names of 1 to 64 name characters with no underscore at either end |
| `ToolNames.SanitizeTwice` | src/feishu-service.ts:2340-2341 | sanitizing is idempotent exactly when the stripped name has at most 64 characters or no underscore as the 64th |
| `ToolNames.SanitizeTwiceCanDiffer` | src/feishu-service.ts:2340-2341 | a name of 63 letters, an underscore and a letter is changed again by the second sanitizing |
| `ToolNames.UniqueToolName` | src/feishu-service.ts:2328-2337 | the probe loop ends and returns the base or the first free numbered candidate |
| `ToolNames.CandidatesDiffer` | src/feishu-service.ts:2333 | numbered candidates are pairwise distinct, whatever the base |
| `ToolNames.DecimalValue` | src/feishu-service.ts:2333 | the number in a candidate is written in decimal digits without leading zeros |
| `ToolNames.UniqueNameIsFree` | src/feishu-service.ts:2328-2337 | the name is not bound, all candidates before it are, its number is at most the number of bindings plus 2, and it has at most 64 characters while that has at most seven digits |
| `ToolNames.McpHub.RegisterTools` | src/feishu-service.ts:2268-2277 | the table after a server's tools; earlier bindings stay, and it grows by one per tool |
| `ToolNames.RegisteringKeepsAll` | src/feishu-service.ts:2268-2277 | every earlier binding stays, names are pairwise distinct, and every tool, repeated names included, has a binding of its own |
| `SseBody.ParseAnthropicSseBody` | src/agents/anthropic-transport-stream.ts:434-476 | for every division into reads: the payloads of the frames buffered reading gives and of the trimmed rest; without CR CR LF those of the whole text |
| `SseBody.ChunkIndependent` | src/agents/anthropic-transport-stream.ts:446-467 | without CR CR LF the payloads depend on the text alone and not on the cuts; for the payloads the condition is sufficient, not necessary |
| `SseFrames.PayloadIsYield` | src/agents/anthropic-transport-stream.ts:451-460 | a frame's payload is the texts of its data lines, white space behind the colon taken off, joined by line feeds; other lines count for nothing, and neither does empty data or the end mark |
| `SseFrames.OtherLineIgnored` | src/agents/anthropic-transport-stream.ts:451-455 | a line that does not begin with `data:` makes no difference, wherever it is put |
| `SseFrames.DoneYieldsNothing` | src/agents/anthropic-transport-stream.ts:457 | a frame whose data is `[DONE]` yields nothing |
| `SseFrames.StreamIsRead` | src/agents/anthropic-transport-stream.ts:434-476 | for every stream of frames with lines of any kind, with LF or CR LF, closed at the end or not, and cut anywhere: the payloads are what the data lines carry, in order |
| `SseBody.LfIdempotent` | src/agents/anthropic-transport-stream.ts:446 | normalising line ends again changes nothing exactly when no CR stands before a CR LF |
| `SseBody.CutsDoNotMatterIff` | src/agents/anthropic-transport-stream.ts:446-459 | for every text: all divisions into reads leave the same frames and the same rest exactly when no CR stands before a CR LF |
| `SseBody.NoColonNoPayload` | src/agents/anthropic-transport-stream.ts:446-472 | a text without a colon gives no payload, whatever its line ends and however the reads cut it |
| `SseBody.CrCrLfDependsOnCuts` | src/agents/anthropic-transport-stream.ts:446 | for any two data lines with CR CR LF twice between them: one read gives one payload, two reads give two |
| `SseBody.WireRoundTrip` | src/agents/anthropic-transport-stream.ts:451-458 | payloads sent as data lines, with LF or CR LF and cut anywhere, are the payloads read |
| `CliStream.CliJsonlStreamingParser.HandleParsedRecord` | src/agents/cli-output.ts:349-371 | session id, usage, text and emitted delta after a record |
| `CliStream.CliJsonlStreamingParser.FlushLines` | src/agents/cli-output.ts:373-399 | handles exactly the complete lines, or all of them, and keeps the rest |
| `CliStream.CliJsonlStreamingParser.Push` | src/agents/cli-output.ts:402-408 | the state after a push, empty chunks included |
| `CliStream.CliJsonlStreamingParser.Finish` | src/agents/cli-output.ts:409-411 | the buffered rest is handled as a last line |
| `CliStream.PushedIsWhole` | src/agents/cli-output.ts:373-408 | after any pushes every complete line of all the text so far was handled once and in order, and the rest is buffered |
| `CliStream.ChunkIndependent` | src/agents/cli-output.ts:339-413 | for any division into pushes and a finish the outcome is that of handling the lines one by one, and of one push |
| `CliStream.LinesAccumulate` | src/agents/cli-output.ts:369-370 | every emitted text is the concatenation of all deltas so far, and nothing emitted is taken back |
| `CliStream.DeltaTextIff` | src/agents/cli-output.ts:306-337 | a delta comes from exactly the stream events that are text deltas of a content block, and only in this dialect |
| `CliStream.SessionIdIff` | src/agents/cli-output.ts:225-242 | a record's session id is the trimmed text of the first session id field that has one |
| `CliStream.LinesAreRecords` | src/agents/cli-output.ts:373-399 | the stream is the records of its lines that are not blank, each trimmed and decoded, one after the other |
| `CliStream.RecordsMean` | src/agents/cli-output.ts:349-371 | after any records: the text of all deltas, the session named last or else the first thread, and the last usage that could be read |
| `CliStream.DeltaCarriesWhatIsKnown` | src/agents/cli-output.ts:356-370 | a delta is handed on with the session and usage known once its own record was read |
| `ShellSplitter.SplitShellSegmentsOutsideQuotes` | src/agents/bash-tools.exec.ts:479-567 | the single pass with four state bits equals cutting at the first separator outside quotes and escapes and starting afresh behind it |
| `ShellSplitter.PipeCutsFirst` | src/agents/bash-tools.exec.ts:548-561 | pipe mode never cuts later than plain mode |
| `ShellSplitter.CutOfPrefix` | src/agents/bash-tools.exec.ts:497-498 | lookahead never crosses a plain cut |
| `ShellSplitter.PipeModeRefines` | src/agents/bash-tools.exec.ts:479-567 | for every string, splitting with pipes equals splitting without and then splitting each part with pipes |
| `ShellSplitter.SplitConserves` | src/agents/bash-tools.exec.ts:479-567 | for every string and mode: the text is its pieces with separators woven in; no piece holds a separator outside quotes and escapes, every cut is made outside them, and the segments are the pieces that are not blank, unchanged and in order |
| `ShellSplitter.SplitOfJoin` | src/agents/bash-tools.exec.ts:479-567 | for every string and mode, the segments joined with semicolons split into the same segments |
| `ShellSplitter.QuotedIsWhole` | src/agents/bash-tools.exec.ts:512-526 | a quoted text is one segment, whatever separators it holds |
| `ShellQuoting.CalmRule` | src/agents/bash-tools.exec.ts:479-567 | nothing is cut in text without quotes, backslashes and separators: what follows is cut as if it stood alone |
| `ShellQuoting.BackslashRule` | src/agents/bash-tools.exec.ts:500-510 | a backslash takes any next character with it |
| `ShellQuoting.SingleQuoteRule` | src/agents/bash-tools.exec.ts:512-518 | between single quotes only the closing quote counts, and without one nothing |
| `ShellQuoting.DoubleQuoteRule` | src/agents/bash-tools.exec.ts:520-526 | between double quotes only a quote without a backslash counts |
| `ShellQuoting.OpenDoubleQuoteRule` | src/agents/bash-tools.exec.ts:520-526 | an open double quote goes on to the end of the text |
| `ShellQuoting.SeparatorRule` | src/agents/bash-tools.exec.ts:540-561 | each separator cuts, and a pair of ampersands or bars is one |
| `ShellQuoting.CalmMeetsBackslash` | src/agents/bash-tools.exec.ts:500-510 | behind calm text, a backslash and any character, the cut of the rest is the cut |
| `ShellQuoting.CalmMeetsSeparator` | src/agents/bash-tools.exec.ts:540-561 | behind calm text each separator cuts |
| `ShellQuoting.EscapedSeparatorStays` | src/agents/bash-tools.exec.ts:500-510 | a separator behind a backslash stays in its segment |
| `ShellQuoting.DoubleQuotedIsWhole` | src/agents/bash-tools.exec.ts:505-526 | a text between double quotes stays one segment, with escaped quotes and backslashes in it |

## Left out

- File system, sandbox and path checks around the patch engine: a file is its text, and the patch text that the parser also returns is not modelled.
- JSON decoding, UTF-8 decoding and the reading of usage records: functions given as parameters, and payloads are the texts handed to the decoder; a decoder that throws is not modelled.
- `SseBody.Payloads`: the parser handles a subset of the event stream format; event names, ids, retry and comments are ignored by the code and by the model.
- `CliStream.DeltaText`: the dialect test is a parameter, and the one-shot parsers of the same file are not modelled.
- The gateway client, presentation, tool calls and rate limiting of the gateway agent, and which chat events reach which prompt: a finished or cancelled prompt is the step that takes it off the map, and a cancelled prompt's request to the gateway is not modelled.
- `GatewayAgent.AcpGatewayAgent.AdvanceReconcile`: the order of the snapshot is left open, so the statements hold for every order.
- Settlement of every prompt: a second prompt on a session replaces the pending entry, so this is not an invariant of the code.
- `DeltaStream.PendingStream.SendText`: the copies of the last snapshot that are kept beside the lengths are never read and not modelled.
- `SessionStore.AcpSessionStore.CreateSession`: generated ids are a parameter; clearing the whole store is not modelled.
- `ProcessRegistry.ProcessSession.AppendOutput`: the character counts may be missing as in the source, the chunk lists may not; caps are natural numbers and do not change during a session.
- Child processes, exit handling, the finished-session table and its sweeper: operating system resources and record keeping.
- `MessageAggregator.MessageAggregator.Push`: request ids are left out, onSubmit appends to a log and does not re-enter the aggregator, and a push reads the clock once.
- `ToolNames.McpHub.RegisterTools`: descriptions and input schemas of tools, and connecting to servers.
- The policy that the shell splitter serves, and everything else in that file.
