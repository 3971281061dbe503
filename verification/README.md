# Verified models of the providers, the gateway and the terminal serializer

This project models the parts of the repository whose correctness depends on several
functions or many steps, and proves what they promise. Run `dafny verify dfyconfig.toml`
with Dafny 4.11. Code that changes fields, arrays or closure variables is modelled by classes
and methods with loops, each proved against a function; the theorems are lemmas about those
functions and about whole runs.

| files | what they model |
|---|---|
| `Continuation`, `Chain`, `WsTransport` | the Codex response chain: store, steps of a session with its server, and the session object |
| `ChainProofs`, `ChainExact`, `ChainPending` | pair coherence, refinement of the full input, when the length gate resets; exactly which worlds keep refining, between turns and with a call pending, and reachable ones that do not |
| `CodexLines`, `CodexSse`, `CodexStream`, `CodexSseProofs`, `CodexPartIds` | the Codex event stream: lines from chunks, events to parts, recovery after truncation, which parts are started and ended |
| `EmptyTurnClassifier`, `RetryStream` | the empty-turn ladder and the two-attempt stream |
| `AntmlSalvage`, `ClaudeSse`, `ClaudeStream`, `ClaudeSseProofs` | the Claude event stream and the recovery of calls written as text |
| `Breakpoints` | placement of cache breakpoints |
| `AuthRing` | the ring of authentication jobs shared with worker threads |
| `BanTable`, `ConsecFail` | the ban set with its file, and the failure counter that feeds it |
| `CText`, `RouteFile`, `RouteReload`, `RouteTable`, `RouteRuns` | the web route table and its file: lines, what a reload keeps, the table, and whole runs of commands |
| `Base64Url`, `Jwt` | login tokens |
| `Terminal`, `Serialize`, `SerializeStyle`, `SerializeRow`, `SerializeReplay`, `SerializeHandler` | the terminal serializer, replayed on a small terminal (printing, CR LF, autowrap, cursor position, SGR as in section 8.3.117 of ECMA-48) |
| `Workspace`, `Identifier` | path normalisation and time-ordered identifiers |
| `Util`, `JsText`, `Decimal` | shared datatypes and text operations |

## What was found

Where a promise does not hold of the code as it is, the code is modelled as it is, a lemma gives
a concrete or reachable case, and another says exactly when the promise holds.

- Chain: a compaction while the session is not in memory, a compaction while a call is pending, a
  compaction that clears the store alone (as all callers in the repository do, since nothing calls
  `advanceWindowGeneration`), and a restart before the file of a compaction is written each leave a
  stale pair (`CompactionBeforeLoad`, `CompactionDuringConnect`, `CompactionOfStoreOnly`,
  `RestartFromStaleFile`); `ReadyExactly` and `PendingExactly` are the exact conditions. An empty
  first request makes the next one reset (`EmptyRequestTripsTheGate`); `ResetsAreEmptyPairs` says exactly when.
- Codex parts: a call added again, complete, after its delivery appears twice
  (`AddedTwiceDeliveredTwice`, `DeliveredOnceExactly`). A text part overtaken by a message item, and
  reasoning cut off, are never ended (`TextEndsExactly`, `ReasoningEndsExactly`). Text and reasoning
  ids may repeat from one attempt to the retry (`TextIdsMayRepeatAcrossAttempts`,
  `TextIdsRepeatExactly`, `ReasoningIdsRepeatExactly`).
- Serializer: a row that continues the one above, is blank in one style, and is followed by a row
  that continues nothing swallows a line break, so that what is below moves up
  (`ErasedContinuationMovesRows`, `InPlaceExactly`). Code 22 ends both bold and faint
  (`EndingBoldEndsFaint`, `DiffReachesExactly`).
- Routes: a prefix starting with `#` is written and never read back (`HashPrefixIsLost`,
  `LoadsBackExactly`). A prefix with blanks can be read back as another, even one that is there
  already (`BlankPrefixRegistersTwice`); `ReloadKeepsExactly` and `RunKeepsExactly` say when a reload
  keeps the table, `RereadUniqueExactly` when it keeps prefixes unique.
- Identifiers: from one block of 2^36 milliseconds to the next the order is lost
  (`NextBlockSortsEarlier`, `InOrderExactly`).

## Assumptions

- Chain: one request is in flight per session; no messages arrive after the client closes a
  socket; the server either holds a response or reports it not found, and gives new ids; `input`
  is an array and the caller presets no `previous_response_id`. The model's server keeps the
  items a response was asked with; items it generates are not counted, as the client's lengths do
  not count them. The file may be written at any moment, as a write by any session makes the store
  dirty.
- Routes: commands of a run see their writes of the file succeed, and ports, auth fields and uids
  are C's `int` and `uid_t`.
- Serializer: rows are as wide as the terminal, each wide character is followed by its
  placeholder, texts are one printable character with what combines with it, and either no cell
  is faint or none is bold. Lines that scroll off keep their numbers; the final cursor position
  is the buffer's as long as the buffer fits the screen.
- `parse` stands for JSON.parse, `hmac` for HMAC-SHA256, `users` for getpwnam, and the
  random ends of identifiers, PAM's verdicts, write failures and timers are parameters or steps.
- Sizes of the gateway's tables and its failure limit are parameters.

## Model

| member | source | states |
|---|---|---|
| `Continuation.ContinuationStore.GetContinuation` | packages/provider-codex/src/continuation.ts:62-65 | the record of a key, empty when there is none |
| `Continuation.ContinuationStore.UpdateContinuation` | packages/provider-codex/src/continuation.ts:67-71 | the fields given are merged into the key's record, absent ones stay; the store becomes dirty, the file is untouched |
| `Continuation.ContinuationStore.InvalidateContinuation` | packages/provider-codex/src/continuation.ts:83-90 | id and length of the one key are cleared together; dirty only if the key existed |
| `Continuation.ContinuationStore.InvalidateContinuationFamily` | packages/provider-codex/src/continuation.ts:98-109 | the loop clears exactly the base record and the `sid:` shards and marks the store dirty exactly when one existed |
| `Continuation.ContinuationStore.Flush` | packages/provider-codex/src/continuation.ts:43-56 | the file becomes the store only if dirty and the write succeeds; dirty is dropped either way |
| `Continuation.ContinuationStore.Restart` | packages/provider-codex/src/continuation.ts:27-41 | a new process sees the file, or nothing when it cannot be read |
| `Continuation.FamiliesOverlap` | packages/provider-codex/src/continuation.ts:98-109 | a key in two sessions' families means one id extends the other with a colon |
| `ChainProofs.SendSlices` | packages/provider-codex/src/transport-ws.ts:387-406 | the request gate sends either the whole input or, on top of the pair's id, exactly the items the server does not hold yet |
| `ChainProofs.PairsAreCopied` | packages/provider-codex/src/transport-ws.ts:873-1052 | the only id and length a step can add to the store or the session are a pair it already held or that of the completing request |
| `ChainProofs.StepKeepsCoherence` | packages/provider-codex/src/transport-ws.ts:352-1052 | every step keeps: id and length are both absent, or the length is the item count the server holds for that id |
| `ChainProofs.PairCoherence` | packages/provider-codex/src/transport-ws.ts:623-640 | coherence over every run, in memory, in the base record, in every shard and in the file |
| `ChainProofs.ChainRefinement` | packages/provider-codex/src/transport-ws.ts:387-406 | over every run that compacts and restarts safely, what the server rebuilds for each completed response is the full local input of its request |
| `ChainProofs.ChainFromStart` | packages/provider-codex/src/transport-ws.ts:94-110 | coherence, refinement and the count of resets for every run from a fresh process with an empty file |
| `ChainProofs.ResetsAreEmptyPairs` | packages/provider-codex/src/transport-ws.ts:339-350 | in every safe run whose requests strictly grow (the first may be empty), length_not_grown resets happen exactly as often as a turn is chained to a pair of length 0, whatever failed in between |
| `ChainProofs.NoPhantomReset` | packages/provider-codex/src/transport-ws.ts:407-417 | when moreover no request is empty and no pair of length 0 is left over, no length_not_grown reset ever happens |
| `ChainProofs.FailureClears` | packages/provider-codex/src/transport-ws.ts:539-543 | each failure that invalidates leaves no pair in memory or in the family |
| `ChainProofs.StepStaysInFamily` | packages/provider-codex/src/continuation.ts:98-109 | a session's steps write only its own family of keys |
| `ChainProofs.StepsOfOthers` | packages/provider-codex/src/continuation.ts:67-71 | to an unrelated session a step of another one is an allowed environment step |
| `ChainExact.ReadyIsEnough` | packages/provider-codex/src/transport-ws.ts:893-922 | from a ready world every legal continuation without a compaction, restarts included, is refined |
| `ChainExact.ReadyIsNeeded` | packages/provider-codex/src/transport-ws.ts:893-922 | from a world with a stale pair still usable some legal continuation rebuilds a wrong input, whether or not the session has an account yet |
| `ChainExact.AllReadyIsNeeded` | packages/provider-codex/src/continuation.ts:43-56 | so does one from a world whose store or file holds such a pair for a restarted process |
| `ChainExact.ReadyExactly` | packages/provider-codex/src/transport-ws.ts:893-922 | between turns, every continuation up to the next compaction (failures, account switches, writes of the file and restarts included) is refined exactly when no stale pair can still be used from memory, from the store or from its file |
| `ChainPending.PendingExactly` | packages/provider-codex/src/transport-ws.ts:893-1052 | the same at any moment, with a call waiting for its connection, in flight, or with its socket closed under it: every continuation up to the next compaction is refined exactly when the request and the pairs that can still be used are current |
| `ChainPending.PendingExactlyFromStart` | packages/provider-codex/src/transport-ws.ts:94-110 | and so in every world a fresh process can reach |
| `ChainPending.RunKeepsSent` | packages/provider-codex/src/transport-ws.ts:339-406 | over every run a request in flight leaves no pair of length 0 in memory and belongs to the session's account |
| `ChainPending.ConnectedIsReady` | packages/provider-codex/src/transport-ws.ts:992-1013 | a waiting call that is ready still is when it is connected and sent |
| `ChainPending.PendingIsNeeded` | packages/provider-codex/src/transport-ws.ts:893-1052 | where the condition fails, in whatever phase, some legal continuation rebuilds a wrong input |
| `ChainExact.RestartFromStaleFile` | packages/provider-codex/src/continuation.ts:43-56 | a reachable world in which, after a compaction, only the file not yet written is stale, so that only a restart goes wrong |
| `ChainExact.CompactionBeforeLoad` | packages/provider-codex/src/transport-ws.ts:115-130 | a reachable world: a compaction of a session not in memory clears nothing |
| `ChainExact.CompactionDuringConnect` | packages/provider-codex/src/transport-ws.ts:992-1013 | a reachable world: a compaction while a call is connecting commits an old input |
| `ChainExact.CompactionOfStoreOnly` | packages/opencode/src/session/continuation/run.ts:138-143 | a reachable world: a compaction that clears the store by invalidateContinuationFamily alone leaves a stale pair in memory |
| `ChainExact.EmptyRequestTripsTheGate` | packages/provider-codex/src/transport-ws.ts:339-350 | an empty first request makes the next one reset although it grew |
| `WsTransport.WsSession.GetSession` | packages/provider-codex/src/transport-ws.ts:94-110 | a session comes into memory from the base record, once |
| `WsTransport.WsSession.DoInvalidate` | packages/provider-codex/src/transport-ws.ts:539-543 | pair and family cleared |
| `WsTransport.WsSession.ResetWsSession` | packages/provider-codex/src/transport-ws.ts:115-130 | a compaction is the Reset step, doing nothing when the session is not in memory |
| `WsTransport.WsSession.CloseWsSession` | packages/provider-codex/src/transport-ws.ts:132-144 | the Close step, and nothing for a session not in memory |
| `WsTransport.WsSession.OnScrub` | packages/opencode/src/session/continuation/run.ts:138-143 | the Scrub step: the store is cleared, the session is not |
| `WsTransport.WsSession.WsRequest` | packages/provider-codex/src/transport-ws.ts:387-417 | the gate: slice, or drop the pair and send everything; sends exactly what the model sends |
| `WsTransport.WsSession.DropUnconfirmedPair` | packages/provider-codex/src/transport-ws.ts:893-900 | a pair read from disk and never confirmed is dropped |
| `WsTransport.WsSession.SwitchAccount` | packages/provider-codex/src/transport-ws.ts:902-922 | old pair saved to its shard, new account's pair restored |
| `WsTransport.WsSession.Resume` | packages/provider-codex/src/transport-ws.ts:952-980 | an open socket is reused, another one is dropped |
| `WsTransport.WsSession.EnterTurn` | packages/provider-codex/src/transport-ws.ts:873-978 | one call of tryWsTransport up to its first wait |
| `WsTransport.WsSession.OnConnected` | packages/provider-codex/src/transport-ws.ts:992-1013 | account noted, chain tried on the fresh socket |
| `WsTransport.WsSession.OnConnectFailed` | packages/provider-codex/src/transport-ws.ts:1043-1052 | sticky fallback to HTTP |
| `WsTransport.WsSession.ProbeFailed` | packages/provider-codex/src/transport-ws.ts:961-971 | what a failed probe leads to: a fresh socket, or the fallback |
| `WsTransport.WsSession.EndStream` | packages/provider-codex/src/transport-ws.ts:523-529 | the stream ends without an event, or after some |
| `WsTransport.WsSession.OnFirstFrame` | packages/provider-codex/src/transport-ws.ts:819-838 | the probe passes and events are forwarded |
| `WsTransport.WsSession.OnCompleted` | packages/provider-codex/src/transport-ws.ts:623-683 | id and full length committed together, in memory and in the base record |
| `WsTransport.WsSession.OnIncomplete` | packages/provider-codex/src/transport-ws.ts:686-694 | the pair is invalidated |
| `WsTransport.WsSession.OnResponseFailed` | packages/provider-codex/src/transport-ws.ts:696-704 | the pair is invalidated |
| `WsTransport.WsSession.OnErrorFrame` | packages/provider-codex/src/transport-ws.ts:565-609 | the pair is invalidated; during the probe the next transport is tried |
| `WsTransport.WsSession.OnPreviousResponseNotFound` | packages/provider-codex/src/transport-ws.ts:576-586 | the pair is invalidated and the request retried once without it |
| `WsTransport.WsSession.OnWsError` | packages/provider-codex/src/transport-ws.ts:710-723 | the pair is invalidated and the stream ends |
| `WsTransport.WsSession.OnWsClose` | packages/provider-codex/src/transport-ws.ts:725-758 | a close while streaming invalidates |
| `WsTransport.WsSession.OnIdleTimeout` | packages/provider-codex/src/transport-ws.ts:464-490 | an idle timeout invalidates |
| `WsTransport.WsSession.OnSendTimeout` | packages/provider-codex/src/transport-ws.ts:494-513 | a send timeout ends the stream and keeps the pair |
| `WsTransport.WsSession.OnProbeTimeout` | packages/provider-codex/src/transport-ws.ts:795-811 | a probe timeout clears memory and the base record only |
| `WsTransport.WsSession.OnLateIdleTimer` | packages/provider-codex/src/transport-ws.ts:464-470 | the timer of an abandoned request still invalidates |
| `WsTransport.WsSession.OnFlushTimer` | packages/provider-codex/src/continuation.ts:43-56 | the Flush step |
| `WsTransport.WsSession.RestartProcess` | packages/provider-codex/src/continuation.ts:27-41 | the Restart step |
| `CodexLines.ParseSSEStream` | packages/provider-codex/src/sse.ts:32-73 | for every cutting of the text into chunks the events are those of its complete lines up to the first [DONE] |
| `CodexLines.ReadLines` | packages/provider-codex/src/sse.ts:46-65 | one batch of lines: its events up to [DONE], and whether it was met |
| `CodexLines.OnlyBeforeDone` | packages/provider-codex/src/sse.ts:49-52 | nothing after a [DONE] line is an event |
| `CodexLines.LastLineDropped` | packages/provider-codex/src/sse.ts:43-45 | an unterminated last line is no event |
| `CodexSseProofs.OutputIsWellFormed` | packages/provider-codex/src/sse.ts:179-426 | for every event sequence cut anywhere: text and reasoning deltas and ends name only what is open, ids never repeat, one finish, last |
| `CodexPartIds.TextEndsExactly` | packages/provider-codex/src/sse.ts:203-222 | every text part started is ended exactly when no message item is added while a text part is open |
| `CodexPartIds.ReasoningEndsExactly` | packages/provider-codex/src/sse.ts:557-586 | every reasoning part started is ended exactly when the stream does not stop between a reasoning delta and its done |
| `CodexPartIds.TextStartsExactly` | packages/provider-codex/src/sse.ts:446-515 | a text part is started exactly when a text delta arrived or a message item was added, and ids start at 0 |
| `CodexPartIds.ReasoningStartsExactly` | packages/provider-codex/src/sse.ts:557-586 | reasoning part n is started exactly when a reasoning delta came after n dones |
| `CodexSseProofs.DeliveredAtMostOnce` | packages/provider-codex/src/sse.ts:529-608 | before the flush, a call id has at most one tool-call exactly when it is not added again, complete, after its delivery |
| `CodexSseProofs.DeliveredOnceExactly` | packages/provider-codex/src/sse.ts:529-608 | in the whole output of any event sequence cut anywhere, a call id has at most one tool-call exactly when it is not added again, complete, after its delivery |
| `CodexSseProofs.AddedTwiceDeliveredTwice` | packages/provider-codex/src/sse.ts:463-500 | one complete call added at two indices is delivered twice |
| `CodexSseProofs.CallsAreRecovered` | packages/provider-codex/src/sse.ts:223-244 | for every cut point, a call with a non-empty argument delta or final arguments ends with exactly one tool-call, with the joined deltas or the final arguments |
| `CodexSseProofs.ProtocolDeliversOnce` | packages/provider-codex/src/sse.ts:446-608 | when each call id is added once and before its other events, no call is delivered twice |
| `CodexStream.StreamMapper.AddItem` | packages/provider-codex/src/sse.ts:446-487 | the state object follows the model's step for an added item |
| `CodexStream.StreamMapper.FinishArguments` | packages/provider-codex/src/sse.ts:529-555 | the same for final arguments |
| `CodexStream.StreamMapper.FinishItem` | packages/provider-codex/src/sse.ts:587-609 | the same for a finished item |
| `CodexStream.StreamMapper.EndResponse` | packages/provider-codex/src/sse.ts:611-652 | the same for the terminal events |
| `CodexStream.StreamMapper.MapEvent` | packages/provider-codex/src/sse.ts:435-668 | the same for every event |
| `CodexStream.StreamMapper.FlushCalls` | packages/provider-codex/src/sse.ts:223-244 | the loop over unfinished calls gives the model's flush |
| `CodexStream.StreamMapper.Flush` | packages/provider-codex/src/sse.ts:203-399 | text closed, calls flushed, one finish part |
| `CodexStream.StreamMapper.MapResponseStream` | packages/provider-codex/src/sse.ts:179-426 | the whole stream's parts |
| `RetryStream.Orchestrate` | packages/provider-codex/src/provider.ts:296-376 | the two-attempt loop computes the model's merged stream |
| `RetryStream.ObservationIsFaithful` | packages/provider-codex/src/transport-ws.ts:761-774 | the counters the classifier reads count every frame, and note a terminal event exactly when one was forwarded |
| `RetryStream.SingleSource` | packages/provider-codex/src/provider.ts:296-376 | for every pair of attempts: at most one finish (exactly one, last, if the first does not fail), all content from one attempt, and a retry exactly when the first emitted none and no terminal event arrived |
| `RetryStream.NoThirdAttempt` | packages/provider-codex/src/provider.ts:336-348 | the second attempt never asks for another |
| `RetryStream.StartedTwiceExactly` | packages/provider-codex/src/provider.ts:296-376 | in the merged stream a text or reasoning part is started at most twice, and twice exactly when there is a retry and both attempts start it |
| `RetryStream.TextIdsRepeatExactly` | packages/provider-codex/src/provider.ts:296-376 | some text id starts twice exactly when there is a retry and both attempts have a text delta or a message item |
| `RetryStream.ReasoningIdsRepeatExactly` | packages/provider-codex/src/provider.ts:296-376 | reasoning id n starts twice exactly when there is a retry and both attempts have a reasoning delta after n dones |
| `RetryStream.TextIdsMayRepeatAcrossAttempts` | packages/provider-codex/src/provider.ts:296-376 | a concrete pair of attempts whose merged stream starts the same text id twice |
| `AntmlSalvage.SalvageAntmlInvokes` | packages/provider-claude/src/antml-salvage.ts:49-68 | the calls of the text by the two patterns, none when the cheap check fails |
| `AntmlSalvage.CollectCalls` | packages/provider-claude/src/antml-salvage.ts:52-67 | the outer loop over matches |
| `AntmlSalvage.CollectParameters` | packages/provider-claude/src/antml-salvage.ts:57-64 | the inner loop over parameters |
| `AntmlSalvage.MatchNeedsInvoke` | packages/provider-claude/src/antml-salvage.ts:41-43 | the cheap check never rejects a text with a match |
| `AntmlSalvage.TailHasNoMatch` | packages/provider-claude/src/antml-salvage.ts:37-38 | text in which nothing opens, or nothing closes, gives no match |
| `AntmlSalvage.ParametersRoundTrip` | packages/provider-claude/src/antml-salvage.ts:38-64 | parameters written as blocks are scanned back |
| `AntmlSalvage.CallsRoundTrip` | packages/provider-claude/src/antml-salvage.ts:37-68 | calls written between tag-free prose are recovered, all and in order; an unclosed block after them yields none |
| `AntmlSalvage.EachParameterKept` | packages/provider-claude/src/antml-salvage.ts:60-64 | distinct parameters keep their own values |
| `ClaudeSse.TruncationReportedExactly` | packages/provider-claude/src/sse.ts:94-117 | the truncation error is given, last, exactly when message_stop never came |
| `ClaudeSseProofs.OutputIsWellFormed` | packages/provider-claude/src/sse.ts:165-361 | for every event sequence cut anywhere with new tool ids and fitting deltas: parts name only open blocks, no id starts twice, each tool-call follows its input's end once with the joined deltas or the salvaged parameters |
| `ClaudeSseProofs.FinishReasonIs` | packages/provider-claude/src/sse.ts:310-346 | finish carries the last stop reason given, mapped, or tool-calls exactly when a text block held a written call |
| `ClaudeStream.AnthropicParser.StartBlock` | packages/provider-claude/src/sse.ts:190-214 | the closure's variables follow the model |
| `ClaudeStream.AnthropicParser.GrowBlock` | packages/provider-claude/src/sse.ts:217-241 | the same for deltas |
| `ClaudeStream.AnthropicParser.EmitCalls` | packages/provider-claude/src/sse.ts:254-267 | the loop over salvaged calls |
| `ClaudeStream.AnthropicParser.StopBlock` | packages/provider-claude/src/sse.ts:244-294 | the same for a stopped block |
| `ClaudeStream.AnthropicParser.DispatchEvent` | packages/provider-claude/src/sse.ts:165-361 | the same for every event |
| `ClaudeStream.AnthropicParser.ProcessLines` | packages/provider-claude/src/sse.ts:134-163 | the events of the lines, each after its raw part |
| `ClaudeStream.AnthropicParser.ReadChunk` | packages/provider-claude/src/sse.ts:117-131 | complete lines are processed, the rest is kept |
| `ClaudeStream.AnthropicParser.FinishReading` | packages/provider-claude/src/sse.ts:88-116 | the last line is processed and truncation reported |
| `ClaudeStream.AnthropicParser.Parse` | packages/provider-claude/src/sse.ts:79-132 | for every cutting of the text into chunks the parts are those of all its lines, the unterminated last one included |
| `JsText.LinesOfAppend` | packages/provider-claude/src/sse.ts:117-127 | cutting a text anywhere and carrying the remainder gives the same lines |
| `JsText.LastNewlineSplits` | packages/provider-claude/src/sse.ts:118-127 | cutting at the last newline separates the complete lines from the remainder |
| `Breakpoints.FindReal` | packages/provider-claude/src/convert.ts:304-308 | the loop finds the last message that is no preface |
| `Breakpoints.FindFirstPreface` | packages/provider-claude/src/convert.ts:309-315 | the loop finds the first preface |
| `Breakpoints.MarkMessage` | packages/provider-claude/src/convert.ts:328-336 | the last block is marked unless it is a thinking block or there is none |
| `Breakpoints.StripPrefaces` | packages/provider-claude/src/convert.ts:345-347 | the marker field is off every message |
| `Breakpoints.ApplyConversationCacheBreakpoint` | packages/provider-claude/src/convert.ts:285-349 | the array after the call, caching on or off |
| `Breakpoints.ChoiceIsAnchored` | packages/provider-claude/src/convert.ts:304-327 | the chosen messages are real and distinct, the first is the last real one, and with the first preface at k > 0 one of them is k - 1 |
| `Breakpoints.MessageBudget` | packages/provider-claude/src/convert.ts:328-347 | at most two marks, none with caching off, no marker field left |
| `Breakpoints.PushSystemBlocks` | packages/provider-claude/src/convert.ts:397-463 | the blocks pushed, in order |
| `Breakpoints.ConvertSystemBlocks` | packages/provider-claude/src/convert.ts:387-467 | those that are not blank |
| `Breakpoints.SystemBudget` | packages/provider-claude/src/convert.ts:387-467 | at most two marks on system blocks |
| `Breakpoints.IdentityIsCached` | packages/provider-claude/src/convert.ts:415-426 | with caching on the identity carries a mark or a later kept block does |
| `Breakpoints.RequestBudget` | packages/provider-claude/src/convert.ts:249-259 | a request carries at most four marks |
| `Workspace.NormalizeWorkspaceDirectory` | packages/util/src/workspace.ts:21-44 | the loop over parts computes the normalised path |
| `Workspace.NormalizedIsCanonical` | packages/util/src/workspace.ts:21-44 | every result is a root and canonical parts |
| `Workspace.Idempotent` | packages/util/src/workspace.ts:21-44 | normalising twice is normalising once, for every string |
| `Workspace.ResultShape` | packages/util/src/workspace.ts:21-44 | no backslash, no "." part, ".." only as a leading run of a path without a root |
| `Workspace.LoneDoubleSlash` | packages/util/src/workspace.ts:15-19 | "//.." gives the empty string |
| `Identifier.Generator.Create` | packages/util/src/identifier.ts:28-47 | state and text of one identifier |
| `Identifier.FillTimeBytes` | packages/util/src/identifier.ts:40-43 | the loop that fills the six bytes |
| `Identifier.TimeBytesAreLowBits` | packages/util/src/identifier.ts:38-43 | the six bytes are the low 48 bits, of negative numbers too |
| `Identifier.OrderIsOfBits` | packages/util/src/identifier.ts:40-45 | string order is the order of the 48 bits; for the same bits the random ends decide |
| `Identifier.InOrderExactly` | packages/util/src/identifier.ts:36-45 | a later number sorts later ascending, earlier descending, exactly when its low 48 bits are greater (or the same with random ends so ordered); for numbers less than 2^48 apart, exactly when both lie in one block of 2^48 |
| `Identifier.CounterCounts` | packages/util/src/identifier.ts:31-35 | the counter numbers the identifiers of a millisecond |
| `Identifier.IdentifiersInOrder` | packages/util/src/identifier.ts:28-47 | with a clock that never goes back, fewer than 4096 identifiers a millisecond and times in one 2^36 block, ascending ones strictly increase and descending ones strictly decrease, even interleaved |
| `Identifier.NextBlockSortsEarlier` | packages/util/src/identifier.ts:36-45 | across a block boundary the order is lost |
| `SerializeStyle.DiffReachesExactly` | packages/app/src/addons/serialize.ts:298-372 | the SGR codes take the old pen to the cell's style exactly when no intensity is lost to code 22 and the null cell's colour numbers mean its colours |
| `SerializeStyle.EndingBoldEndsFaint` | packages/app/src/addons/serialize.ts:315-331 | from bold and faint to faint alone the codes leave a pen that is not faint |
| `SerializeStyle.PlainReaches` | packages/app/src/addons/serialize.ts:298-372 | between plain cells every change is reached |
| `SerializeStyle.NothingWrittenExactly` | packages/app/src/addons/serialize.ts:298-308 | no code is written exactly for equal styles |
| `SerializeStyle.FlagsReached` | packages/app/src/addons/serialize.ts:309-333 | the flag codes alone reach the flags exactly when no intensity is lost |
| `Terminal.FeedControl` | packages/app/src/addons/serialize.ts:436-436 | a control sequence, fed character by character, takes effect as written |
| `Terminal.FeedCellText` | packages/app/src/addons/serialize.ts:451-451 | a cell's text drawn at the cursor, wrapping when one is pending |
| `SerializeRow.CellDrawn` | packages/app/src/addons/serialize.ts:411-458 | one cell: the terminal follows the writer |
| `SerializeRow.CellsDrawn` | packages/app/src/addons/serialize.ts:205-214 | all cells of a row, in their columns and styles, blanks held back |
| `SerializeRow.PrintsNothingExactly` | packages/app/src/addons/serialize.ts:443-450 | a row prints nothing exactly when it is blank in one style |
| `SerializeReplay.RowDrawn` | packages/app/src/addons/serialize.ts:274-296 | one row's text draws that row on its line |
| `SerializeReplay.UptoReplayed` | packages/app/src/addons/serialize.ts:460-478 | rows with separators: every row on its line, pen equal to the noted style |
| `SerializeReplay.RowsLeftOff` | packages/app/src/addons/serialize.ts:460-467 | rows left off are blank and change no style |
| `SerializeReplay.Replay` | packages/app/src/addons/serialize.ts:193-224 | feeding the text to an empty terminal draws every non-blank cell with its text and style and nothing else; the pen is the noted style |
| `SerializeReplay.TargetIsPlaceExactly` | packages/app/src/addons/serialize.ts:274-296 | a row lands on its own line exactly when no earlier row swallows a line break |
| `SerializeReplay.ReplayInPlace` | packages/app/src/addons/serialize.ts:193-224 | when no row swallows a line break every non-blank cell is in its row and column |
| `SerializeReplay.InPlaceExactly` | packages/app/src/addons/serialize.ts:274-296 | every non-blank cell, printed spaces included, is in its row and column exactly when each one below a row that swallows a line break is repeated, text and style, by the row drawn on its line |
| `SerializeReplay.VisibleBelowIsMissing` | packages/app/src/addons/serialize.ts:274-296 | anything but blanks below such a row is enough for some cell to be out of place |
| `SerializeReplay.CursorRestored` | packages/app/src/addons/serialize.ts:480-499 | after the final sequences the pen is that of the cursor's cell and the cursor is the buffer's, on the first row when it is above the rows serialised and in the last column when it is past it |
| `SerializeHandler.StringSerializeHandler.NextCell` | packages/app/src/addons/serialize.ts:411-458 | the handler's fields follow the model's step |
| `SerializeHandler.StringSerializeHandler.RowEnd` | packages/app/src/addons/serialize.ts:274-296 | row text and separator stored, fields reset |
| `SerializeHandler.StringSerializeHandler.Row` | packages/app/src/addons/serialize.ts:201-214 | the column loop |
| `SerializeHandler.StringSerializeHandler.Rows` | packages/app/src/addons/serialize.ts:200-217 | the row loop |
| `SerializeHandler.StringSerializeHandler.KeptRows` | packages/app/src/addons/serialize.ts:460-467 | how many rows are kept |
| `SerializeHandler.StringSerializeHandler.JoinRows` | packages/app/src/addons/serialize.ts:469-476 | the kept rows joined |
| `SerializeHandler.StringSerializeHandler.SerializeAll` | packages/app/src/addons/serialize.ts:193-224 | the whole output |
| `SerializeHandler.ErasedContinuationMovesRows` | packages/app/src/addons/serialize.ts:274-296 | two three-row buffers that are not rebuilt, one ending in a letter and one in a coloured space |
| `BanTable.Bans.Check` | daemon/opencode-gateway.c:1508-1517 | membership of the stored addresses that are not whitelisted, full table included |
| `BanTable.Bans.InsertMemory` | daemon/opencode-gateway.c:1519-1531 | the set gains the address, unless the table is full |
| `BanTable.Bans.Add` | daemon/opencode-gateway.c:1533-1554 | the new set, and the line appended when the write succeeds |
| `BanTable.Bans.Load` | daemon/opencode-gateway.c:1556-1582 | the set of the file's lines |
| `BanTable.Bans.LoadLine` | daemon/opencode-gateway.c:1567-1579 | one line of it |
| `BanTable.FreeSlotMeansAbsent` | daemon/opencode-gateway.c:1511-1514 | a free slot on the probe path shows absence |
| `BanTable.FillKeepsProbed` | daemon/opencode-gateway.c:1521-1527 | filling the first free slot keeps every address reachable |
| `BanTable.FullIsCardinality` | daemon/opencode-gateway.c:1519-1531 | the table is full exactly when its set has as many addresses as slots |
| `BanTable.FormatThenParse` | daemon/opencode-gateway.c:1538-1571 | a written line is read back |
| `BanTable.ReloadIsIdentity` | daemon/opencode-gateway.c:1533-1582 | after any bans whose writes succeed, reloading the file gives the same set |
| `BanTable.LoadedAreBannable` | daemon/opencode-gateway.c:1572-1577 | no whitelisted address and no more than fit are ever loaded |
| `ConsecFail.EntriesAreStreaks` | daemon/opencode-gateway.c:1588-1611 | each entry holds its address's streak round the limit, whatever shares the slot |
| `ConsecFail.BanAskedExactly` | daemon/opencode-gateway.c:1588-1604 | a ban is asked for exactly when a failure brings the streak to a multiple of the limit |
| `ConsecFail.BanIsEarned` | daemon/opencode-gateway.c:1588-1604 | a new ban has BAN_CONSEC_MAX failures behind it with no success and no collision among them |
| `ConsecFail.BannedExactly` | daemon/opencode-gateway.c:1588-1611 | while the table has room, banned exactly when banned before or such a stretch exists |
| `ConsecFail.FailTable.Record` | daemon/opencode-gateway.c:1588-1604 | table and ban set after a failure |
| `ConsecFail.FailTable.Clear` | daemon/opencode-gateway.c:1606-1611 | table after a success |
| `AuthRing.StepKeepsValid` | daemon/opencode-gateway.c:1614-1668 | every step of the loop or a worker keeps the ring's invariant |
| `AuthRing.RunKeepsValid` | daemon/opencode-gateway.c:1614-1668 | so does every interleaving |
| `AuthRing.AnsweredOnceInOrder` | daemon/opencode-gateway.c:3164-3212 | in every interleaving each accepted job is answered at most once, in submission order, with its own verdict; a done head is announced or about to be; at rest all are answered |
| `AuthRing.RunsEnd` | daemon/opencode-gateway.c:1614-1668 | without further submissions every run of loop and workers is bounded by what is left to do |
| `AuthRing.EverythingIsAnswered` | daemon/opencode-gateway.c:3164-3212 | from any reachable state, a run without further submissions that goes on as long as it can answers every accepted job, in order, within that bound |
| `AuthRing.LiveSlotsAreNotOverwritten` | daemon/opencode-gateway.c:1633-1668 | a live slot is written only by its own worker |
| `AuthRing.AuthQueue.Submit` | daemon/opencode-gateway.c:1633-1651 | the C globals follow the Submit step |
| `AuthRing.AuthQueue.Create` | daemon/opencode-gateway.c:1653-1668 | the thread is started, or the slot given back |
| `AuthRing.AuthQueue.Authenticate` | daemon/opencode-gateway.c:1614-1619 | the verdict written outside the lock |
| `AuthRing.AuthQueue.MarkDone` | daemon/opencode-gateway.c:1621-1624 | done set under the lock |
| `AuthRing.AuthQueue.Signal` | daemon/opencode-gateway.c:1626-1628 | the eventfd written |
| `AuthRing.AuthQueue.BeginDrain` | daemon/opencode-gateway.c:3164-3168 | the eventfd read |
| `AuthRing.AuthQueue.DrainOne` | daemon/opencode-gateway.c:3170-3212 | one job answered, or the drain ended |
| `RouteTable.OrderDoesNotMatter` | daemon/opencode-gateway.c:299-309 | the answer depends on the routes, not on their order |
| `RouteTable.RemovedExactly` | daemon/opencode-gateway.c:421-431 | removal takes out exactly the routes of the prefix |
| `RouteTable.Table.Match` | daemon/opencode-gateway.c:299-309 | the longest prefix at a segment boundary, or none; the only such route when prefixes are unique |
| `RouteTable.Table.Find` | daemon/opencode-gateway.c:311-316 | the first route of a prefix |
| `RouteTable.Table.Sort` | daemon/opencode-gateway.c:217-227 | sorted by prefix length, a permutation, unchanged if sorted already |
| `RouteTable.Table.BringLongest` | daemon/opencode-gateway.c:218-226 | one round of the exchange sort |
| `RouteTable.Table.Check` | daemon/opencode-gateway.c:433-465 | the first complaint about a publish |
| `RouteTable.Table.Publish` | daemon/opencode-gateway.c:433-496 | the reply, first complaint first; the table stays sorted and gains exactly the new route; the file is rewritten when it can be |
| `RouteTable.Table.Remove` | daemon/opencode-gateway.c:421-431 | the reply; the table loses exactly the first route of the prefix; the file is rewritten when it can be |
| `RouteTable.Table.Flush` | daemon/opencode-gateway.c:278-297 | the file is the table's text, or what it was when it cannot be written |
| `RouteTable.Table.ReadPieces` | daemon/opencode-gateway.c:239-273 | the loop over lines, into the slots |
| `RouteTable.Table.ReadFile` | daemon/opencode-gateway.c:229-273 | the routes of the file, unsorted |
| `RouteTable.Table.Load` | daemon/opencode-gateway.c:229-276 | the file's routes, sorted |
| `RouteTable.Table.Reload` | daemon/opencode-gateway.c:3537-3539 | a reload of the file written last leaves the table as it is exactly when its routes are storable |
| `RouteTable.Table.FromFile` | daemon/opencode-gateway.c:3249-3249 | a table started from a file: its routes, sorted |
| `RouteReload.ReloadKeepsExactly` | daemon/opencode-gateway.c:229-297 | the file of a table of unique prefixes gives its routes again exactly when every field is free of white space and fits, every line fits (a final default auth may be cut off), and no prefix begins with # |
| `RouteReload.RestartKeepsExactly` | daemon/opencode-gateway.c:229-297 | into cleared slots, exactly when moreover no socket route had a host |
| `RouteReload.KeptAreStorable` | daemon/opencode-gateway.c:239-273 | the half that looks at every line, cut lines and their remainders included: only storable routes are read back as they were |
| `RouteRuns.RunKeepsExactly` | daemon/opencode-gateway.c:421-496 | in every run of publishes, removes, reloads and restarts whose writes succeed, each rereading keeps the routes exactly when each finds only storable ones; then the table is sorted with unique prefixes after every command and the file is the table's |
| `RouteRuns.RunHoldsRegistered` | daemon/opencode-gateway.c:421-496 | when only storable routes are published, the table holds after every command exactly the routes registered, sorted and with unique prefixes, whatever reloads and restarts there were |
| `RouteRuns.RereadUniqueExactly` | daemon/opencode-gateway.c:229-276 | whatever is in the file, a reload or restart leaves the prefixes unique exactly when no two of the lines read, as far as the slots reach, begin with the same word |
| `RouteRuns.BlankPrefixRegistersTwice` | daemon/opencode-gateway.c:433-496 | a run of two accepted publishes, one with blanks in its prefix, and a reload that leaves one prefix twice |
| `RouteFile.LineRoundTrip` | daemon/opencode-gateway.c:245-258 | a route line is scanned back, uid sign cast included, whatever stands after the uid, and is a comment exactly when its prefix begins with # |
| `RouteFile.FlushThenLoad` | daemon/opencode-gateway.c:229-297 | flush then load gives exactly the routes whose prefix does not begin with #, hosts of socket routes from the slots |
| `RouteFile.LoadsBackExactly` | daemon/opencode-gateway.c:242-242 | blank-free routes that fit load back, all of them, exactly when no prefix begins with # |
| `RouteFile.ReloadedIsSame` | daemon/opencode-gateway.c:246-258 | into slots with the same hosts they are unchanged |
| `RouteFile.HashPrefixIsLost` | daemon/opencode-gateway.c:242-242 | a route with prefix #a is written and not read back |
| `CText.PiecesOfLines` | daemon/opencode-gateway.c:240-241 | fgets cuts a line into the same pieces whatever follows it |
| `CText.FirstPiece` | daemon/opencode-gateway.c:240-241 | a line that fits the buffer is read whole |
| `CText.ScanPrintedInt` | daemon/opencode-gateway.c:246-246 | a printed integer is scanned back |
| `Base64Url.B64UrlEncode` | daemon/opencode-gateway.c:1043-1062 | the two loops give the encoding |
| `Base64Url.B64UrlDecode` | daemon/opencode-gateway.c:1064-1085 | the loops give the decoding, or failure |
| `Base64Url.RoundTrip` | daemon/opencode-gateway.c:1043-1085 | decode of encode is the identity within the buffers |
| `Base64Url.EncodingShape` | daemon/opencode-gateway.c:1043-1062 | length, and no dot |
| `Jwt.JwtSign` | daemon/opencode-gateway.c:1345-1364 | header, payload and signature joined |
| `Jwt.JwtVerify` | daemon/opencode-gateway.c:1371-1412 | the verification steps in order |
| `Jwt.NameIsFound` | daemon/opencode-gateway.c:1087-1103 | sub is found in a signed payload |
| `Jwt.ExpIsFound` | daemon/opencode-gateway.c:1105-1118 | exp is found in a signed payload, whatever the name |
| `Jwt.SignedIsAccepted` | daemon/opencode-gateway.c:1345-1412 | a token for a quote-free name is accepted exactly before expiry and while the user exists, with the same sub and exp |
| `Jwt.AcceptedIsSigned` | daemon/opencode-gateway.c:1395-1399 | only a token with the key's own signature of all before it is accepted |

## Helper facts

Small facts the results above rest on, each close to its definitions: words of prefaces do not decide
which messages are marked (`Breakpoints.PrefaceWordsDoNotMatter`), the first match in a sorted table
is the best (`RouteTable.FirstMatchIsBest`), one newline comes off each end of a parameter
(`AntmlSalvage.PaddingComesOff`), RGB cells that are not faint are plain (`SerializeStyle.RgbIsPlain`),
and the ladder asks for a retry just when a first attempt saw no terminal event
(`EmptyTurnClassifier.RetryExactlyWhenCutShort`).

## Left out

- Sockets, timers, epoll, PAM, curl, processes, signals and file system calls: they appear as steps, parameters or not at all.
- OAuth, daemon spawning and adoption, orphan cleanup, the connection counter, headers, model catalogs and beta flags.
- Logs, chain-event records and telemetry: no effect on state.
- The doGenerate collectors, the HTTP transport after the fallback, keepalive pings, and context-window bookkeeping in the Codex provider.
- Cool-down times of the disabled transport: whether it has healed is given with each turn.
- Anthropic blocks and messages shared by two positions: messages are values in an array changed in place.
- convertPrompt: its conversion of parts and the dropping of trailing assistant messages would only add easy members.
- AntmlSalvage.SalvageAntmlInvokes: gives parameters as a map; the key order of JSON.stringify and the key `__proto__` are not modelled.
- ClaudeSse.TruncationReportedExactly: identifiers are tagged by their origin, so a server's tool id that looks like `block-3` or `salvage-3` is still distinct from a generated one.
- CodexSseProofs.OutputIsWellFormed: part ids are the counters they are made from; annotations, usage details and log metadata are not modelled.
- RetryStream.SingleSource: of the transport's snapshot only what the classifier's ladder reads is modelled, and the numbering of log entries is not.
- UTF-8 decoding: chunks are chunks of decoded text. JSON syntax: a line's payload is parsed or it is not.
- BanTable.Bans.LoadLine: numbers above 255, signs or blanks in hand-edited lines, and lines longer than 63 characters, are not modelled; ban_add writes none.
- BanTable.Bans.Load: the lines are those of `Bans.LoadLine`, whole.
- RouteTable.Table.Publish: takes the fields as json_extract_str left them; the scan of the control line and atoi are not modelled.
- CText.ScanPrintedInt: numbers are unbounded; a %d that overflows has no defined meaning in C.
- Base64Url.B64UrlDecode: EVP_DecodeBlock's trimming of white space around its input is not modelled; the encoder writes none.
- AuthRing.AnsweredOnceInOrder: client sockets, the clearing of passwords and the HTTP answers are left out; the ticket of a job is bookkeeping of the model.
- SerializeHandler.StringSerializeHandler.SerializeAll: of the handler's fields, those written and never read (`_lastCursorRow`, `_lastCursorCol`, `_lastContentCursorCol`) are left out, as are serializeAsText, the alternate buffer's prefix and ranges starting in mid-row.
- Identifier.Generator.Create: the random part is given; timestamps are whole and not negative.
- Aliasing, garbage and timing of JavaScript promises: a call's steps between two waits are one step.
