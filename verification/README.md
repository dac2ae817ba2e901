# Verified model of the chat bridge

This project models the hard parts of a bridge between one chat frontend and any number of command-line
backends, and proves their properties for every input, every run and every interleaving.

Each source component is a module of its own. An operation that changes fields is a method of a class with
those fields, proved equal to a function on values and, clause by clause, to what its source does; a concurrent protocol is a step machine over those same
functions (`Runs.dfy`), in which a section held under a lock is one step and anything outside a lock is a
step of its own. Results of whole runs are lemmas about sequences of steps.

- **Delivery of final answers.** `TerminalSender.dfy` is the backend's two retry loops, as a step machine and as
  the loops that follow it; `TerminalDelivery.dfy` the handler, queue, pump and dispatcher that receive the
  copies; `TerminalJourney.dfy` both with the network between them, one machine; `LateFrames.dfy` the progress
  frames that race with final cards, and `FinalCards.dfy` when a closed card stays as it is;
  `OutageDebounce.dfy` the offline timers with their generation tokens.
- **Memory and persistence.** `ReplayGuard.dfy` is the TTL/LRU set against a plain history;
  `SaveCoalescer.dfy` the session router's save worker; `RoutingTable.dfy` the chat routes, saved by each caller.
- **Streams.** `LineReader.dfy` and `StreamArchive.dfy` compute functions of the concatenated bytes,
  whatever the buffering; `TextLines.dfy` and `ByteText.dfy` are what they share.
- **Document conversion.** `ListNumbering.dfy` (ECMA-376 Part 1, section 17.9), `SheetParser.dfy` (section
  18.3.1.4) with `SheetCells.dfy` and `SheetReadBack.dfy`, `GfmTable.dfy`, `Fences.dfy` (GitHub Flavored Markdown, sections 4.10 and 4.5) and
  `CodeParagraphs.dfy`.
- **Small protocols.** `TurnSlots.dfy`, `TokenFlight.dfy`, `AnswerBroker.dfy`, `Reconnect.dfy`, `Health.dfy`.

What the network, the chat service, timers, the clock, the random draw and the JSON, XML and CSV codecs do is a
parameter or a step of the environment; nothing is assumed of them beyond what a row says. In
`TerminalJourney.dfy` the emission's timers fire when due, nobody else posts a final control for its prompt, and a
turn starts before its backend can answer it; requests and replies may be lost or arrive at any later time.

## Where the code and its documentation differ

The code is modelled as it is. Each difference has a lemma with a concrete run or the exact condition.

- The finalized marker is said to stop late progress frames (internal/feishufront/dispatcher.go:353-356). It is
  cleared right after the terminal is sent; what stops them is the missing turn
  (`LateFrames.MarkerNeverStopsAFrame`). Frames of a batch already swapped out still arrive
  (`LateFrames.OldBatchOverwritesFinal`), and the patch and reclaim paths have no flush at all. `FinalCards` says
  for each of the three ways to close a card exactly when it stays.
- The generation token is said to suppress a stale offline callback (internal/feishufront/dispatcher_backend.go:89-94).
  Deleting the entry restarts the count, so a leftover callback can match a new entry
  (`OutageDebounce.CleanCreationIsNeeded`). Turns are reclaimed outside the lock, so a new turn can be hit
  (`OutageDebounce.TurnSurvivesExactlyWhen`).
- A terminal send is said to release the turn whether or not it succeeded
  (internal/feishufront/dispatcher_control.go:180-182). The patch branch does not
  (`TerminalDelivery.OpenExactlyUntilLetGo`).
- The line reader strips CR LF and truncates like the batch helper, except at a buffer boundary
  and inside a rune (`LineReader.LineIsBatchReadingExactlyWhen`).
- The routing table's saves can leave an older table on disk (`RoutingTable.OverlapLosesARoute`,
  `RoutingTable.CalmIsNeeded`).
- A retried final control is said to be a harmless no-op (internal/miniagent/prompt_result.go:29-31). It is while
  copies are dispatched within 573 s of their POSTs (`TerminalJourney.NeverTwiceExactlyWithin`).
- A backend that answers is said to have its count reset between ticks
  (internal/feishufront/ipcserver/ipcserver_health.go:29-31). It is exactly when a pong comes after the count
  (`Health.NeverOwesExactlyWhen`). A ping can be counted on another connection than it is sent to
  (`Health.StalePingsExactlyWhen`), and an eviction can hit a connection that is not the one judged or is healthy again
  (`Health.StaleEvictionsExactlyWhen`).
- The event guard's cap is there to bound its growth (internal/feishufront/dedup.go:27-33); under enough new
  ids it forgets one still within its TTL (`ReplayGuard.CappedIsExact`).
- A worksheet's rows are taken to come one after another (internal/fileconvert/convert_xlsx_sheet.go:161-240). A row
  inside a row can lose a cell or show it twice; `SheetCells.EachCellOnceExactlyWhen` says which streams are safe.
- An archive line is redacted once; a line cut by the cap can become redactable
  (`StreamArchive.CutObjectIsRedactedLater`).
- Soft breaks in code paragraphs are said to become newlines (internal/fileconvert/convert_docx_emit.go:66-68);
  `CodeParagraphs.CodeReadsExactlyWhen` says when.

## Model

| member | source | states |
|---|---|---|
| `TerminalSender.SendControl` | internal/backendrpc/client.go:479-581 | nil only for a last POST answered 202 inside the deadline; at most four POSTs; every earlier one was lost or had a status that is neither 202 nor in 400..499; an error before the deadline and the fourth POST carries a status in 400..499; the elapsed time is exactly the replies and the 100, 200, 400 ms waits, or the deadline when those would pass it; an invalid control makes no POST; and it takes the sender machine from the start of an attempt to its end |
| `TerminalSender.RepliesDecide` | internal/backendrpc/client.go:515-559 | the sender machine by numbers: 202 ends the emission, 400..499 and a fourth reply end the attempt, and any other reply, 5xx included, or an error is followed by a pause of 100, 200 or 400 ms and never by giving up |
| `TerminalSender.TimersDecide` | internal/miniagent/prompt_result.go:42-72 | a reply that does not come by the deadline, or a pause that reaches it, ends the attempt; otherwise the next POST follows the pause and an attempt of five seconds the backoff |
| `TerminalSender.EmitTerminalControl` | internal/miniagent/prompt_result.go:32-106 | nil without an IPC client, otherwise the sender machine played on whatever network: same verdict, number of POSTs and end; nil only when the last POST was answered 202; at most 16 POSTs; before four attempts it gives up only on shutdown; an empty prompt id is filled in |
| `TerminalSender.StepStaysOnTime` | internal/miniagent/prompt_result.go:42-72 | every step taken when due keeps each attempt inside the waits and timeouts before it |
| `TerminalSender.SpanIsBounded` | internal/miniagent/prompt_result.go:98-106 | an emission that is on time is over, or acts again, within 27 s of its start |
| `TerminalDelivery.ControlIngress.ReceiveControl` | internal/feishufront/registry.go:488-495 | appends at the back exactly when fewer than 1024 controls wait, otherwise leaves the queue alone |
| `TerminalDelivery.ControlIngress.HandleControl` | internal/feishufront/ipcserver/ipcserver_control.go:23-92 | 202 exactly for an authorised, named, registered, bound, decodable, valid request that is a pong or found room; a control is queued exactly on such a 202 that is no pong; a pong clears the missed-pong count; 401 exactly for a failed authorisation, 403 for a bad token, 4xx exactly for a failed authorisation, an empty backend id, or a token, body or validation failure of a registered backend |
| `TerminalDelivery.ShownAtMostOnce` | internal/feishufront/dispatcher_control.go:187-212 | whatever fails and falls back, one dispatch of a terminal shows it at most once, with at most two calls, and only the last call can have succeeded |
| `TerminalDelivery.ShownExactlyWhenTaken` | internal/feishufront/dispatcher_control.go:187-341 | one dispatch of a terminal has exactly one successful call if and only if it renders and the chat service takes it by one of its kind's ways: a result as a card or, its content rejected, as text; a notice on its turn's card or as a card; a patch on its target or, that gone, as a card; the first call goes to the card meant |
| `TerminalDelivery.Dispatcher.SendTerminalCard` | internal/feishufront/dispatcher_control.go:187-212 | tries the progress card in place, then a fresh card; the turn is finished on every path |
| `TerminalDelivery.Dispatcher.SendResult` | internal/feishufront/dispatcher_control.go:214-275 | with a render, the first call is a fresh card with the outcome the chat service gave it, and plain text follows exactly when the content was rejected and there is text; without one there is no call; the turn is finished on every path |
| `TerminalDelivery.Dispatcher.SendNoticeControl` | internal/feishufront/dispatcher_control.go:297-383 | call by call: the patch branch updates the card the control names, sends a fresh one when that is gone, and finishes the turn only if one of them worked; a notice goes to its turn's card and to a fresh one where there is none or the update fails, and always finishes the turn |
| `TerminalDelivery.Dispatcher.DispatchControl` | internal/feishufront/dispatcher_control.go:20-96 | a terminal already accepted by the replay guard changes nothing; a new one is rendered, recorded with its turn's card and the calls its branch makes, and releases its turn as that branch does; an empty prompt id is never deduplicated; a picker takeover finishes its turn; nothing else touches guard or turns |
| `TerminalDelivery.UncappedAdd` | internal/feishufront/dispatcher.go:249-272 | the terminal guard, built without a cap, behaves as a function of what it has seen: the step of the replay guard model, exactly |
| `TerminalDelivery.QueuedIsDispatchedOrWaiting` | cmd/feishu-front/main.go:236-262 | in every run, what the handler queued is what the pump dispatched, in order, followed by what still waits |
| `TerminalDelivery.HistoryAnswers` | internal/feishufront/dispatcher_control.go:46-50 | the guard accepts a prompt exactly when history has no rendering of it in the last ten minutes |
| `TerminalDelivery.GuardAlwaysHistory` | internal/feishufront/dispatcher.go:347-351 | in every run, sweeps included, the guard remembers the last rendering of each prompt unless it has expired |
| `TerminalDelivery.RenderedExactlyWhenNew` | internal/feishufront/dispatcher_control.go:34-56 | in every run the next terminal is dispatched with the card of its open turn, and rendered if and only if it has no prompt id or no copy was rendered in the last ten minutes |
| `TerminalDelivery.RenderedAreShownIfTaken` | internal/feishufront/dispatcher_control.go:34-275 | in every run, each rendered entry of the log has exactly one successful call if and only if its terminal rendered and the chat service took it |
| `TerminalDelivery.FirstIsRendered` | internal/feishufront/dispatcher_control.go:34-56 | if all copies of a prompt are dispatched within the TTL of the first, the first and only the first is rendered |
| `TerminalDelivery.FirstIsNeverRefused` | internal/feishufront/dispatcher_control.go:34-56 | in every run, with any gaps, a prompt of which a copy was dispatched was rendered at least once |
| `TerminalDelivery.HandledTurnsAreReleased` | internal/feishufront/dispatcher_control.go:187-275 | in every run the turn of a prompt whose terminal was handled is gone and stays gone, except after an undeliverable patch |
| `TerminalDelivery.CopyIsRefused` | internal/feishufront/dispatcher_control.go:46-50 | within the TTL every further copy of a rendered prompt is refused, so it cannot release the turn either |
| `TerminalDelivery.OpenExactlyUntilLetGo` | internal/feishufront/dispatcher_control.go:297-341 | a turn nothing else ends is open if and only if its terminal has not been handled by a branch that lets go of it: a failed UpdateMessageID delivery keeps it open whatever copies follow |
| `TerminalJourney.FrontRunsAlone` | cmd/feishu-front/main.go:236-262 | whatever the emission and the network do, the frontend lives through one of its own runs, traffic and sweeps included |
| `TerminalJourney.StepKeepsMarks` | internal/feishufront/ipcserver/ipcserver_control.go:40-92 | under each step: every copy accepted came from its own POST, which was answered 202, and every POST answered 202 has its copy among those accepted |
| `TerminalJourney.StepKeepsAcknowledged` | internal/miniagent/prompt_result.go:57-72 | under each step: the emission ends with nil only if a POST of its was answered 202 by the handler |
| `TerminalJourney.AlwaysAccounted` | internal/miniagent/prompt_result.go:32-73 | in every interleaving of the emission, the network and the frontend those two hold, every POST is made within 27 s and every copy is dispatched after its POST |
| `TerminalJourney.EachAnswerIsACopy` | internal/feishufront/ipcserver/ipcserver_control.go:40-92 | conservation: copies dispatched plus copies waiting are as many as POSTs answered 202, whether the answers arrived or not |
| `TerminalJourney.RenderingIsTheCopy` | internal/feishufront/dispatcher_control.go:34-56 | in every journey that renders the prompt, the entry that did is of the emission's own control, shown exactly when the chat service took it |
| `TerminalJourney.NeverLost` | internal/miniagent/prompt_result.go:32-73 | once no copy waits, the terminal was rendered if and only if some POST was answered 202, and so whenever the emission ended with nil, however late the copies were dispatched |
| `TerminalJourney.NeverTwice` | internal/feishufront/dispatcher_control.go:34-56 | copies dispatched at most 573 s after their POSTs are rendered at most once, however the emission ended |
| `TerminalJourney.NeverTwiceExactlyWithin` | internal/feishufront/dispatcher.go:249-272 | that bound is exact: for a delay there is no journey rendering twice if and only if the delay is at most the TTL less the 27 s of the emission |
| `TerminalJourney.ExactlyOnce` | internal/miniagent/prompt_result.go:32-73 | over every interleaving of lost and late requests and replies, retries, queueing and other traffic: an emission that ended with nil, its copies dispatched in time, has its terminal rendered exactly once; that one entry is of this control and has exactly one successful call if and only if it rendered and the chat service took it; the turn is gone unless it was a patch that was not shown |
| `TerminalJourney.RenderedTwice` | internal/feishufront/dispatcher.go:249-272 | witness: a last copy one millisecond beyond the bound is rendered again |
| `TerminalJourney.ErrorMayStillBeShown` | internal/miniagent/prompt_result.go:48-54 | witness: an emission ended by shutdown with an error whose terminal was rendered |
| `LateFrames.CardDebouncer.Enqueue` | internal/feishufront/debouncer.go:43-48 | the latest frame and entity id of a card replace the earlier ones |
| `LateFrames.CardDebouncer.Swap` | internal/feishufront/debouncer.go:62-68 | hands out everything pending and leaves the buffer empty |
| `LateFrames.CardDebouncer.Flush` | internal/feishufront/debouncer.go:62-79 | sends every pending frame exactly once, to its own card and entity, in some order, and nothing else |
| `LateFrames.CardFront.UpdateCard` | internal/feishufront/dispatcher.go:357-369 | a finalized card takes no frame; any other has its pending frame and the entity id kept for it replaced, those of all other cards staying |
| `LateFrames.CardFront.UpdateProgress` | internal/feishufront/dispatcher_control.go:119-166 | a progress control without an open turn leaves no trace; with one, the pending frame of its card is replaced and is addressed to the entity given when the turn was started; every pending frame is addressed to the entity of its card |
| `LateFrames.CardFront.MarkFinalized` | internal/feishufront/dispatcher_control.go:537-544 | marks the card, if there is one |
| `LateFrames.CardFront.CleanupProgress` | internal/feishufront/dispatcher_control.go:525-532 | clears the card's marker, if there is one |
| `LateFrames.CardFront.SendNotice` | internal/feishufront/dispatcher_control.go:377-382 | every pending frame goes out once, to the entity of its card, then the final update to the turn's card and entity, then a fresh card where the update is impossible or fails; the turn and the marker are gone on every path |
| `LateFrames.CardFront.TakeOver` | internal/feishufront/dispatcher_interactive.go:124-150 | with an open turn every pending frame goes out once, to the entity of its card, then the picker on the turn's card and entity or, if that fails, in a card of its own; the turn is finished; without a turn only the new card is sent |
| `LateFrames.EnqueueConserves` | internal/feishufront/debouncer.go:43-48 | enqueueing gives the new frame one place and moves the one it replaces to the overwritten ones |
| `LateFrames.EachFrameHasOneFate` | internal/feishufront/debouncer.go:43-97 | in every interleaving every frame is in exactly one place: pending, in one goroutine's batch, overwritten before a swap, or sent; none is sent twice |
| `LateFrames.StepKeepsOwned` | internal/feishufront/turn.go:59-103 | every step keeps open turns on cards of their own prompt |
| `LateFrames.StepKeepsShut` | internal/feishufront/dispatcher_control.go:119-212 | every step of the pump, the ticker and a reclaim keeps a closed card out of the buffer, out of later batches and off every open turn |
| `LateFrames.LateFramesAreOld` | internal/feishufront/dispatcher_control.go:377-382 | once the pump has swapped out the frames of a card it is closing, only its own flush, before the final update, and a batch the ticker swapped out earlier can still reach that card |
| `LateFrames.FinalForever` | internal/feishufront/dispatcher_control.go:187-201 | a card closed while the ticker held no frame of it shows its final content for ever, short of a reclaim or a patch of that card: the half of ClosedStaysFinalExactlyWhen that is an induction |
| `LateFrames.MarkerNeverStopsAFrame` | internal/feishufront/dispatcher.go:357-369 | the finalized marker can stop a progress frame only while a reclaim of that card is closing; otherwise the check always passes and what stops late frames is the missing turn |
| `LateFrames.OldBatchOverwritesFinal` | internal/feishufront/debouncer.go:81-97 | witness: a batch swapped out before the pump's flush lands on the final card |
| `LateFrames.PatchIsOverwritten` | internal/feishufront/dispatcher_control.go:302-341 | witness: an UpdateMessageID patch neither flushes nor closes, and a pending frame overwrites it |
| `LateFrames.ReclaimIsOverwritten` | internal/feishufront/dispatcher_backend.go:218-257 | witness: a frame let through before a reclaim is shown over the failure card |
| `FinalCards.ClosedStaysFinalExactlyWhen` | internal/feishufront/dispatcher_control.go:377-382 | a closed card that shows its final content keeps it in every continuation that does not rewrite it on purpose if and only if neither goroutine holds a frame of it |
| `FinalCards.PatchStaysExactlyWhen` | internal/feishufront/dispatcher_control.go:302-341 | a patched card keeps the patch in every such continuation if and only if no frame of it was pending or with the ticker and no other prompt's turn is open on it |
| `FinalCards.ReclaimStaysExactlyWhen` | internal/feishufront/dispatcher_backend.go:218-257 | no frame is ever shown over a reclaimed card in such a continuation if and only if none was pending, in either goroutine's batch, or in the pump's hands |
| `FinalCards.InertForEver` | internal/feishufront/dispatcher_control.go:119-166 | a card whose turn is over and of which no frame is under way shows no frame again in any continuation |
| `FinalCards.PendingFrameLands` | internal/feishufront/debouncer.go:81-97 | from any state, a pending frame reaches its card by steps of the ticker alone |
| `OutageDebounce.FlapTable.OnBackendOffline` | internal/feishufront/dispatcher_backend.go:54-87 | an unconfirmed entry is re-armed with the next generation and a fresh timer, a confirmed one is left alone |
| `OutageDebounce.FlapTable.FireOfflineNotice` | internal/feishufront/dispatcher_backend.go:95-105 | posts exactly when the entry exists with the generation the timer was armed with, and then confirms the outage |
| `OutageDebounce.FlapTable.OnBackendOnline` | internal/feishufront/dispatcher_backend.go:118-151 | removes the entry, stops a pending timer, and posts exactly for a confirmed outage |
| `OutageDebounce.TurnManager.ReclaimBackend` | internal/feishufront/turn.go:113-124 | releases and returns exactly the turns the backend owns |
| `OutageDebounce.TimerIffUnconfirmed` | internal/feishufront/dispatcher_backend.go:141-145 | in every run an entry has a timer exactly when its outage is unconfirmed: the branch that finds neither is dead |
| `OutageDebounce.ReclaimsMatchConfirmedOutages` | internal/feishufront/dispatcher_backend.go:106-112 | in every run reclaims done and due equal the confirmed outages: turns are reclaimed only after a confirmed offline |
| `OutageDebounce.NextKeepsInv` | internal/feishufront/dispatcher_backend.go:54-151 | every step that creates entries cleanly keeps the invariant behind the two results below |
| `OutageDebounce.DecisionsAlternate` | internal/feishufront/dispatcher_backend.go:54-151 | in every run without a stale callback at an entry's creation, offline and recovery decisions of a backend alternate, offline first |
| `OutageDebounce.OnlyAQuietOutagePosts` | internal/feishufront/dispatcher_backend.go:89-105 | in such a run only the callback armed last posts, after a whole window without a connect or disconnect |
| `OutageDebounce.CleanCreationIsNeeded` | internal/feishufront/dispatcher_backend.go:73-80 | an entry created now is followed by alternating decisions in every continuation if and only if no callback of that backend is outstanding |
| `OutageDebounce.StaleCallbackBreaks` | internal/feishufront/dispatcher_backend.go:136-138 | with one outstanding, a continuation exists in which two offline decisions follow each other |
| `OutageDebounce.LateReclaimHitsANewTurn` | internal/feishufront/dispatcher_backend.go:199-211 | witness: reclaiming runs outside the lock and can release the new turn of a backend that has recovered |
| `OutageDebounce.TurnSurvivesExactlyWhen` | internal/feishufront/dispatcher_backend.go:106-112 | an open turn survives every continuation without a new confirmed outage of its backend if and only if no earlier confirmed outage of it is still to be reclaimed |
| `ReplayGuard.DedupSet.Add` | internal/feishufront/dedup.go:41-74 | accepts an empty, unknown or expired id and refreshes it; at the cap, a new id first evicts an entry with the least timestamp |
| `ReplayGuard.DedupSet.Delete` | internal/feishufront/dedup.go:81-88 | removes the id, and only it |
| `ReplayGuard.DedupSet.Prune` | internal/feishufront/dedup.go:93-108 | keeps exactly the entries not older than the TTL and counts the others |
| `ReplayGuard.DedupSet.Configure` | internal/feishufront/dedup.go:139-144 | replaces TTL and cap, nothing else |
| `ReplayGuard.EntriesAreRecords` | internal/feishufront/dedup.go:41-108 | in every run an entry holds the time of its id's last accepted, undeleted Add |
| `ReplayGuard.MissingMeansExpired` | internal/feishufront/dedup.go:93-108 | without a cap, an id recorded and now missing has expired |
| `ReplayGuard.TtlOnlyAnswersAreHistory` | internal/feishufront/dedup.go:41-108 | TTL only: Add refuses exactly when the last accepted, undeleted Add of the id is at most the TTL old |
| `ReplayGuard.SizeWithinCap` | internal/feishufront/dedup.go:58-74 | with a cap, the size never exceeds it |
| `ReplayGuard.RefusalIsJustified` | internal/feishufront/dedup.go:46-57 | in every mode a refusal is justified by a record, at most the TTL old when there is one |
| `ReplayGuard.PressureDecides` | internal/feishufront/dedup.go:41-108 | capped, under any mix of additions, deletions and sweeps with distinct clock values: an id whose record is live is in the set exactly while the other ids accepted since and not deleted never were a cap's worth at once, and the set then holds exactly those besides older entries |
| `ReplayGuard.CappedIsExact` | internal/feishufront/dedup.go:41-88 | capped: Add accepts an id if and only if it has no undeleted record, the record has expired, or since then a cap's worth of other ids was accepted and undeleted at once |
| `ReplayGuard.PeakWithinAccepted` | internal/feishufront/dedup.go:58-88 | that pressure never passes the number of other ids accepted since the record, and is that number where nothing is deleted |
| `ReplayGuard.DeletionRelieves` | internal/feishufront/dedup.go:81-88 | witness: with a cap of two, two ids accepted one after the other around a deletion do not push the first one out |
| `ReplayGuard.CappedDuplicateNeedsPressure` | internal/feishufront/dedup.go:58-74 | an undeleted duplicate within the TTL is accepted only after at least a cap's worth of distinct other ids was accepted since it was recorded |
| `ReplayGuard.CappedIsExactWithoutDeletes` | internal/feishufront/dedup.go:58-74 | a special case: where nothing is deleted, an unexpired duplicate is accepted exactly when a cap's worth of other ids was accepted since its record |
| `ReplayGuard.AddRespectsAlike` | internal/feishufront/dedup.go:41-74 | two guards that agree on what has not expired answer alike and stay so |
| `ReplayGuard.PruneIsUnobservable` | internal/feishufront/dedup.go:93-108 | for any cap and any TTL above zero, a run with sweeps gives the answers of the same run without them |
| `ReplayGuard.PruneIsInvisibleExactlyWhen` | internal/feishufront/dedup.go:93-108 | a sweep changes no answer from its time on exactly when the TTL is positive or the sweep removes nothing |
| `SaveCoalescer.Router.SaveAsync` | internal/router/persistence.go:149-159 | a signal is pending afterwards, and never more than one |
| `SaveCoalescer.Router.Bind` | internal/router/binding.go:10-25 | stores the binding and signals |
| `SaveCoalescer.Router.Unbind` | internal/router/binding.go:28-35 | removes the binding and signals |
| `SaveCoalescer.Router.Mutate` | internal/router/accessors.go:17-31 | signals exactly when the patch changes an existing binding, and reports that |
| `SaveCoalescer.Router.WriteWithRetries` | internal/router/persistence.go:98-143 | the file holds the payload exactly if one of the attempts works, and the first that works ends the loop |
| `SaveCoalescer.RetriesAreSteps` | internal/router/persistence.go:98-143 | the machine's write steps on one snapshot do to the file what that loop does |
| `SaveCoalescer.NextKeepsOrder` | internal/router/persistence.go:98-178 | every step keeps snapshots and disk in the order of memory's history, everything accounted for, and the disk never older |
| `SaveCoalescer.NothingIsLost` | internal/router/persistence.go:149-178 | in every run memory differs from the file only while a signal is pending, the worker has taken one without a snapshot, an unwritten snapshot is current, or the save that ended last ran out of attempts |
| `SaveCoalescer.IdleMeansSaved` | internal/router/persistence.go:164-178 | an idle worker without a signal means the file is up to date, unless the save that ended last ran out of attempts |
| `SaveCoalescer.DiskNeverMovesBack` | internal/router/persistence.go:98-143 | the file always holds a past memory state and never an older one than before |
| `SaveCoalescer.CloseSavesEverything` | internal/router/router.go:105-117 | after a Close whose save worked, with no change after its snapshot, the file equals memory |
| `SaveCoalescer.CloseLeadsToASave` | internal/router/router.go:105-117 | Close can be carried through: with the worker idle its steps leave the file equal to memory |
| `SaveCoalescer.SignalLeadsToASave` | internal/router/persistence.go:164-178 | a pending signal can be acted on: with the worker idle its next three steps leave the file equal to memory |
| `SaveCoalescer.AfterCloseTheFileIsFrozen` | internal/router/router.go:105-117 | after a Close whose save worked the file holds the version Close took, whatever is done later |
| `RoutingTable.Layer1Router.Bind` | internal/feishufront/routing.go:123-128 | the section under the table lock: stores the route with its times; a save is due |
| `RoutingTable.Layer1Router.Snapshot` | internal/feishufront/routing.go:90-96 | the section under the read lock: this save will write the table as it is now |
| `RoutingTable.Layer1Router.PersistFile` | internal/feishufront/routing.go:133-144 | the section under the save lock: the file becomes that snapshot if the write works |
| `RoutingTable.Layer1Router.Set` | internal/feishufront/routing.go:123-130 | undisturbed, the file holds the changed table afterwards, or what it held if the write fails |
| `RoutingTable.Layer1Router.PruneRoutes` | internal/feishufront/routing.go:184-198 | drops exactly the chats last heard of before the cutoff and counts them; nothing without a positive TTL |
| `RoutingTable.LastWriteDecides` | internal/feishufront/routing.go:89-144 | at every point of every run the file holds the table as it was when the save that wrote last took its snapshot |
| `RoutingTable.SettlesExactlyWhenUpToDate` | internal/feishufront/routing.go:89-144 | with the table left alone, the outstanding saves bring the file to it in every order of finishing if and only if none holds an outdated snapshot and, with none left, the file is the table already |
| `RoutingTable.CalmRunsSave` | internal/feishufront/routing.go:89-144 | in every run that changes the table only while no snapshot waits for the save lock, the file equals the table whenever no save is outstanding |
| `RoutingTable.CalmIsNeeded` | internal/feishufront/routing.go:123-144 | after such a run a change is saved in every continuation if and only if no snapshot is waiting when it is made |
| `RoutingTable.OverlapLosesARoute` | internal/feishufront/routing.go:89-144 | witness: two overlapping calls of Set end with every write done and a file that lacks the second route |
| `LineReader.Truncate` | internal/strutil/strutil.go:14-32 | keeps short text, cuts longer text at the last rune start up to n and appends dots, or gives the dots alone |
| `LineReader.TruncateKeepsUtf8` | internal/strutil/strutil.go:14-32 | valid UTF-8 stays valid, within n bytes and the dots |
| `LineReader.LineReader.ReadSlice` | internal/linereader/linereader.go:53-56 | what the buffered reader hands out for any buffer size: up to the newline, a full buffer, or the rest |
| `LineReader.LineReader.DiscardLine` | internal/linereader/linereader.go:119-126 | drops the rest of the record through its newline |
| `LineReader.LineReader.StripNewline` | internal/linereader/linereader.go:106-114 | removes one LF and the CR in front of it |
| `LineReader.LineReader.ReadLine` | internal/linereader/linereader.go:46-103 | for every stream, buffer size and cap, consumes exactly through the next newline or the end, gives the line, flag and error of the record, and never accumulates more than the cap and one buffer; the end of the stream or a failure is reported exactly when nothing is left, and otherwise something is consumed and no error reported; a cap of zero or less is refused |
| `LineReader.ReadAll` | internal/linereader/linereader.go:46-103 | reading until an error ends, with EOF or the read error, and has read exactly the records of the stream in order, each as its line |
| `LineReader.ErrorsAtTheEnd` | internal/linereader/linereader.go:67-103 | an error is reported exactly on an empty rest, by whether the stream ended or failed, and every record shortens the rest |
| `LineReader.FlaggedExactlyWhenLong` | internal/linereader/linereader.go:57-103 | a record is flagged exactly when its text is longer than the cap |
| `LineReader.CutIsBatchTruncationExactlyWhen` | internal/linereader/linereader.go:76-90 | the text is the batch truncation of the record exactly when it was not cut mid-line or the byte at the cut starts a rune |
| `LineReader.LineIsBatchReadingExactlyWhen` | internal/linereader/linereader.go:57-103 | the line handed out is the whole record, stripped of its LF or CR LF and truncated, exactly when no CR kept at a buffer boundary counts (the stripped record is longer than the cap) and a cut made at a full buffer falls on a rune start |
| `LineReader.FailedRecordIsWhole` | internal/linereader/linereader.go:96-103 | a record ended by a read error before any cut is handed out whole and unflagged, whatever the cap |
| `LineReader.MidLineCutIsValidExactlyWhen` | internal/linereader/linereader.go:78-90 | on valid text the mid-line cut is valid exactly when it falls on a rune boundary |
| `LineReader.RecordsRebuildTheStream` | internal/linereader/linereader.go:46-103 | a CR-free stream without over-long records comes back from its records, whatever the buffer size |
| `LineReader.CrKeptAtTheBoundary` | internal/linereader/linereader.go:57-63 | witness for every buffer size: a CR LF record that keeps its CR |
| `LineReader.RuneSplitMidLine` | internal/linereader/linereader.go:86-90 | witness for every buffer size: a valid record cut inside a rune |
| `LineReader.CutInsideIsInvalid` | internal/strutil/strutil.go:14-32 | a cut in front of a continuation byte makes valid text invalid |
| `StreamArchive.RedactMap` | internal/streamarchive/redact.go:115-123 | every sensitive key of the object is masked, every other value redacted in turn |
| `StreamArchive.RedactValue` | internal/streamarchive/redact.go:128-137 | objects and arrays are redacted inside, everything else is kept |
| `StreamArchive.OtherPathsKept` | internal/streamarchive/redact.go:115-137 | a path without sensitive keys leads to the same value, redacted |
| `StreamArchive.SensitiveKeysRedacted` | internal/streamarchive/redact.go:115-137 | every sensitive key present, at any depth, reads "[REDACTED]" afterwards |
| `StreamArchive.FixedExactlyWhenClean` | internal/streamarchive/redact.go:115-137 | redaction leaves a tree unchanged exactly when no sensitive key holds anything but the mask |
| `StreamArchive.RedactIsIdempotent` | internal/streamarchive/redact.go:115-137 | redacting twice is redacting once |
| `StreamArchive.CappedWriter.Write` | internal/streamarchive/sink.go:174-196 | the file is the input so far if it fits the limit, otherwise its first limit bytes and one marker; the caller is always told everything was written |
| `StreamArchive.RedactingWriter.ForwardLines` | internal/streamarchive/redact.go:53-72 | every complete line is forwarded redacted, the partial line stays pending |
| `StreamArchive.RedactingWriter.Write` | internal/streamarchive/redact.go:53-72 | the destination has received the redaction of all complete lines written so far |
| `StreamArchive.RedactingWriter.Close` | internal/streamarchive/redact.go:78-85 | the unterminated rest is redacted and flushed without a newline |
| `StreamArchive.Archive` | internal/streamarchive/sink.go:163-196 | for every slicing of the same output into writes, the file after Close is the redaction of the whole output, or its first limit bytes and the marker where it is longer |
| `StreamArchive.ArchivedLinesAreRedacted` | internal/streamarchive/redact.go:53-113 | each complete line of an archive file, up to where the cap cuts it, belongs to the same line of the output: if that is an object or null that can be written down, it parses as the masked tree, with no sensitive key left at any depth; any other line stands as it was |
| `StreamArchive.StreamIsRedacted` | internal/streamarchive/redact.go:53-113 | the same for the whole uncapped stream, its unterminated last line included |
| `StreamArchive.ArchiveTwice` | internal/streamarchive/sink.go:174-196 | archiving an archive file again, cap included, changes nothing if and only if the file was not capped or redaction leaves the start of the line the cap cut as it is |
| `StreamArchive.RedactionTwice` | internal/streamarchive/redact.go:100-113 | redacting uncapped output again changes nothing |
| `StreamArchive.CutObjectIsRedactedLater` | internal/streamarchive/sink.go:183-191 | witness: a line that is an object and more is archived as it stands, cut behind the object, and redacted the second time |
| `ListNumbering.ListState.CloseDeeper` | internal/fileconvert/convert_docx_numbering.go:189-195 | drops the counters of exactly the deeper levels of the same list |
| `ListNumbering.ListState.Marker` | internal/fileconvert/convert_docx_numbering.go:180-207 | nothing for an undefined item, whose counters stay; otherwise the counters of deeper levels of the list go and all others stay, a bullet or the number after the last one, or the start, at the item's own level, and the text says just that number |
| `ListNumbering.CountedSnoc` | internal/fileconvert/convert_docx_numbering.go:162-170 | how one more item changes which earlier items are counted |
| `ListNumbering.UndefinedChangesNothing` | internal/fileconvert/convert_docx_numbering.go:180-188 | an item without a definition is invisible to every later number |
| `ListNumbering.NumberReadsBack` | internal/fileconvert/convert_docx_numbering.go:196-207 | the decimal text of a number reads back as that number |
| `ListNumbering.IndentIsClamped` | internal/fileconvert/convert_docx_numbering.go:180-181 | the indent is two spaces a level, none below level 0 and no more than at level 8 |
| `ListNumbering.MarkersMatchHistory` | internal/fileconvert/convert_docx_numbering.go:180-207 | the counters give start plus the number of items at that key not followed by a restarting shallower item |
| `ListNumbering.MarkAll` | internal/fileconvert/convert_docx_numbering.go:180-207 | over any sequence of items on a fixed index, every marker is the one its history calls for |
| `SheetParser.ColLettersToIdx` | internal/fileconvert/convert_xlsx_sheet.go:370-389 | min(bijective base 26 - 1, 16383) of the leading letters, 0 without letters, for strings of any length and case |
| `SheetParser.ParseSSTIndex` | internal/fileconvert/convert_xlsx_sheet.go:350-362 | the decimal value of one to nine digits, nothing exactly for any other text |
| `SheetParser.SheetReader.CellValue` | internal/fileconvert/convert_xlsx_sheet.go:268-329 | the text shown for a cell by type and formula mode, and each caveat counted once |
| `SheetParser.ValueByType` | internal/fileconvert/convert_xlsx_sheet.go:268-307 | the value of a cell by its type: the shared string its index names, TRUE or FALSE, the inline text, the text as it is, or for any other type the date its style makes of it |
| `SheetParser.TextByMode` | internal/fileconvert/convert_xlsx_sheet.go:309-328 | a formula's text stands in place of the value, beside it, or not at all, by mode; each caveat is counted once |
| `SheetParser.SheetReader.FlushCell` | internal/fileconvert/convert_xlsx_sheet.go:255-265 | pads to the cell's column, gives up past the budget, appends the value and sets the next column |
| `SheetParser.SheetReader.Start` | internal/fileconvert/convert_xlsx_sheet.go:161-202 | field by field the state after an opening element; a cell's column is the one its own reference names, or one past the cell before it without one; value, formula and inline elements open only inside a cell, text only inside an inline string |
| `SheetParser.SheetReader.End` | internal/fileconvert/convert_xlsx_sheet.go:205-240 | field by field the state after a closing element; a cell is placed exactly inside a row; rows change only when a row closes |
| `SheetParser.SheetReader.CloseRow` | internal/fileconvert/convert_xlsx_sheet.go:229-240 | a closed row is kept exactly if one of its cells is not blank, and widens the sheet either way |
| `SheetParser.SheetReader.CloseFormula` | internal/fileconvert/convert_xlsx_sheet.go:212-220 | a shared formula without text of its own is counted once and taken for no formula |
| `SheetParser.SheetReader.CharData` | internal/fileconvert/convert_xlsx_sheet.go:242-251 | text goes to the innermost of v, f and t that is open |
| `SheetParser.SheetReader.Normalise` | internal/fileconvert/convert_xlsx_sheet.go:333-344 | fills every row to the widest, giving up exactly if there are rows and the empties exceed 2^20 |
| `SheetParser.ParseSheet` | internal/fileconvert/convert_xlsx_sheet.go:63-124 | for any stream, row k of a parsed sheet is the k-th row kept, its cells placed one after another, with empties to its right up to the widest row, and there are at most 2^20 empties in all; otherwise, and only past that budget, the sheet is given up |
| `SheetParser.EveryCellAccounted` | internal/fileconvert/convert_xlsx_sheet.go:161-265 | for every stream, nested rows included, the widths of all rows closed, left behind or open are the cells flushed plus the gaps filled, a row closed twice counting twice |
| `SheetParser.SchematicIsClean` | internal/fileconvert/convert_xlsx_sheet.go:161-265 | a special case, by the parser's own flags: where rows and cells are not nested no row is left behind or closed twice, and one flush fills at most 16383 empties |
| `SheetParser.RowsAreTheirCells` | internal/fileconvert/convert_xlsx_sheet.go:229-240 | in every stream each row kept is the row of the cells read into it |
| `SheetParser.CellOfTheSheet` | internal/fileconvert/convert_xlsx_sheet.go:255-265 | in the parsed sheet every cell of a kept row is found at its position, which is its own column where that row's references increase, and every other place is empty |
| `SheetCells.TokensTell` | internal/fileconvert/convert_xlsx_sheet.go:161-240 | whether a row is open and whether it has a cell can be read off the tokens |
| `SheetCells.EachCellOnceExactlyWhen` | internal/fileconvert/convert_xlsx_sheet.go:161-240 | for any stream whose sheet is not given up: every cell read is in exactly one row if and only if no row with a cell in it is left open where another begins, or closed where none is open |
| `SheetCells.NothingLostExactlyWhen` | internal/fileconvert/convert_xlsx_sheet.go:161-240 | the same condition on the tokens decides whether any width is left behind or counted again |
| `SheetCells.EmptiesAreBounded` | internal/fileconvert/convert_xlsx_sheet.go:255-262 | however rows and cells are nested, no token of a well-nested stream puts in more than 16383 empties |
| `SheetCells.NestedRowLosesItsCell` | internal/fileconvert/convert_xlsx_sheet.go:166-169 | witness: a row inside a row, behind a cell of the outer one, makes that cell vanish from the sheet |
| `SheetCells.NestedRowIsShownTwice` | internal/fileconvert/convert_xlsx_sheet.go:229-233 | witness: a row inside a row, with the cell in the inner one, is in the sheet twice |
| `SheetCells.BothAreWellNested` | internal/fileconvert/convert_xlsx_sheet.go:161-240 | both of these streams are whole, well-nested elements |
| `SheetParser.RowIsItsCells` | internal/fileconvert/convert_xlsx_sheet.go:255-265 | in every stream the row being read is its cells placed one after another |
| `SheetParser.CellIsThere` | internal/fileconvert/convert_xlsx_sheet.go:255-265 | every cell of a row is in it, at its own column or right behind the cell before |
| `SheetParser.CellsKeepOrder` | internal/fileconvert/convert_xlsx_sheet.go:255-265 | cells stay in reading order |
| `SheetParser.RestIsEmpty` | internal/fileconvert/convert_xlsx_sheet.go:255-265 | every other column is empty |
| `SheetParser.LandExactlyWhenIncreasing` | internal/fileconvert/convert_xlsx_sheet.go:255-265 | all cells of a row land at their own columns if and only if the references strictly increase |
| `SheetParser.ReadInPieces` | internal/fileconvert/convert_xlsx_sheet.go:242-251 | character data may arrive in any pieces |
| `SheetReadBack.CellsAreWhereTheTokensSay` | internal/fileconvert/convert_xlsx_sheet.go:161-265 | for any stream whose sheet is not given up, the cells placed in each row, closed or being read, are meant for the columns that the tokens alone give: that of the reference, or one past the cell before |
| `SheetReadBack.OwnReference` | internal/fileconvert/convert_xlsx_sheet.go:171-180 | where no cell opens inside another, that reference is the one on the cell's own opening token |
| `SheetReadBack.ColumnOfName` | internal/fileconvert/convert_xlsx_sheet.go:370-389 | reading a column name inverts writing a column number in letters, whatever row number follows; past 16383 the column is 16383 |
| `SheetReadBack.ColumnOfLowerName` | internal/fileconvert/convert_xlsx_sheet.go:370-389 | small letters name the same columns |
| `SheetReadBack.SharedStringReadsBack` | internal/fileconvert/convert_xlsx_sheet.go:350-362 | the index of a shared string inverts writing a number of at most nine digits |
| `SheetReadBack.ReadsContent` | internal/fileconvert/convert_xlsx_sheet.go:161-251 | a cell written with its reference, type, style, formula, value and inline text is held with exactly those when it closes |
| `SheetReadBack.WrittenSheetReadsBack` | internal/fileconvert/convert_xlsx_sheet.go:63-265 | round trip: a sheet written out as tokens, each cell under its own reference in rising columns, reads back unless it is given up: its rows are those with some text, in order, every text stands at its own column and all other places are empty |
| `SheetReadBack.CellC5` | internal/fileconvert/convert_xlsx_sheet.go:171-180 | a row whose only cell is C5 shows its text in the third column |
| `GfmTable.WriteGfmRow` | internal/fileconvert/gfm.go:40-48 | appends the row's escaped cells between pipes and one newline |
| `GfmTable.RenderGfmTable` | internal/fileconvert/gfm.go:37-64 | one line for the header, the delimiter row and each body row brought to the header's width |
| `GfmTable.EscapeIsOneLine` | internal/strutil/gfm.go:20-28 | an escaped cell holds no newline |
| `GfmTable.UnescapeInverts` | internal/strutil/gfm.go:20-28 | removing the backslash before each pipe undoes the pipe escape, whatever backslashes the cell holds |
| `GfmTable.CellComesBack` | internal/strutil/gfm.go:20-28 | an escaped and padded cell reads back as the newline-normalised original, a blank one as empty |
| `GfmTable.RowReadsBack` | internal/fileconvert/gfm.go:40-48 | split on its unescaped pipes a row has exactly its cells, each reading back |
| `GfmTable.TableReadsBack` | internal/fileconvert/gfm.go:37-64 | the whole table reads back: one complete line a row, every line of the header's number of cells, all cells recovered |
| `GfmTable.ContentAt` | internal/fileconvert/gfm.go:53-63 | cell by cell, what reads back: the header, three dashes a column, and each further row cut or filled with empties to the header's width |
| `GfmTable.NormalisedIsShown` | internal/strutil/gfm.go:20-28 | what a cell is worth, character by character: a line feed as a break, a carriage return not at all, everything else as it is; nothing for a blank one |
| `Fences.GfmFence` | internal/fileconvert/gfm.go:69-82 | the shortest run of at least three backticks that the content does not hold: it holds none that long, and one shorter if the fence is longer than three |
| `Fences.RenderCsvBlock` | internal/fileconvert/gfm.go:89-103 | the CSV text in a fence it does not hold; whatever text follows, the block reads back to it |
| `Fences.EmitCode` | internal/fileconvert/convert_docx_emit.go:93-103 | appends the paragraph in a fence it does not hold and a blank line; whatever text follows, the block reads back to it |
| `Fences.NoLineCloses` | internal/fileconvert/gfm.go:66-69 | no line of the content can close the block |
| `Fences.FenceReadsBack` | internal/fileconvert/gfm.go:66-103 | read by the rules of fenced blocks, the block gives back its info word, its content with the last line ended, and the lines after it |
| `Fences.ShorterFenceBreaks` | internal/fileconvert/gfm.go:66-69 | a fence as long as a run of its content does not read back, for every length |
| `CodeParagraphs.Paragraph.AppendSeg` | internal/fileconvert/convert_docx.go:546-559 | drops an empty segment, extends the last one of the same format, otherwise appends |
| `CodeParagraphs.Paragraph.PlainSegments` | internal/fileconvert/convert_docx_emit.go:69-79 | the segments' texts, those that read exactly "<br>" as newlines |
| `CodeParagraphs.CollectedAreStretches` | internal/fileconvert/convert_docx.go:546-559 | what is collected is the same-format stretches, each as one segment, with nothing lost |
| `CodeParagraphs.CodeReadsExactlyWhen` | internal/fileconvert/convert_docx_emit.go:69-79 | a code paragraph reads as meant if and only if every line break is alone among its same-format neighbours and no such stretch of text spells "<br>" |
| `CodeParagraphs.BreakBetweenPlainRunsIsLost` | internal/fileconvert/convert_docx.go:365-370 | witness: a line break next to unformatted text is lost |
| `TurnSlots.Handler.StartTurn` | internal/miniagent/handler_lifecycle.go:43-64 | takes the slot and counts the turn exactly when the handler is open and the chat free |
| `TurnSlots.Handler.EndTurn` | internal/miniagent/handler_lifecycle.go:69-81 | gives the slot back if it is still this turn's, then counts it done |
| `TurnSlots.Handler.AbortChat` | internal/miniagent/handler_lifecycle.go:151-159 | cancels the running turn of the chat, keeps its slot, and reports whether there was one |
| `TurnSlots.Handler.BeginClose` | internal/miniagent/handler_lifecycle.go:125-133 | closes and cancels every running turn |
| `TurnSlots.AlwaysValid` | internal/miniagent/handler_lifecycle.go:43-159 | in every interleaving the wait group counts slots plus turns between giving theirs back and Done, every running turn holds its slot, and after closing all running turns are cancelled |
| `TurnSlots.NoOverlap` | internal/miniagent/handler.go:231-247 | two turns of one chat never run at once |
| `TurnSlots.StartsExactlyWhenFree` | internal/miniagent/commands.go:78-84 | a prompt or command is taken exactly when the handler is open and no turn of that chat runs |
| `TurnSlots.NeverRisesAfterClose` | internal/miniagent/handler_lifecycle.go:46-51 | once closed, the wait group never rises |
| `TurnSlots.WaitMeansQuiet` | internal/miniagent/handler_lifecycle.go:134-143 | when the wait returns, no turn is left, then or later |
| `TokenFlight.Fetched` | internal/lark/auth.go:107-141 | a fetch succeeds exactly on an HTTP success with code 0 and a token, and then with that token |
| `TokenFlight.TokenManager.EnterToken` | internal/lark/auth.go:60-84 | serves the cached token exactly when it has more than 300 s to live, else joins the flight in the air, or opens the next gate and leads |
| `TokenFlight.TokenManager.Land` | internal/lark/auth.go:88-103 | stores the token with its expiry or the error, closes the gate it led once, and keeps the cache on failure |
| `TokenFlight.TokenManager.ReadResult` | internal/lark/auth.go:76-81 | a follower reads the stored error or token |
| `TokenFlight.OneFetchAndNoEmptyToken` | internal/lark/auth.go:59-104 | in every interleaving at most one fetch is in the air and nobody gets an empty token as a success |
| `TokenFlight.ServedExactlyWhenFresh` | internal/lark/auth.go:60-66 | in every interleaving a caller is served at once if and only if the last flight that succeeded brought a token with more than 300 s left, and with that token |
| `TokenFlight.CacheIsLastSuccess` | internal/lark/auth.go:88-103 | in every interleaving the cache holds the token and expiry of the last flight that succeeded, whatever failed since |
| `TokenFlight.EachGateClosesOnce` | internal/lark/auth.go:82-103 | gates close once each, in the order they were made |
| `TokenFlight.LeaderClosesItsGate` | internal/lark/auth.go:82-103 | only the caller fetching for a gate closes it |
| `TokenFlight.NobodyIsStranded` | internal/lark/auth.go:67-75 | a waiting caller's gate is closed or its leader is still fetching |
| `TokenFlight.FollowersGetTheirFlightOrLater` | internal/lark/auth.go:67-81 | a follower's answer is that of the flight it joined or of one landed later |
| `AnswerBroker.Routes.Register` | internal/miniagent/answer.go:33-42 | reserves a new channel exactly when the id is free |
| `AnswerBroker.Routes.Cancel` | internal/miniagent/answer.go:46-50 | removes the slot, if any |
| `AnswerBroker.Routes.Take` | internal/miniagent/answer.go:56-61 | removes the slot and hands out its channel, or finds none |
| `AnswerBroker.Routes.SendOn` | internal/miniagent/answer.go:66-72 | the non-blocking send with its default branch |
| `AnswerBroker.Routes.Deliver` | internal/miniagent/answer.go:55-74 | true exactly when the id was pending, and then the answer is in its open channel |
| `AnswerBroker.Routes.Drain` | internal/miniagent/answer.go:78-85 | closes every pending channel and forgets every slot |
| `AnswerBroker.SendKeepsValid` | internal/miniagent/answer.go:66-72 | an answer in hand always finds its channel open and empty |
| `AnswerBroker.NothingMisused` | internal/miniagent/answer.go:33-85 | in every interleaving nothing is sent on a closed channel, none is closed twice, and the drop branch of Deliver is never taken |
| `AnswerBroker.FateFollows` | internal/miniagent/answer.go:33-85 | the only moves a registration's fate can make |
| `AnswerBroker.SettledForEver` | internal/miniagent/answer.go:33-85 | each registration gets at most one of an answer, a close and a cancellation |
| `AnswerBroker.TakenIsDelivered` | internal/miniagent/picker.go:64-88 | an answer taken for a registration reaches its channel whatever happens in between |
| `Reconnect.JitteredBackoff` | internal/backendrpc/reconnect.go:193-200 | a wait within half of the backoff either way, each value in reach of the draw |
| `Reconnect.Dial` | internal/backendrpc/reconnect.go:154-187 | dials after waits around the doubling backoff until one works, giving up exactly at the twentieth counted failure |
| `Reconnect.Run` | internal/backendrpc/reconnect.go:75-145 | the trace is the one the world's answers lead to; backoff and failures reset only on an event; it gives up only after nineteen dials without one |
| `Reconnect.DialsBoundedByEvents` | internal/backendrpc/reconnect.go:154-187 | over any run dials are at most 19 x (1 + events) |
| `Reconnect.BackoffWithinLadder` | internal/backendrpc/reconnect.go:181-185 | the backoff never exceeds what that many failed dials allow, between 5 and 60 s |
| `Reconnect.BackoffCountsFailures` | internal/backendrpc/reconnect.go:161-185 | the backoff is 5, 10, 20, 40, then 60 s by the number of dials that failed since the last event |
| `Reconnect.SleepIsBounded` | internal/backendrpc/reconnect.go:161-185 | the sleep between two events is at most 1462.5 s, jitter included |
| `Health.BackendRegistry.RegisterWithToken` | internal/feishufront/registry.go:183-192 | closes and replaces an earlier connection of the id |
| `Health.BackendRegistry.Unregister` | internal/feishufront/registry.go:198-208 | removes and closes exactly the connection in the table, and says so |
| `Health.BackendRegistry.HandlerExit` | internal/feishufront/registry.go:219-228 | an exiting handler removes and reports only its own connection |
| `Health.BackendRegistry.SendEvent` | internal/feishufront/registry.go:118-130 | refused by a closed or full connection |
| `Health.BackendRegistry.ResetMissedPongs` | internal/feishufront/registry.go:110-111 | a pong clears the count and refreshes the connection, nothing else |
| `Health.BackendRegistry.BumpMissedPongs` | internal/feishufront/registry.go:107-108 | one more ping is owed, nothing else changes |
| `Health.BackendRegistry.PingBackend` | internal/feishufront/ipcserver/ipcserver_health.go:86-91 | one backend's turn in the pass, its registration left alone: send, then count, with a pong possibly between the two |
| `Health.BackendRegistry.PingPass` | internal/feishufront/ipcserver/ipcserver_health.go:81-92 | registrations left alone, pings exactly the connections that are stale or owe a pong, counting each ping that was sent after whatever pong overtook the count |
| `Health.BackendRegistry.EvictPass` | internal/feishufront/ipcserver/ipcserver_health.go:107-122 | removes and reports exactly the unhealthy connections |
| `Health.PingAllAt` | internal/feishufront/ipcserver/ipcserver_health.go:81-92 | a ping pass treats each listed backend alone: due if stale or owing, pinged if its channel takes the event, and then owing one more than the pong that overtook the count left |
| `Health.EvictAllAt` | internal/feishufront/ipcserver/ipcserver_health.go:107-122 | an eviction pass removes, closes and reports a listed backend if and only if it is stale or owes three pongs |
| `Health.PingIsItsSteps` | internal/feishufront/ipcserver/ipcserver_health.go:81-92 | undisturbed, the look-up, send and count of the interleaving machine are the ping of one backend in that pass |
| `Health.EvictionIsItsSteps` | internal/feishufront/ipcserver/ipcserver_health.go:107-122 | undisturbed, its judging and evicting are the treatment of one backend in that pass |
| `Health.AnsweringBackendsStay` | internal/feishufront/ipcserver/ipcserver_health.go:52-123 | with flushed pings refreshing it, a backend that answers each ping before the next tick is never evicted, even when pongs overtake the count of their pings: it owes at most one when a tick starts |
| `Health.AnsweringRound` | internal/feishufront/ipcserver/ipcserver_health.go:81-111 | such a backend owes at most two when it is judged, and at most one again afterwards |
| `Health.EarlyPongIsOwed` | internal/feishufront/ipcserver/ipcserver_health.go:89-91 | witness for the other case: a ping whose only pong came before the bump is still owed at the next tick |
| `Health.NeverOwesExactlyWhen` | internal/feishufront/ipcserver/ipcserver_health.go:24-31 | over any number of ticks, a backend that answers owes nothing at the start of each if and only if each of its pings has a pong after the ping was counted |
| `Health.SilentBackendsGo` | internal/feishufront/ipcserver/ipcserver_health.go:24-31 | a backend that never pongs is gone with its third ping, however well it flushes |
| `Health.SilentIsGoneInThree` | internal/feishufront/ipcserver/ipcserver_health.go:75-80 | a backend that takes pings and never pongs is gone by the third tick after its first ping is due, counting that one |
| `Health.EachRemovalReportedOnce` | internal/feishufront/ipcserver/ipcserver_health.go:116-121 | in every interleaving of checks, handler exits and re-registrations each removed connection is reported offline exactly once, a replaced one never, and the table holds only open ones |
| `Health.FreshConnectionEvicted` | internal/feishufront/ipcserver/ipcserver_health.go:107-121 | witness: judging and unregistering are separate, so a fresh connection can be evicted on its predecessor's account |
| `Health.StaleEvictionsExactlyWhen` | internal/feishufront/ipcserver/ipcserver_health.go:107-121 | an eviction hits another connection than the one judged exactly when the id was registered anew in between, and one healthy again exactly when that connection has since flushed or ponged past the deadline and has ponged or owed fewer than three |
| `Health.StalePingsExactlyWhen` | internal/feishufront/ipcserver/ipcserver_health.go:82-91 | a ping goes to another connection than the one it is counted on exactly when the id was registered anew between the two lookups; the one it is counted on is then closed |
| `Health.AnsweringStep` | internal/feishufront/ipcserver/ipcserver_health.go:52-123 | each step of the checker, the handlers and all backends keeps a connection that answers in the table, unjudged, and within what it may owe at that point of a tick |
| `Health.AnsweringConnectionStays` | internal/feishufront/ipcserver/ipcserver_health.go:52-123 | from any point of any interleaving, a connection that owes at most one pong and answers from then on stays in the table, owes two at most, one at most between ticks, and is never reported offline |

## Left out

- HTTP, TLS, server-sent events and the chat service's REST calls: each call is a success, a failure or a lost
  reply, taken as a parameter.
- Card contents, wording and rendering: a render succeeds or fails.
- JSON, XML, CSV and date codecs: decoded trees and tokens come in, CSV text comes in as text.
- Panics inside a dispatch, a leader's fetch or a turn: the pump recovers and moves on; what a half-done dispatch
  leaves behind is not modelled.
- The path without a debouncer, the router's load of a damaged file, and wiring with no router or no path.
- The two other rate-limited card kinds: status overviews and the interactive cards' own timers.
- TerminalJourney.ExactlyOnce: a POST arrives at most once; a resend by the HTTP client itself is not modelled.
- TerminalSender.SpanIsBounded: a timer that fires late is not modelled; its lateness would add to the 27 s.
- RoutingTable.Layer1Router.Set: JSON marshalling of the table cannot fail here, and a table without a path, which
  is never written, is left out.
- StreamArchive.Archive: a destination that fails is not modelled, nor is the map that redactMap rewrites in place
  while a caller still holds it; trees are values here.
- ReplayGuard.DedupSet.Configure: its effect is stated, but run results are for a fixed configuration.
- ListNumbering.ListState.Marker: counters are unbounded integers; the source's would wrap at 64 bits.
- parseNumbering's token loop: the index it builds is the input here.
- Fences.FenceReadsBack: the reader knows LF line endings only; a bare CR, which some Markdown readers also take for
  a line end, is ordinary text.
- Health.BackendRegistry.PingBackend: its two lookups of the id are one here, as no registration comes between them
  in a method run on its own; the interleaving machine has both.
- Health.BackendRegistry.PingPass: likewise.
- SheetParser.ParseSheet: context polling and XML errors, which end the parse early, are not modelled.
- The choice between table and CSV block at 20 columns, and parts that check fields or pass values on: one branch each.
- AnswerBroker.Routes.Cancel: request ids are random in the source; a cancel that meets a later registration of the
  same id is not ruled out here.
- Ownership of turns across a restart of the frontend: maps start empty.
