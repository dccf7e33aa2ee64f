# Verified models of the runtime's own state machines

Most of the TypeScript and Rust files of this repository forward to kernels. The ones modelled here hold
state, a protocol or arithmetic of their own. Each core that updates state in place is a class whose
methods are proved against functions; whole runs are sequences of steps over those functions, and the
main results quantify over every run, every input and every interleaving.

| file | what it models |
|---|---|
| `RuntimeGate.dfy`, `GateRuns.dfy` | the conduit runtime gate (a persisted circuit breaker), and every run of it with K agent runs in flight |
| `EventBuffers.dfy`, `EventReplay.dfy` | the server's pruned event buffer, and the replay protocol between server, page and a lossy link |
| `ServerHeartbeat.dfy` | the server's ping and timeout check on one connection |
| `ResilientSocket.dfy`, `SocketRuns.dfy` | the page's reconnecting socket and outgoing queue, and every run of it |
| `CountingAllocator.dfy` | the five atomic counters of the allocator under any interleaving of their steps |
| `Json.dfy`, `CanonicalJson.dfy`, `Receipts.dfy`, `Signing.dfy` | JSON text, the two canonical printers, receipts, and the texts that signatures hash |
| `SafeCronSwap.dfy` | the add, verify, remove, verify routine under any pattern of failures |
| `MemoryGuard.dfy` | argument flags, the memory policy, the resource ownership table and the lane that runs them |
| `TaskGroup.dfy` | status counts, derived group status, completion |
| `Names.dfy` | session keys and emergency stop scopes |
| `Numbers.dfy`, `Options.dfy`, `Strings.dfy` | shared helpers |

Assumptions, in the system's terms:

- Gate: one process, constant environment settings, a clock that never goes back, and a gate file that
  reads back what was written (an instant written as ISO text is read back to the millisecond). The clock and
  the ends of the windows it opens stay within what a date can hold, 8.64e15 ms; past that,
  `spine_conduit_bridge.ts:231-232` throws before the record is written.
- Replay: one socket per page, one lifetime of the server, a clock that never goes back, positive buffer
  limits, and session storage that takes every write (a throwing `setItem` at `websocket-client-patch.ts:135` or
  `:150` would let the last id run ahead of its copy). The server shown replays at subscribe only, so nothing is
  claimed about live pushes.
- Canonical JSON: objects are JSON objects with distinct keys that enumerate in the order of their members,
  and numbers are finite. The two printers are compared for any total order of keys.
- Cron swap: a listed job has an id that counts as true; with an empty one the loop of lines 85 to 126
  would run on without counting attempts. The context's `log` does not throw.

Where the code and its intent part, the code is modelled and the exact condition is proved:

- `GateRuns.FailureOpensGateExactly`: a late failure of a run that was already in flight can open a blocked
  gate, exactly when two runs may be in flight, the threshold is above one and the backoff for threshold + K - 2
  failures outlasts the failure lifetime by two milliseconds. `GateRuns.EarlyOpening` has settings with which it
  happens, and shows that with the default settings it never does.
- `EventReplay.ReplayIsExactlyOnce`: the page reads every event once, but hands it to the application once only if
  the dispatch does not throw. The dispatch of line 138 stands inside the `try` of line 105, and after a throw line
  157 dispatches the same event again: a throwing `onmessage` handler gets it twice. Where the raw socket still
  dispatches the event, step 1 of `dispatchEvent` (DOM Standard, section 2.7) refuses both attempts, and the event
  is counted as seen without ever arriving. `EventReplay.ThrowingDispatch` has a run for each, and by
  `EventReplay.RefusedReplayHandsNothing` a page whose dispatches are all refused hands over nothing.
- `EventReplay.FalseCaughtUpExactly`: an addition that is held up for the age limit between its two clock reads
  empties the buffer, and exactly then a page that connects is told it has caught up with events it never got.
  `EventReplay.CaughtUpWithNothing` is such a run; `EventReplay.CaughtUpIsTrue` is stated for prompt runs, which have none.
- `EventBuffers.FirstReply`: a page with no id yet is never sent to resync, and misses the start of the log
  when that has been dropped.
- `SocketRuns.OvertakesExactly`: a flush that a throwing send cuts short leaves a backlog on an open socket,
  and the next message overtakes it.
- `CountingAllocator.UnderflowExactly`: a shrinking reallocation that comes back null lowers the outstanding count
  for good. It is below zero exactly when that drift outweighs the live blocks and the calls in progress, and it
  gets there from exactly the states whose drift is negative (`CountingAllocator.UnderflowIsDrift`).
- `SafeCronSwap.RemovalNeedsVerification`: the loop's handler swallows what is thrown after the new job was found, so
  the old job is removed unverified exactly when the note about a failed check throws, or the accepted next run is
  outside what a date can hold and the line that logs it throws (`safe_cron_swap.js:114`).
  `SafeCronSwap.UnverifiedRemovals` has an input for each, and both report success.
- `SafeCronSwap.OldOrNewIsAlwaysThere`: an old job that has the verify name itself vouches for itself and is removed.
- `Signing.SigningTextIsCanonical`: what a signature hashes determines the value, and the key id and secret only up
  to the place of the colon between them; `Signing.ColonInKeyId` has two such pairs.
- `TaskGroup.TerminalIffComplete`: an agent whose status is "total", "constructor" or "__proto__" is counted,
  and can make a group terminal and incomplete at once.
- `MemoryGuard.OwnershipExactly`: a resource called "__proto__" cannot be owned, unless the loaded table has that key.
- `MemoryGuard.RankingCheckIsSound`: a score that is not a finite number, between two that are, hides a rise.
- `ServerHeartbeat.ResponsiveClientIsSafe`: a pong that arrives with a check may be seen after it, so the timeout
  has to cover the first multiple of the interval greater than the delay.

## Model

| member | source | states |
|---|---|---|
| Gate.Resolve | client/runtime/lib/spine_conduit_bridge.ts:97-132 | whatever the environment holds, threshold is at least 1, 5000 <= base <= max and the failure lifetime is at least twice the base |
| Gate.ResolveReads | client/runtime/lib/spine_conduit_bridge.ts:97-132 | what each number in the environment sets its tunable to, and the default of each |
| Gate.BackoffBoundedMonotone | client/runtime/lib/spine_conduit_bridge.ts:142-148 | the backoff stays between base and max and never shrinks as the count grows |
| Gate.BackoffDoubles | client/runtime/lib/spine_conduit_bridge.ts:142-148 | the first failure waits for the base, each further one up to the ninth twice as long, within the cap |
| Gate.RuntimeGate.BuildActiveError | client/runtime/lib/spine_conduit_bridge.ts:161-179 | reports the remaining wait exactly when the window is still open, and clears a window that is over |
| Gate.RuntimeGate.ClearStored | client/runtime/lib/spine_conduit_bridge.ts:181-197 | clears the record if it holds failures or is active |
| Gate.RuntimeGate.NoteFailure | client/runtime/lib/spine_conduit_bridge.ts:199-237 | counts a timeout-like failure on from the stored count unless that is stale or its window is over, and opens a window at the threshold |
| Gate.RuntimeGate.Admit | client/runtime/lib/spine_conduit_bridge.ts:634-666 | a run goes on exactly when it is suppressed or the gate does not block |
| Gate.FailureCounts | client/runtime/lib/spine_conduit_bridge.ts:199-237 | one failure counts on from the stored count exactly when that is neither stale nor of a finished window, and opens a window from the threshold on |
| Gate.SwitchedOff | client/runtime/lib/spine_conduit_bridge.ts:134-140 | a disabled gate changes nothing, and neither it nor a probing one blocks |
| Gate.EveryEnd | client/runtime/lib/spine_conduit_bridge.ts:670-809 | which ways of ending a run are successes, which are timeout-like failures, and which are neither |
| Gate.RuntimeGate.Settle | client/runtime/lib/spine_conduit_bridge.ts:670-809 | a success leaves no failures and an inactive gate, a timeout-like failure is recorded, and every other end, or a suppressed run, changes nothing |
| GateRuns.StepMatchesGate | client/runtime/lib/spine_conduit_bridge.ts:634-813 | the steps of whole runs change the record as the gate's methods do |
| GateRuns.StepKeeps | client/runtime/lib/spine_conduit_bridge.ts:161-237 | every arrival and end of a run keeps the record coherent, in agreement with the history, bounded and rate limited |
| GateRuns.CountNeverExceeds | client/runtime/lib/spine_conduit_bridge.ts:199-237 | with at most K unsuppressed runs in flight the count never passes threshold + K - 1 |
| GateRuns.SequentialRunsBlockForOneBackoff | client/runtime/lib/spine_conduit_bridge.ts:142-148 | one run at a time is always blocked for exactly the backoff of the threshold |
| GateRuns.FailuresAreRateLimited | client/runtime/lib/spine_conduit_bridge.ts:161-237 | no half-open stretch of length base without a success holds more than threshold + K - 1 recorded failures |
| GateRuns.GateAgreesWithHistory | client/runtime/lib/spine_conduit_bridge.ts:199-237 | over every run the record is the one that the events alone give: the count is the longest ending streak of timeout-like failures since the last success and finished window, the gate is active exactly when the last `threshold` of them form one, and blocks exactly up to the backoff after the last |
| GateRuns.SuccessForgets | client/runtime/lib/spine_conduit_bridge.ts:670-809 | a success clears the record, whatever came before |
| GateRuns.StaleFailureOpens | client/runtime/lib/spine_conduit_bridge.ts:203-222 | the failure of a run in flight that arrives while the gate blocks opens it exactly when the failure before is stale and the threshold is above 1 |
| GateRuns.FailureOpensGateExactly | client/runtime/lib/spine_conduit_bridge.ts:199-237 | some run has such a failure if and only if K is at least 2, the threshold is above 1 and the backoff for threshold + K - 2 failures is at least the failure lifetime plus 2 ms |
| GateRuns.EarlyOpening | client/runtime/lib/spine_conduit_bridge.ts:97-132 | settings with which two runs in flight suffice; with the default settings no number of runs does |
| GateRuns.BoundsAreReached | client/runtime/lib/spine_conduit_bridge.ts:634-813 | for every K some run reaches both bounds |
| EventBuffers.FreshIsSuffix | client/runtime/patches/websocket-server-patch.ts:39-45 | filtering a log in clock order by age leaves a suffix of it |
| EventBuffers.PruneAgain | client/runtime/patches/websocket-server-patch.ts:27-45 | pruning step by step gives what pruning the whole log once gives |
| EventBuffers.WindowEmptyExactly | client/runtime/patches/websocket-server-patch.ts:39-45 | the buffer is empty after an addition exactly when the new event was already too old |
| EventBuffers.WindowHolds | client/runtime/patches/websocket-server-patch.ts:39-45 | the buffer holds exactly those of the last `size` events that are younger than the age limit |
| EventBuffers.EventBuffer.Add | client/runtime/patches/websocket-server-patch.ts:27-37 | assigns the next id, and the buffer is the last min(size, unexpired) entries of the log |
| EventBuffers.EventBuffer.GetSince | client/runtime/patches/websocket-server-patch.ts:48-52 | the buffered events from the first with a greater id on |
| EventBuffers.EventBuffer.IsIdTooOld | client/runtime/patches/websocket-server-patch.ts:55-58 | whether the id lies before a non-empty buffer |
| EventBuffers.ServerSocket.Subscribe | client/runtime/patches/websocket-server-patch.ts:135-173 | sends resync_required, or the missed events in order and caught_up |
| EventBuffers.ResyncIsExact | client/runtime/patches/websocket-server-patch.ts:143-171 | a client is sent to resync exactly when its last event is no longer buffered, and otherwise gets exactly the log after it |
| EventBuffers.EmptyBufferReply | client/runtime/patches/websocket-server-patch.ts:55-58 | from an empty buffer the reply is only caught_up, which is right exactly for a client that missed nothing |
| EventBuffers.AheadReply | client/runtime/patches/websocket-server-patch.ts:143-171 | a client whose id is ahead of the log gets caught_up only |
| EventReplay.ResilientPage.OnMessage | client/runtime/patches/websocket-client-patch.ts:104-158 | an event frame advances the last id and its stored copy and is handed over once, or twice if the handler throws, or not at all if its dispatch is refused; pings are answered, resync is triggered |
| EventReplay.ResilientPage.OnResync | client/runtime/patches/websocket-client-patch.ts:218-244 | the fetched events can only raise the last id |
| EventReplay.StepKeeps | client/runtime/patches/websocket-client-patch.ts:86-158 | every step, throwing dispatches included, keeps what was read a piece of the log ending at the last id, what was handed over its copies, and what is on the way its continuation |
| EventReplay.ReplayIsGapless | client/runtime/patches/websocket-client-patch.ts:86-158 | over additions, drops, reconnects, reloads, partial deliveries and throwing dispatches the event frames read are a contiguous piece of the log that ends at the last id, which is the stored one |
| EventReplay.ReplayIsExactlyOnce | client/runtime/patches/websocket-client-patch.ts:131-157 | the application is handed exactly that piece, each event once and in order, if and only if no dispatch of an event frame threw |
| EventReplay.RefusedReplayHandsNothing | client/runtime/patches/websocket-client-patch.ts:60-67 | if every dispatch is refused, no run hands the application anything |
| EventReplay.ThrowingDispatch | client/runtime/patches/websocket-client-patch.ts:138-157 | a run in which a throwing handler gets an event twice, or a refused event counts as seen |
| EventReplay.CaughtUpIsTrue | client/runtime/patches/websocket-server-patch.ts:166-170 | in a prompt run, a page that reads caught_up has read the log from its first event up to the id in the message, without a gap, and has handed over just that exactly when no dispatch threw |
| EventReplay.FalseCaughtUpExactly | client/runtime/patches/websocket-server-patch.ts:55-58 | a page that lacks events and connects is told at once that it has caught up exactly when the newest event had reached the age limit at the last pruning |
| EventReplay.CaughtUpWithNothing | client/runtime/patches/websocket-server-patch.ts:135-173 | a run in which caught_up reaches a page that has none of the events |
| EventReplay.LastIdNeverGoesBack | client/runtime/patches/websocket-client-patch.ts:131-136 | whatever HTTP resyncs return, the last id never decreases and equals its stored copy |
| EventReplay.ResyncedIsGreatest | client/runtime/patches/websocket-client-patch.ts:225-240 | an HTTP resync leaves the page at the greatest of its last id and the fetched ones |
| ServerHeartbeat.HeartbeatSocket.OnInterval | client/runtime/patches/websocket-server-patch.ts:93-117 | closes an open socket that has been silent for more than the timeout, and pings it otherwise |
| ServerHeartbeat.HeartbeatSocket.OnPong | client/runtime/patches/websocket-server-patch.ts:125-132 | a pong renews the time of the last answer |
| ServerHeartbeat.SilentClientIsClosed | client/runtime/patches/websocket-server-patch.ts:93-105 | while a socket is open, even the next check is due within timeout + interval of its last pong |
| ServerHeartbeat.ResponsiveClientIsSafe | client/runtime/patches/websocket-server-patch.ts:93-132 | clients answering within a delay are never closed, if and only if the timeout covers the first multiple of the interval greater than the delay |
| ResilientSocket.ResilientWebSocket.DoConnect | client/runtime/patches/websocket-client-patch.ts:73-84 | creates a raw socket unless reconnecting is over, and falls back to a timer when that throws |
| ResilientSocket.ResilientWebSocket.DoReconnect | client/runtime/patches/websocket-client-patch.ts:195-216 | sets a timer with capped exponential delay, at most 100 times in a row |
| ResilientSocket.ResilientWebSocket.DoSend | client/runtime/patches/websocket-client-patch.ts:271-285 | sends on an open socket, and otherwise queues, dropping the oldest of a full queue |
| ResilientSocket.ResilientWebSocket.FlushPendingSends | client/runtime/patches/websocket-client-patch.ts:246-258 | hands over the queue in order until a send throws, and keeps the rest |
| ResilientSocket.ResilientWebSocket.HandleOpen | client/runtime/patches/websocket-client-patch.ts:86-102 | resets the attempts, subscribes, then flushes |
| ResilientSocket.ResilientWebSocket.HandleClose | client/runtime/patches/websocket-client-patch.ts:160-173 | code 1000 ends reconnecting, any other code schedules it |
| ResilientSocket.ResilientWebSocket.DoClose | client/runtime/patches/websocket-client-patch.ts:260-269 | ends reconnecting and cancels the timer |
| SocketRuns.DelaysGrow | client/runtime/patches/websocket-client-patch.ts:204-208 | before jitter the delays never shrink and stay between 250 and 5000 ms |
| SocketRuns.DroppedConnectionIsRetried | client/runtime/patches/websocket-client-patch.ts:160-216 | in every reachable state a raw socket is alive, a reconnect is due, reconnecting is over or 100 attempts have been made; the waits of a streak are 250, 500, 1000, 2000, 4000 and then 5000 ms plus a jitter below 200 |
| SocketRuns.StepsTakeEffect | client/runtime/patches/websocket-client-patch.ts:73-173 | a due timer connects or sets the next one, a drop sets one, an opening ends the streak, a ping is answered, a close leaves nothing open or due |
| SocketRuns.ReconnectIsBounded | client/runtime/patches/websocket-client-patch.ts:73-84 | a live socket and a pending timer exclude each other, and a streak of failures makes at most 100 attempts and waits less than 502750 ms in all |
| SocketRuns.ClosedForGood | client/runtime/patches/websocket-client-patch.ts:160-173 | after close() or a close with code 1000 no raw socket is ever created |
| SocketRuns.MessagesKeepOrder | client/runtime/patches/websocket-client-patch.ts:246-285 | if no raw send throws, messages reach the wire in order and at most once, every message is on the wire, queued or discarded, nothing stays queued on an open socket, and each connection begins with its subscribe |
| SocketRuns.DiscardedWereOldest | client/runtime/patches/websocket-client-patch.ts:275-278 | over every run, whatever throws, each discarded item was at its moment the oldest of a full queue |
| SocketRuns.OvertakesExactly | client/runtime/patches/websocket-client-patch.ts:271-273 | a send on an open socket keeps the order exactly when no message of the application is queued |
| SocketRuns.CutShortFlushLeavesABacklog | client/runtime/patches/websocket-client-patch.ts:252-256 | a run in which a throwing flush leads to overtaking |
| CountingAllocator.Layer0Counters.Alloc | core/layer0/alloc.rs:35-42 | the counters after one allocation by itself |
| CountingAllocator.Layer0Counters.Dealloc | core/layer0/alloc.rs:44-51 | the counters after one deallocation by itself |
| CountingAllocator.Layer0Counters.AllocZeroed | core/layer0/alloc.rs:53-60 | as for an allocation |
| CountingAllocator.Layer0Counters.Realloc | core/layer0/alloc.rs:62-74 | the counters after one reallocation by itself, growing or shrinking |
| CountingAllocator.AloneIsSum | core/layer0/alloc.rs:34-75 | the separate atomic steps of a call, uninterrupted, add up to one wrapped sum |
| CountingAllocator.Uninterrupted | core/layer0/alloc.rs:34-75 | in the interleaved machine an uninterrupted call does just that |
| CountingAllocator.StepConserves | core/layer0/alloc.rs:34-75 | every atomic step of every thread keeps the three conservation laws, with a term for each call in progress |
| CountingAllocator.CountersAtRest | core/layer0/alloc.rs:34-75 | between calls, modulo the word size: outstanding is the sum of live blocks plus drift, requested = released + outstanding + the sum of min(old, new) over reallocations, and calls balance; there is no drift if all system calls succeed |
| CountingAllocator.CountersAreSums | core/layer0/alloc.rs:34-75 | between calls each of the five counters is, modulo the word size, the sum over the calls made of what that call says: sizes allocated and reallocated to, sizes freed and shrink amounts, the calls themselves, and the change of the block |
| CountingAllocator.OutstandingNeverUnderflows | core/layer0/alloc.rs:44-74 | in every state, as long as no shrinking reallocation fails, the outstanding count covers all live blocks and has not underflowed |
| CountingAllocator.UnderflowExactly | core/layer0/alloc.rs:34-75 | in every reachable state the outstanding count is below zero, before wrapping, exactly when live blocks, calls in progress and drift add up to less than zero |
| CountingAllocator.Drain | core/layer0/alloc.rs:44-51 | from every such state, finishing the calls and freeing all blocks without a failure leaves the drift as the outstanding count |
| CountingAllocator.UnderflowIsDrift | core/layer0/alloc.rs:62-74 | a reachable state has a continuation without further failures that underflows exactly when its drift is negative |
| CountingAllocator.FailedShrinkUnderflows | core/layer0/alloc.rs:62-74 | a run in which a failed shrink leaves -4 outstanding |
| Json.ReadBack | client/runtime/systems/continuity/resurrection_protocol.ts:32-43 | reading an escaped string up to its closing quote gives the string back |
| Json.Unambiguous | client/runtime/systems/continuity/resurrection_protocol.ts:32-43 | two values whose texts begin a common text are equal, and so is what follows |
| Json.PrintIsInjective | client/runtime/systems/conduit/conduit-client.ts:334-337 | JSON text determines the value, member order included |
| Json.EscapedUnits | client/runtime/systems/continuity/resurrection_protocol.ts:33-41 | which code units a JSON string escapes, and how |
| Json.TextOfSmallValues | client/runtime/systems/continuity/resurrection_protocol.ts:32-43 | the words and the punctuation of the text |
| CanonicalJson.NormalizeKeepsMeaning | client/runtime/systems/conduit/conduit-client.ts:339-354 | sorting keys at every depth does not change what the value denotes |
| CanonicalJson.NormalFormIsCanonical | client/runtime/systems/conduit/conduit-client.ts:339-354 | `normalizeValue` is idempotent, and gives equal results exactly for values equal up to key order, for any total order of keys |
| CanonicalJson.CanonicalTextIsCanonical | client/runtime/systems/conduit/conduit-client.ts:334-337 | `canonicalJson` gives equal texts exactly for values equal up to key order |
| CanonicalJson.CodeUnitTotal | client/runtime/systems/continuity/resurrection_protocol.ts:39-39 | the default order of strings is a total order |
| CanonicalJson.CodeUnitOrderIsBefore | client/runtime/systems/continuity/resurrection_protocol.ts:39-39 | in that order a proper prefix comes first, and otherwise the text with the smaller unit at the first difference |
| CanonicalJson.StableIsCanonical | client/runtime/systems/continuity/resurrection_protocol.ts:32-43 | `stableStringify` writes the JSON text of the normalised value |
| CanonicalJson.StableStringifyIsCanonical | client/runtime/systems/continuity/resurrection_protocol.ts:32-43 | `stableStringify` gives equal texts exactly for values equal up to key order at every depth |
| CanonicalJson.StableStringifyAscends | client/runtime/systems/continuity/resurrection_protocol.ts:32-43 | what `stableStringify` writes is the JSON text of exactly one value: the one that means the same and whose keys ascend by code unit in every object |
| Receipts.EnsureReceiptIsIdempotent | client/runtime/systems/continuity/resurrection_protocol.ts:51-66 | asking for a receipt twice is asking once |
| Receipts.OnlyMutationsGetReceipts | client/runtime/systems/continuity/resurrection_protocol.ts:51-66 | a result changes exactly if the command is a mutation and the payload is an object or array without a receipt |
| Receipts.AddedReceiptVerifies | client/runtime/systems/continuity/resurrection_protocol.ts:51-66 | an added receipt is the receipt hash of the payload that carries it, and nothing else changes, for objects and for arrays copied to objects |
| Receipts.ReceiptTextIsCanonical | client/runtime/systems/continuity/resurrection_protocol.ts:45-49 | two payloads, objects or arrays, hash the same text exactly when their copies agree up to key order and any receipt they carry |
| Receipts.IndexedMeaning | client/runtime/systems/continuity/resurrection_protocol.ts:45-49 | the copy of an array holds each item, with its meaning, under its own index |
| Signing.NoTextEndsInAnother | client/runtime/systems/conduit/conduit-client.ts:329-332 | no JSON text is another JSON text with anything and a colon in front, so the last part of a signed text is told from what precedes it |
| Signing.SigningTextIsCanonical | client/runtime/systems/conduit/conduit-client.ts:329-337 | under any two keys, two values are signed alike exactly when they are equal up to key order and key id and secret are written alike |
| Signing.KeysWrittenAlike | client/runtime/systems/conduit/conduit-client.ts:331-331 | that holds of two pairs exactly when they are the same, or one is the other with the separating colon at another place |
| Signing.PlainKeysAreTold | client/runtime/systems/conduit/conduit-client.ts:329-337 | for key ids without a colon, signed texts are equal exactly when key ids, secrets and values are |
| Signing.ColonInKeyId | client/runtime/systems/conduit/conduit-client.ts:331-331 | two different pairs that sign every value alike |
| SafeCronSwap.Run | client/cognition/habits/routines/safe_cron_swap.js:9-202 | the step-by-step routine, retry loop included, computes the outcome that the results below are about |
| SafeCronSwap.RemovalNeedsVerification | client/cognition/habits/routines/safe_cron_swap.js:79-147 | the old job's removal is attempted verified exactly when the first listing showing the verify name passes the check, and unverified exactly when the check ends in a throw: a complaint whose note throws, or a next run that is no date |
| SafeCronSwap.NextRunDecides | client/cognition/habits/routines/safe_cron_swap.js:98-125 | from the data of the first job shown: without a next run, or with one more than a minute ago, the complaint ends the routine with no removal unless its note throws; a next run that is no date is passed over unverified; every other job is verified and the old one removed |
| SafeCronSwap.NothingFoundStops | client/cognition/habits/routines/safe_cron_swap.js:85-134 | if none of five looks shows the verify name nothing is removed, and the error says why |
| SafeCronSwap.RemovalEnds | client/cognition/habits/routines/safe_cron_swap.js:136-201 | how an attempted removal ends: exactly when it is a success, and which error it is otherwise |
| SafeCronSwap.FlagsAndSuccess | client/cognition/habits/routines/safe_cron_swap.js:149-201 | the report's flags imply each other in order, verification apart where its check was swallowed; success is the last flag, and means the final listing has the new id and lacks the old one |
| SafeCronSwap.UnverifiedRemovals | client/cognition/habits/routines/safe_cron_swap.js:100-125 | for both kinds of swallowed check, an input that removes the old job unverified and reports success |
| SafeCronSwap.OldOrNewIsAlwaysThere | client/cognition/habits/routines/safe_cron_swap.js:66-180 | if the scheduler drops nothing itself, the old or the new job exists at every moment of every behaviour, if and only if the old job does not have the verify name |
| SafeCronSwap.SharedNameCanLoseBoth | client/cognition/habits/routines/safe_cron_swap.js:91-95 | whatever jobs there are, if the old one has the verify name some behaviour leaves a moment with neither |
| SafeCronSwap.NewJobIsNew | client/cognition/habits/routines/safe_cron_swap.js:91-95 | if no job has the verify name at the start, the new id did not exist then |
| MemoryGuard.ParseArgsToFlags | client/runtime/systems/memory/policy_validator.ts:76-93 | a flag is set exactly when some token sets it, to the value of the last such token; a token for "__proto__" sets nothing |
| MemoryGuard.CheckRanking | client/runtime/systems/memory/policy_validator.ts:147-157 | accepts exactly the score lists without a finite rise between neighbours |
| MemoryGuard.PolicyExactly | client/runtime/systems/memory/policy_validator.ts:111-183 | the policy accepts exactly the arguments in which no token speaks against it, with the words and limits spelt out, and refuses for a reason that is there |
| MemoryGuard.OnlyPermittedIsForwarded | client/runtime/systems/memory/causal_temporal_graph.ts:81-101 | over any run of calls whatever reaches the bridge is permitted by the policy and comes from a session with a valid id |
| MemoryGuard.CommandsByName | client/runtime/systems/memory/causal_temporal_graph.ts:50-79 | which command each name stands for, with the rest of the arguments kept |
| MemoryGuard.SessionIdChars | client/runtime/systems/memory/session_isolation.ts:128-134 | the characters of a valid session id |
| MemoryGuard.CallNames | client/runtime/systems/memory/session_isolation.ts:116-136 | the session and the resource of a call are the trimmed values of its last tokens |
| MemoryGuard.NeighboursAreEnough | client/runtime/systems/memory/policy_validator.ts:150-156 | over any stretch of finite scores an accepted list descends over all pairs |
| MemoryGuard.GapHidesARise | client/runtime/systems/memory/policy_validator.ts:153-153 | for any gap between two finite scores there are scores that the check accepts and that rise across it |
| MemoryGuard.RankingCheckIsSound | client/runtime/systems/memory/policy_validator.ts:147-157 | every accepted list with the given gaps is in order over all its finite pairs if and only if the finite positions are one block |
| MemoryGuard.UnrankedButAccepted | client/runtime/systems/memory/policy_validator.ts:153-153 | 5, a text and 9 are accepted |
| MemoryGuard.OwnershipFile.Validate | client/runtime/systems/memory/session_isolation.ts:116-158 | checks the session id, refuses another session's resource, and records the owner |
| MemoryGuard.OwnershipIsPermanent | client/runtime/systems/memory/session_isolation.ts:137-152 | over any run of calls, all accepted calls naming a resource carry one session id, the recorded one if there was one |
| MemoryGuard.NamingSticksExactly | client/runtime/systems/memory/session_isolation.ts:140-151 | an accepted naming is recorded exactly when the name can be stored |
| MemoryGuard.OwnershipExactly | client/runtime/systems/memory/session_isolation.ts:137-152 | in every run of calls all accepted ones naming the resource carry one session, if and only if the table can store its name |
| MemoryGuard.ProtoHasTwoOwners | client/runtime/systems/memory/session_isolation.ts:140-151 | two sessions that are both accepted for "__proto__", whatever else the table holds |
| MemoryGuard.MapArgsTwice | client/runtime/systems/memory/causal_temporal_graph.ts:50-79 | mapping mapped arguments changes nothing |
| TaskGroup.StatusCounts | client/cognition/orchestration/taskgroup.ts:37-54 | the counting loop gives the number of occurrences of each status, and a total that also sees the odd names |
| TaskGroup.CountsByName | client/cognition/orchestration/taskgroup.ts:37-54 | each count is the number of agents with that status in any case, an absent one being pending, and the total counts "total" twice and inherited names once |
| TaskGroup.CountsIgnoreOrder | client/cognition/orchestration/taskgroup.ts:37-54 | counts do not depend on the order of agents, and sum to the total exactly when no odd name occurs |
| TaskGroup.TerminalIffComplete | client/cognition/orchestration/completion.ts:23-26 | the derived status is terminal if and only if the summary says complete, except for exactly the named groups with an odd status |
| TaskGroup.FallbackExactly | client/cognition/orchestration/taskgroup.ts:56-65 | the last line of the derivation is reached for exactly the named groups with an odd status |
| TaskGroup.OrdinaryGroupsAgree | client/cognition/orchestration/taskgroup.ts:56-65 | for allowed or unknown statuses the two views agree, the last line is dead, and when exactly each status is derived |
| TaskGroup.OddNameDisagrees | client/cognition/orchestration/taskgroup.ts:49-51 | one failed agent and one called "total" make a group failed and incomplete |
| Names.SessionIdIsStable | client/runtime/systems/autonomy/swarm_sessions_bridge.ts:94-101 | reading an id twice is reading it once |
| Names.SessionKeyRoundTrip | client/runtime/systems/autonomy/swarm_sessions_bridge.ts:94-107 | a trimmed, non-empty id is read back from its key exactly when it has no colon |
| Names.KeyIsWritten | client/runtime/systems/autonomy/swarm_sessions_bridge.ts:103-107 | the key of an id is "agent:main:subagent:" and the id |
| Names.NormalizeScopes | client/lib/emergency_stop.ts:18-31 | the nested loops with their duplicate check and sort give the named scopes in order, or just "all" |
| Names.SegmentNamesScope | client/lib/emergency_stop.ts:18-31 | a segment names a scope exactly if it is its name up to case and the spaces around it |
| Names.NormalIsSorted | client/lib/emergency_stop.ts:18-31 | normalised scopes are sorted by name |
| Names.ScopesRoundTrip | client/lib/emergency_stop.ts:18-31 | normalised scopes are distinct, complete, and unchanged by joining with commas and normalising again |

## Left out

- Kernels behind `invoke` and `bridge.run`, framework bridges, retired shims, dashboards and command lines: they forward to code that is not part of this model.
- Processes, files and the network: the gate file and the ownership file are state that reads back what was written; corrupted files and races between processes are not modelled, nothing in the code guards against them.
- The startup probe's cache and what the compatibility fallback runs: a run's end says only whether they succeeded.
- A ping whose answer throws: the fall-through of `websocket-client-patch.ts:141-157` would hand it to the application as a message, which is not an event.
- Which error texts count as timeout-like, texts of reports, logging, timestamps as text.
- `HeartbeatWebSocket` in `websocket-heartbeat.ts`: its server never answers it, and its timers repeat the server's check.
- The HTTP resync endpoint: its answer is arbitrary, so only the monotonicity of the last id is claimed across it, and nothing about which events are dispatched.
- Strength of SHA-256 and of signatures: the hash is any function, and results are about the texts it is given.
- Keys that look like integers, `__proto__` as a JSON key, `localeCompare` details and `undefined` members in the canonical printers: keys are compared by any total order on distinct keys.
- The loop that fills `out` in `normalizeValue`: modelled on values, as the sorted list of entries; the fresh object it builds is not aliased.
- `partialCountFromGroup`, `isEmergencyStopEngaged` and the response builders: they would only add easy members.
- Letters outside ASCII: lower-casing leaves them alone.
- Number and JSON parsing of policy flags: given as functions from texts, so the decisions are modelled and the parsers are not.
- Writing the note of a failed step throws only inside the verification loop: elsewhere it ends the routine without another command.
- The snapshot of the allocator's counters is five separate loads; nothing is claimed about one taken while calls are in progress.
