# Concurrent protocols of the agent orchestrator, verified

This project models the hand-written concurrent protocols and stateful algorithms of the orchestrator and proves,
for every run or every input, what they keep. Each component comes in up to three layers:

- **functions** on values, one for each critical section or pure step (`Dispatcher`, `Turns`, `History`, `TextBatch`,
  `PluginHost`, `LogPager`, `RateLimit`, `Pairing`, `ContainerPool`, …);
- **theorems** over whole runs, in which every critical section is one atomic step, every goroutine carries a program
  counter and steps interleave freely (`DispatcherRuns`, `TurnFencing`, `CompressionRace`, `TextBatchRuns`, `PluginRuns`, …);
- **objects** (`…Object`, `SessionStore`, `Dedup`), classes with the source's fields and loops, whose methods are proved
  to change the abstract state exactly as those functions say.

What is proved, hardest first:

1. **Task dispatcher.** The slot count is exact and never passes a positive limit, no wake-up is lost, no deadlock, from
   every reachable state everything drains, and nothing leaks or is closed twice, with any number of overlapping
   re-acquires. The promise that a repository runs one task at a time in submit order does *not* hold of the code once
   runs wait on callees, for two reasons. `giveBackLocked` closes a place that is still queued behind an open
   predecessor, so a later task can overtake (`UnrestrictedRunOvertakes`). And `reacquire` takes a slot even when the
   hold no longer records a place that has had its turn, so a task can have a slot beside the task at the head although no
   queued place was ever given back (`OrderlyRunOverlaps`). Both runs are built step by step. `RunOrderedIff` gives the
   exact condition for join order, `RunProperIff` the exact condition for join order *and* placed slots, and
   `DisciplinedRunExclusive` derives that then at most one chained task per repository has a slot. With no call waits at
   all order and exclusion always hold. (A run that waits keeps executing by design; exclusion is about slots.)
2. **Durable chat turns.** Attempts are fenced by (attempt, owner) over all interleavings of runners, crashes, recoveries and
   saves that are applied but reported as failed; a named reply is final. An answer replayed from an earlier reply names no
   message of its own: it is final if and only if nobody is failing its attempt (`CompletedFinalIff`), and a run that ends
   in one that can still be lost is built (`ReplayCanBeLost`).
3. **Conversation history and its compression.** Every run leaves a strictly sorted, duplicate-free log. A compression never
   loses a message it did not summarise, whatever arrives meanwhile and whatever the clock says: the result is always the
   sorted collection of what was unread, the retained ends, one summary and later arrivals. It stands in that order if and
   only if no message kept before the summary is ahead of the clock and the first one kept after it is strictly later than
   the summary. Both halves fail on sessions the store reaches (`ClockCanLag`, `EqualTimesMoveSummary`).
4. **Text batcher.** Fragments are conserved in order and at most one caller dispatches: exactly one unless the chosen caller
   cancels after it was chosen, in which case nobody does (`DispatchedIff`, `NobodyDispatches`). The comment at
   `internal/gateway/text_batch.go:190-192` says that each join resets the deadline; `Collect` does not, and the model
   follows the code.
5. **Plugin host.** The depth-first search succeeds exactly on closed acyclic graphs; starts and stops respect dependencies
   over every run.
6. **Log pager.** Following cursors forward or backward reads every matching entry of the window exactly once.
7. **Deduplicator, rate limiter, pairing store.** The bounded caches answer exactly as an unbounded history would. The comment
   at `internal/gateway/message_dedup.go:33-36` allows a queue slot to outlive its entry; in the code none ever does
   (`OrderListsEntries`). In the pairing store failed tries are not forgotten when a lockout ends, so after the first
   lockout every code has one try.
8. **Container teardown.** Exactly one of `Release` and the max-uptime callback stops and removes a container.

Time is an integer supplied by the environment; `dafny verify dfyconfig.toml` checks the whole project.

## Model

| member | source | states |
|---|---|---|
| `DispatcherInvariant.InvStep` | internal/daemon/daemon.go:1046-1248 | every step of Submit, setCallWaits, overlapping reacquires, finishRun, naming, limit changes, Wait and broadcasts keeps the invariant: slots counted, each open baton owned by one unfinished hold, tails open, sleepers owed a broadcast |
| `DispatcherInvariant.RunInv` | internal/daemon/daemon.go:1001-1248 | the invariant holds at every point of every run from an empty dispatcher |
| `DispatcherCapacity.StepRespectsLimit` | internal/daemon/daemon.go:1093-1098 | no step raises `active` by more than one, and one that raises it leaves the limit alone and does not pass a positive one |
| `DispatcherCapacity.ActiveCountsSlots` | internal/daemon/daemon.go:1093-1240 | in every interleaving `active` is the number of holds whose slot is true, each counted once, and only running tasks hold one |
| `DispatcherCapacity.FixedLimitHolds` | internal/daemon/daemon.go:1060-1098 | with a fixed positive limit, `active` never exceeds it |
| `DispatcherCapacity.Progress` | internal/daemon/daemon.go:1093-1248 | with tasks pending and no process running, some step of the dispatcher itself is enabled: batons wait only on older batons |
| `DispatcherCapacity.SleepersAreWoken` | internal/daemon/daemon.go:1060-1065 | whenever a sleeper could go on, a broadcast is already owed, for slot waiters and for Wait |
| `DispatcherCapacity.RunStep` | internal/daemon/daemon.go:1209-1240 | a submitted task that is not running always has, itself or through the task it queues behind, an enabled step that leaves less work |
| `DispatcherCapacity.ShrinkingStep` | internal/daemon/daemon.go:1121-1248 | every unfinished state has a dispatcher step or a returning process that leaves strictly less work and keeps the invariant |
| `DispatcherCapacity.CanDrain` | internal/daemon/daemon.go:1121-1248 | from every reachable state there is a run of dispatcher steps and process returns alone in which every goroutine ends |
| `DispatcherCapacity.NothingLeaks` | internal/daemon/daemon.go:1103-1203 | no baton is closed twice; every repository tail is the open baton of an unfinished chained hold; a finished hold keeps no slot, place or name even with a re-acquire in flight |
| `DispatcherCapacity.AllEndedIsEmpty` | internal/daemon/daemon.go:1121-1131 | once all runs ended, `active`, `pending`, the tails and the names are empty and every baton was closed exactly once |
| `DispatcherCapacity.SecondNameLeaks` | internal/daemon/daemon.go:1046-1055 | finishing a hold leaves a name behind exactly when it had been given another one before: why a process names its hold once |
| `DispatcherFifo.StepEffect` | internal/daemon/daemon.go:1083-1203 | what every step does to the baton chains: nothing, one join behind the tail, or one close |
| `DispatcherFifo.ChainsStep` | internal/daemon/daemon.go:1083-1116 | every step keeps each repository's batons one chain in join order with the newest open one as tail |
| `DispatcherFifo.OrderKeptIff` | internal/daemon/daemon.go:1103-1116 | a step keeps the join order if and only if it gives back no place still queued behind an open predecessor |
| `DispatcherFifo.OrderedIffOneHead` | internal/daemon/daemon.go:1083-1116 | turns follow the join order exactly when each repository has one head, now and after any next submission |
| `DispatcherFifo.DisorderMakesTwoHeads` | internal/daemon/daemon.go:1103-1116 | a chain out of order has two heads already or gets two with the next submission |
| `DispatcherRuns.RunChains` | internal/daemon/daemon.go:1083-1116 | the chain structure holds at every point of every run |
| `DispatcherRuns.RunOrderedIff` | internal/daemon/daemon.go:1083-1203 | a run keeps the join order throughout if and only if none of its steps gives back a queued place |
| `DispatcherRuns.DisciplinedRunFifo` | internal/daemon/daemon.go:1083-1203 | in a run that gives back no queued place one place per repository is at the head, and everything that joined before a head is closed; slots are the next rows' subject |
| `DispatcherRuns.NoWaitsSubmitOrder` | internal/daemon/daemon.go:1209-1240 | with no call waits, chained processes of one repository never overlap and start in submit order |
| `DispatcherExclusion.PlacedKeptIff` | internal/daemon/daemon.go:1181-1203 | a step keeps every slot of a chained task on a place that has had its turn if and only if it is no re-acquire that takes a slot without such a place |
| `DispatcherExclusion.RunProperIff` | internal/daemon/daemon.go:1083-1203 | a run keeps join order and placed slots throughout if and only if no step gives back a queued place and no re-acquire takes a slot for a chained hold without a place that has had its turn |
| `DispatcherExclusion.PlacedIsExclusive` | internal/daemon/daemon.go:1001-1002 | join order and placed slots leave at most one chained hold per repository with a slot |
| `DispatcherExclusion.DisciplinedRunExclusive` | internal/daemon/daemon.go:1001-1240 | in every run without either failing step at most one chained hold per repository has a slot, at every point |
| `DispatcherWitnesses.UnrestrictedRunOvertakes` | internal/daemon/daemon.go:1103-1203 | a concrete run in which a queued place is given back and two tasks of one repository have a slot at once, both at the head |
| `DispatcherWitnesses.OrderlyRunOverlaps` | internal/daemon/daemon.go:1159-1203 | a concrete run that gives back no queued place in which two tasks of one repository have a slot at once, one of them without any place, taken by a stale re-acquire |
| `DispatcherObject.TaskDispatcher.SetMaxConcurrency` | internal/daemon/daemon.go:1060-1065 | the limit changes and nothing else, and a broadcast follows |
| `DispatcherObject.TaskDispatcher.Name` | internal/daemon/daemon.go:1046-1055 | the object moves as the modelled critical section; zero names nothing |
| `DispatcherObject.TaskDispatcher.TakeSlotLocked` | internal/daemon/daemon.go:1093-1098 | a slot is taken exactly when the limit has room |
| `DispatcherObject.TaskDispatcher.JoinRepoLocked` | internal/daemon/daemon.go:1083-1087 | the baton joins behind the repository's tail, which is returned |
| `DispatcherObject.TaskDispatcher.GiveBackLocked` | internal/daemon/daemon.go:1103-1116 | slot and place are given back as modelled, the tail dropped when it is this place |
| `DispatcherObject.TaskDispatcher.FinishRun` | internal/daemon/daemon.go:1121-1131 | the object moves as the modelled critical section, and a broadcast follows |
| `DispatcherObject.TaskDispatcher.SetCallWaits` | internal/daemon/daemon.go:1134-1152 | the object moves as modelled, and says whether to broadcast or to start a re-acquire |
| `DispatcherObject.TaskDispatcher.ReacquireEnter` | internal/daemon/daemon.go:1159-1175 | gives up exactly when the run returned or waits again; joins the chain only when it has no place |
| `DispatcherObject.TaskDispatcher.ReacquireTaken` | internal/daemon/daemon.go:1181-1203 | a second re-acquire takes no second slot; one that is no longer needed gives everything back |
| `DispatcherObject.TaskDispatcher.SubmitJoin` | internal/daemon/daemon.go:1214-1224 | a new hold, queued behind its repository's tail when it is chained |
| `DispatcherObject.TaskDispatcher.SubmitCount` | internal/daemon/daemon.go:1226-1228 | one more pending task, nothing else |
| `TurnFencing.InvStep` | internal/gateway/session_store_memory.go:355-466 | every step of every runner, crash, recovery and claim keeps the fencing invariant and only moves records on |
| `TurnFencing.RunAdvances` | internal/gateway/session_store_memory.go:355-466 | over any stretch of any run attempts never fall, an attempt keeps its owner and a named reply is fixed |
| `TurnFencing.AttemptsAreFenced` | internal/gateway/session_store_memory.go:355-390 | each attempt number of a turn is won by at most one claim |
| `TurnFencing.ClaimsStrictlyIncrease` | internal/gateway/session_store_memory.go:355-390 | a granted claim has a higher attempt than every earlier one of that turn |
| `TurnFencing.StaleSavesRefused` | internal/gateway/session_store_memory.go:444-466 | saves of a superseded attempt leave every later ledger unchanged |
| `TurnFencing.RepliesAreFinal` | internal/gateway/turn.go:514-552 | once a record names its assistant message every later claim answers completed with the same text, whatever crashed, recovered or was applied but reported as failed |
| `TurnFencing.OneWriter` | internal/gateway/turn.go:576-588 | of all runners of a turn at most one can still pass the fence |
| `TurnReplays.RunReplayInv` | internal/gateway/turn.go:192-226 | at every point of every run whoever holds the attempt of a completed record is over or is failing it |
| `TurnReplays.CompletedFinalIff` | internal/gateway/turn.go:192-226 | however a run goes on, a completed answer stays, if and only if the record names its message or nobody is failing its attempt |
| `TurnReplays.RunCompletedFinalIff` | internal/gateway/turn.go:576-588 | the same at every point of every run |
| `TurnReplays.FailureReopens` | internal/gateway/turn.go:576-588 | the save of failTurn takes a replayed answer back, and the next claim is granted a new attempt |
| `TurnReplays.ReplayCanBeLost` | internal/gateway/turn.go:192-226 | a concrete run that ends with a completed answer that can still be lost |
| `Turns.AssistantIdInjective` | internal/gateway/turn_ledger.go:58-60 | two turns never share an assistant message id |
| `SessionStore.MemorySessionStore.ClaimTurn` | internal/gateway/session_store_memory.go:355-390 | record, answer and ledger are those of the model, with the error for a missing id |
| `SessionStore.MemorySessionStore.RecoverTurns` | internal/gateway/session_store_memory.go:402-418 | exactly the unfinished turns of other owners become failed |
| `SessionStore.MemorySessionStore.SaveTurn` | internal/gateway/session_store_memory.go:444-466 | the record is stored if and only if attempt and owner match; otherwise the ledger is unchanged and the error says which check failed |
| `History.SaveKeeps` | internal/gateway/session_store_memory.go:142-192 | saving keeps a log strictly sorted by (timestamp, sequence) with unique ids, and the message is then stored under its home id |
| `History.AppendIsLast` | internal/gateway/session_store_memory.go:164-191 | what an append stores lies strictly after everything stored, and nothing else changes |
| `History.RedeliveryChangesNothing` | internal/gateway/session_store_memory.go:142-163 | a message still stored under the id it was given is not stored again |
| `History.InsertIsSort` | internal/gateway/session_store_memory.go:183-190 | any sort of the appended log is the insertion the model uses |
| `History.SortedUnique` | internal/gateway/session_store_memory.go:183-190 | two strictly sorted logs of the same entries are equal |
| `History.Clamp` | internal/gateway/session_store_memory.go:168-176 | the clamped time is past every stored one, and unchanged when it already was |
| `SessionHistory.EveryRunStaysSorted` | internal/gateway/session_store_memory.go:120-249 | over every run of saves, replacements and deletions each session stays strictly sorted with unique ids |
| `SessionHistory.OneAssistantMessage` | internal/gateway/turn.go:526-534 | over every run, stored assistant messages of two turns are the same message if and only if the turns are the same |
| `SessionHistory.SaveAllFrame` | internal/gateway/session_store_memory.go:127-134 | saving to one session leaves every other alone, and the sequence never falls |
| `CompressionRace.AppendsExtend` | internal/gateway/session_store_memory.go:142-192 | concurrent appends only extend a session, with entries strictly later than everything stored |
| `CompressionReplace.FoundIffNotShadowed` | internal/gateway/session_store_memory.go:142-163 | writing a stored record back finds it under its own id if and only if its legacy id is not stored as another message |
| `CompressionReplace.ReplaceIff` | internal/gateway/session_store_memory.go:194-212 | for every store in order, the result holds exactly unread + head + one summary + tail + later, sorted; it holds them in that order if and only if nothing kept before the summary is ahead of the clock and the first message kept after it is strictly later than it |
| `CompressionReplace.ReplaceLands` | internal/gateway/session_store_memory.go:194-212 | whatever the clock says the summary lands among the kept messages and nothing else moves |
| `CompressionReplace.CompressedSortedIff` | internal/gateway/session_commands.go:674-686 | the summary in place of its middle is in order exactly when it fits between its neighbours |
| `CompressionReplace.StaysRisingIff` | internal/gateway/session_commands.go:642-686 | distinct timestamps stay distinct if and only if no kept message has the summary's |
| `CompressionRace.CompressionLosesNothing` | internal/gateway/session_commands.go:724-764 | for every store in order and all appends between count, read and replace, the session ends with exactly the older unread messages, the head, one summary, the tail and later arrivals, sorted; in that order if and only if the summary lands in place |
| `CompressionWitnesses.ClockCanLag` | internal/gateway/session_store_memory.go:168-176 | a session the store reaches, saved faster than its clock advances, in which the summary does not land behind the head |
| `CompressionWitnesses.EqualTimesMoveSummary` | internal/gateway/session_commands.go:674-686 | a session the store reaches, with two equal timestamps left by an earlier compression, in which a later summary moves although nothing is ahead of the clock |
| `SessionCompression.CompressSessionHistory` | internal/gateway/session_commands.go:724-764 | count, read, summarise and replace on the store object: nothing is written unless the view was compressed, and then the ends the view protects are the ends kept, its summary is the one new message, and nothing is lost |
| `SessionStore.MemorySessionStore.SaveMessageLocked` | internal/gateway/session_store_memory.go:142-192 | the object stores as modelled and returns the id the message lives under |
| `SessionStore.MemorySessionStore.ClampLoop` | internal/gateway/session_store_memory.go:168-176 | the loop computes the clamped time, strictly after every stored one |
| `SessionStore.MemorySessionStore.SaveMessages` | internal/gateway/session_store_memory.go:127-134 | the batch is saved in order |
| `SessionStore.MemorySessionStore.ReplaceMessages` | internal/gateway/session_store_memory.go:194-212 | writes first, then removes what was superseded and did not survive |
| `SessionStore.MemorySessionStore.MessageCount` | internal/gateway/session_store_memory.go:251-255 | the number of stored messages of the session |
| `SessionStore.MemorySessionStore.RecentMessages` | internal/gateway/session_store_memory.go:224-237 | the last n messages, oldest first, none for n at or below zero |
| `SessionStore.MemorySessionStore.DeleteRecentMessages` | internal/gateway/session_store_memory.go:239-249 | the last n messages go, and the count returned is how many did |
| `Compression.CompressHistory` | internal/gateway/compression.go:131-188 | terminates; compresses exactly when enabled and over the threshold; the result is a prefix, one summary and a suffix with at least one message gone; for every threshold it fits max(4 times the threshold, 1), and max(the threshold, 0) when the summary is ASCII |
| `Compression.TokenEstimate` | internal/gateway/compression.go:84-94 | four ASCII characters to a token, one for any other character |
| `Compression.EstimateTotal` | internal/gateway/compression.go:202-208 | the sum over the messages |
| `Compression.Truncate` | internal/gateway/compression.go:251-263 | unchanged when short enough; otherwise exactly the bound long: a beginning of the text, ending in dots when there is room for them |
| `Compression.TruncatedFits` | internal/gateway/compression.go:167-172 | for every threshold a truncated summary fits the character bound, and the threshold or zero when it is ASCII |
| `PluginOrder.StartOrder` | internal/plugin/host.go:326-362 | succeeds if and only if every dependency is registered and the graph is acyclic, and then lists every module once, each after its dependencies; terminates on every graph |
| `PluginOrder.StartOrderSearch.Visit` | internal/plugin/host.go:334-355 | the three-colour visit keeps a topological prefix and a path of modules being visited, and fails only on an unregistered dependency or a cycle |
| `PluginOrder.OrderMeansAcyclic` | internal/plugin/host.go:326-362 | a start order exists only for a closed, acyclic graph |
| `PluginOrder.CycleFound` | internal/plugin/host.go:335-341 | meeting a module that is being visited closes a cycle |
| `PluginHost.ReverseClone` | internal/plugin/host.go:426-432 | the copy is the reverse |
| `PluginHost.ReversedFailures` | internal/plugin/host.go:311-316 | trying in reverse and reversing the failures lists them in start order |
| `PluginRuns.RunInv` | internal/plugin/host.go:224-375 | over every run of Register, Start and Stop: a module starts only while all its dependencies are up, is stopped only after every started dependent was told to stop, and `started` is exactly what was started and not stopped successfully, in start order |
| `PluginRuns.RollbackStopsEachOnce` | internal/plugin/host.go:274-289 | a failed Start tries to stop every started module and the failing one exactly once, and `started` is then exactly those whose stop failed |
| `PluginObject.HostObject.RegisterModule` | internal/plugin/host.go:224-248 | a new id is recorded only while idle |
| `PluginObject.HostObject.StartModules` | internal/plugin/host.go:252-296 | starts in a valid order if there is one and changes nothing otherwise |
| `PluginObject.HostObject.RollBack` | internal/plugin/host.go:277-287 | what was started is stopped last first, and what would not stop is kept in start order |
| `PluginObject.HostObject.StopModules` | internal/plugin/host.go:300-324 | the object stops as modelled and reports success exactly when nothing is left |
| `PluginObject.HostObject.StopIds` | internal/plugin/host.go:364-375 | every stop is tried, and the failures are returned in the order tried |
| `TextBatchRuns.RunInv` | internal/gateway/text_batch.go:114-239 | the batcher's invariant holds at every point of every interleaving of joins, cancellations, deadlines and settlements |
| `TextBatchRuns.FragmentsConserved` | internal/gateway/text_batch.go:114-239 | for each key its settled batches in settle order and then its open batch are exactly its arrivals |
| `TextBatchRuns.SettledIsFinal` | internal/gateway/text_batch.go:214-239 | no fragment joins a settled batch; its payload is the trimmed texts joined in order |
| `TextBatchRuns.OneDispatcher` | internal/gateway/text_batch.go:182-187 | at most one caller of a batch is told to dispatch it |
| `TextBatchRuns.FirstDispatches` | internal/gateway/text_batch.go:182-239 | when all callers returned and none cancelled, the first one dispatches |
| `TextBatchRuns.DutyReachesFirstStaying` | internal/gateway/text_batch.go:228-236 | the duty goes to the first caller that had not left, every earlier one having cancelled |
| `TextBatchRuns.DispatchedIff` | internal/gateway/text_batch.go:166-187 | once its calls are over, a settled batch was dispatched if and only if it chose a call and that call did not cancel |
| `TextBatchRuns.NobodyDispatches` | internal/gateway/text_batch.go:166-187 | a concrete run in which the chosen call was already leaving and nobody dispatches, although another call waited to the end |
| `TextBatchRuns.PayloadRoundTrip` | internal/gateway/text_batch.go:243-254 | one-line fragments come back out of the payload, trimmed, in order |
| `TextBatch.CombinedText` | internal/gateway/text_batch.go:243-254 | the loop joins the trimmed texts one per line |
| `TextBatch.FirstStaying` | internal/gateway/text_batch.go:228-236 | the first caller that has not left, or none when all have |
| `TextBatchObject.TextBatchAggregator.JoinBatch` | internal/gateway/text_batch.go:119-159 | the critical section of Collect, with eviction of the oldest open batches |
| `TextBatchObject.TextBatchAggregator.Leave` | internal/gateway/text_batch.go:166-180 | a cancelled caller gives up its claim to dispatch |
| `TextBatchObject.TextBatchAggregator.SettleBatchLocked` | internal/gateway/text_batch.go:214-239 | a batch settles once, leaving the map and the list |
| `LogPaging.ForwardIsExact` | internal/logging/reader.go:330-389 | following Page cursors from 0 yields every matching entry of the window once, in file order |
| `LogPaging.ForwardCursorsRise` | internal/logging/reader.go:330-389 | a page that reports more has a strictly later cursor inside the file |
| `LogPaging.BackwardIsExact` | internal/logging/reader.go:395-453 | following PageBefore cursors from 0 yields the same entries once each in the same overall order |
| `LogPaging.BackwardCursorsFall` | internal/logging/reader.go:395-453 | backward cursors are positive and strictly fall |
| `LogPaging.TailIsFirstPage` | internal/logging/reader.go:286-325 | Tail is the first backward page |
| `LogPaging.ResumeAfter` | internal/logging/reader.go:255-281 | walking again from the end of a hit finds exactly the hits after it |
| `LogPager.WalkWindow` | internal/logging/reader.go:255-281 | the loop hands over every matching line in order and ends at the end of the data |
| `LogPager.CollectLast` | internal/logging/reader.go:419-434 | the shifting buffer holds the last matches up to the bound, and knows whether any were dropped |
| `LogPager.CollectFirst` | internal/logging/reader.go:354-364 | the first matches, and whether there were more |
| `LogPager.Page` | internal/logging/reader.go:330-389 | the page the specification describes |
| `LogPager.PageBefore` | internal/logging/reader.go:395-453 | the page the specification describes |
| `LogPager.Tail` | internal/logging/reader.go:286-325 | the result the specification describes |
| `LogPager.WindowOf` | internal/logging/reader.go:177-210 | the window is the last bytes of the file, all of it up to the scan limit, and says whether older bytes were left out |
| `Dedup.MessageDeduplicator.Admit` | internal/gateway/message_dedup.go:65-91 | a sourced message is refused exactly when the same key was admitted less than ttl ago and fewer than `cap` admissions have happened since; an unsourced one always passes |
| `Dedup.MessageDeduplicator.LiveIffRefused` | internal/gateway/message_dedup.go:78-81 | a live entry answers exactly as the full history of admissions |
| `Dedup.MessageDeduplicator.OrderListsEntries` | internal/gateway/message_dedup.go:97-114 | the queue is a duplicate-free listing of the live keys, never more than `cap` |
| `Dedup.MessageDeduplicator.Trim` | internal/gateway/message_dedup.go:109-113 | the oldest deliveries go, each only while there was no room for one more |
| `Dedup.MessageDeduplicator.Sweep` | internal/gateway/message_dedup.go:98-108 | exactly the expired deliveries leave map and queue |
| `Dedup.MessageDeduplicator.MakeRoom` | internal/gateway/message_dedup.go:82-113 | after re-arm, sweep and eviction the queue is an end of what it was, and what left it is too old or has `cap` admissions behind it |
| `Dedup.SweepResult` | internal/gateway/message_dedup.go:78-108 | re-arming an expired key and sweeping leave the end of the queue and forget only what is too old |
| `RateLimit.RunMeetsSpec` | internal/ratelimit/limiter.go:45-83 | every run answers as a full log of the allowed requests does: allowed exactly when fewer than max were allowed in (now - window, now] |
| `RateLimit.RequestAgrees` | internal/ratelimit/limiter.go:45-68 | one request: the answer counts the window of the full log, and the pruned logs still agree with it |
| `RateLimit.EvictionIsInvisible` | internal/ratelimit/limiter.go:72-83 | runs with the same requests and any evictions give the same answers |
| `RateLimit.RunsAreBounded` | internal/ratelimit/limiter.go:31-33 | over every run, no half-open interval of the window's length holds more than max allowed requests of a key |
| `RateLimit.AnyWindowBounded` | internal/ratelimit/limiter.go:31-33 | a log whose entries were each within the limit when added keeps every window within it |
| `RateLimit.HasHitIs` | internal/ratelimit/limiter.go:89-96 | the eviction test asks exactly whether pruning would leave nothing |
| `RateLimitObject.PruneInPlace` | internal/ratelimit/limiter.go:52-58 | the filter that overwrites the slice it reads computes the filtered log |
| `RateLimitObject.Append` | internal/ratelimit/limiter.go:65-67 | the append writes in place while the buffer has room and into a larger copy otherwise |
| `RateLimitObject.HasHitAfter` | internal/ratelimit/limiter.go:89-96 | found exactly when some hit is after the cutoff |
| `RateLimitObject.Limiter.Allow` | internal/ratelimit/limiter.go:45-68 | answer and logs are the model's, and no other key's buffer is touched |
| `RateLimitObject.Limiter.EvictStale` | internal/ratelimit/limiter.go:72-83 | exactly the keys without a live hit go, whatever the order of the loop, and the count is right |
| `Pairing.LockoutLength` | internal/pairing/store.go:65-77 | the loop computes min(2^n times LockoutDuration, MaxLockoutDuration) for every count within 64 bits, no intermediate value reaching twice the cap |
| `Pairing.Lockout` | internal/pairing/store.go:62-77 | every lockout lasts at least LockoutDuration and at most the cap |
| `PairingBudget.InvStep` | internal/pairing/store.go:120-222 | every call keeps failures, lockouts, pending codes and approvals in agreement with the trace of answers |
| `PairingBudget.TriesAreBounded` | internal/pairing/store.go:161-189 | over every run no code is wrongly tried more often than its user had tries left when it was issued, at most MaxFailures |
| `PairingBudget.ClosedIsFinal` | internal/pairing/store.go:161-202 | a code that was used, or whose wrong try locked its user out, is never tried or accepted again: every lockout outlasts the code |
| `PairingBudget.PairedInTime` | internal/pairing/store.go:161-202 | a pairing takes a code of that very user issued less than CodeTTL before |
| `PairingBudget.ApprovedIffPaired` | internal/pairing/store.go:191-202 | a user is approved if and only if some code of theirs was accepted |
| `PairingBudget.WaitsAddUp` | internal/pairing/store.go:177-189 | the n-th wrong try since the last pairing comes only after the first n - MaxFailures lockouts have been sat out |
| `PairingBudget.LockoutsTotal` | internal/pairing/store.go:62-77 | the first five lockouts add up to 31 hours and each further one to a day |
| `PairingBudget.GuessesPerDay` | internal/pairing/store.go:161-189 | from the tenth wrong try on a guesser gets one a day |
| `PairingObject.Store.PurgeExpired` | internal/pairing/store.go:216-222 | exactly the expired codes go |
| `PairingObject.Store.RequestCode` | internal/pairing/store.go:120-157 | the object answers and moves as modelled, with all three refusals |
| `PairingObject.Store.VerifyCode` | internal/pairing/store.go:161-202 | the object answers and moves as modelled, lockouts included |
| `ContainerPool.InvStep` | internal/container/pool.go:304-484 | every step of Acquire, Release and the max-uptime callback of any number of containers keeps the invariant |
| `ContainerPool.TornDownOnce` | internal/container/pool.go:369-412 | a container whose Release and callback are over was stopped and then removed exactly once, both by the same one of them |
| `ContainerPool.NeverTwice` | internal/container/pool.go:369-412 | at every moment the Docker calls are a beginning of one actor's stop and remove |
| `ContainerPool.NothingOutlivesRelease` | internal/container/pool.go:414-426 | after Release no teardown entry is left and the timer is not left armed |
| `ContainerPool.ActiveCounts` | internal/container/pool.go:304-318 | `active` is the number of reservations not given back, no reservation passes a positive cap, and no other step raises it |
| `ContainerPool.AllFinishedIsEmpty` | internal/container/pool.go:455-484 | when all containers are finished the pool is as it began |
| `ContainerPool.Progress` | internal/container/pool.go:369-484 | an unfinished container always has a step of its own |
| `ContainerPool.StepsRunOut` | internal/container/pool.go:369-484 | every step of a container brings its end nearer |
| `ContainerPoolObject.PoolObject.Reserve` | internal/container/pool.go:304-312 | refused exactly at a positive cap that is reached |
| `ContainerPoolObject.PoolObject.Unreserve` | internal/container/pool.go:314-318 | one reservation fewer |
| `ContainerPoolObject.PoolObject.ArmMaxUptime` | internal/container/pool.go:357-365 | an unclaimed entry exists, made only when there was none |
| `ContainerPoolObject.PoolObject.ClaimReaper` | internal/container/pool.go:386-395 | won exactly by closing an open entry; a missing one is a loss |
| `ContainerPoolObject.PoolObject.ClaimRelease` | internal/container/pool.go:399-411 | won on an open or missing entry; an open one is closed |
| `ContainerPoolObject.PoolObject.ForgetTeardown` | internal/container/pool.go:414-422 | the entry is gone and no other is touched |

## Left out

- The rest of the daemon (polling, binding dispatch, workflow pinning, worktrees, Kit launch) and everything that talks to Docker, NATS, HTTP, SQL, files or processes: plumbing around contracts that are not in this code. Docker's stop and remove are recorded as calls.
- The PostgreSQL session store: its guarantees rest on SQL; the in-memory store with the same contract stands for it, with saves that may be applied and still reported as failed.
- Channels are rows of a table, a closed channel a row with a close count; timers and clocks are integers from the environment; the Go scheduler is any interleaving of critical sections.
- JSON, hashing, UUIDs, random codes and log-entry decoding and matching: abstract, injective or fresh where a claim needs it. The pairing store's hash check is the parameter `matches`, and failures to generate a code or to write the state files are not modelled.
- A hold is named once per run, as its only caller does (internal/daemon/daemon.go:1579); `DispatcherCapacity.SecondNameLeaks` says exactly what a second name would leave behind. A hold's recorded attempt number is not modelled.
- Turn records carry no timestamps and no tool calls, and the text of a failure is a constant: no branch depends on them. Session Delete is not modelled.
- The library sort of the session store is insertion, justified by `History.InsertIsSort`.
- Compression.CompressHistory: the text of the summary is a parameter and the protected counts are not negative.
- CompressionRace.CompressionLosesNothing: the messages read carry no legacy separator in their ids (`CompressionReplace.FoundIffNotShadowed` says exactly when a record written back is found); deletions between the count and the replacement are not among the interleavings, and a session has one compression under way at a time.
- PluginHost: manifests are valid and panics of a module count as its failure; a module's health and the reload of settings are not modelled.
- TextBatch: inbound messages that may not be coalesced bypass the batcher and are not modelled, nor are the fields of an inbound message besides key and text.
- The session tracker's key strings, finite tables, prompts, chat commands and the dashboard: presentation or one-branch facts.
