# VanPilot: a verified model

This project models the logic of VanPilot, a system in which an agent supervisor on a Mac
Studio feeds text, bitmaps and display commands to an Android Auto app, and proves
properties of it with Dafny 4.11.  `dafny verify dfyconfig.toml` checks everything.

What is modelled, and where:

| modules | what they model |
|---|---|
| `Wrappers`, `Events`, `EventLog` | shared datatypes; events, the supervisor's event store and its stable sort by timestamp |
| `Connectivity`, `SyncClient` | the phone's connection monitor, batch size and poll |
| `BitmapCaches`, `Conversations`, `EventProcessing` | the phone's two-budget LRU cache, conversation tabs and event processor |
| `BitmapBudgets`, `CacheRoom` | which budgets keep LRU inclusion, and which never evict |
| `SyncCore`, `SyncCatchUp`, `SyncProtocol` | runs of appends and polls: no loss, convergence, bounded catch-up |
| `SyncLimits`, `SyncInFlight` | runs that show what the protocol does not promise; polls that take time |
| `BitmapTracker`, `BitmapFetches`, `McpPipeline` | per-client sent sets and the requests that fill them; tool handlers, bridge and log wired together |
| `PngFilter`, `PngCodec`, `PngFiles`, `PngIo`, `PngStandard` | the PNG reader and the two writers, as functions and as loops, and against the standard |
| `GoldenDiff`, `GoldenCounts` | crop, mask and comparison of golden images |
| `Calibration`, `CalibrationRecovery` | the calibration pattern, the marker detector and the transform, and what they recover |
| `GetBitmapWake`, `GetBitmapReplies` | blocking GetBitmap calls and submitters as interleaved threads, and when calls reply |
| `Instances`, `InstanceManager`, `InstanceOverlap` | port slots, instance records, and interleaved create and destroy calls |
| `Watchdogs`, `LogTailers` | silence reports and log polling over any schedule |

How the model is laid out.  An object whose methods update its fields is a class whose methods
are proved equal to a specification function on values (`Contents()`, `entries`); the theorems are
about those functions, over all inputs or all runs.  A run is a sequence of steps folded from the
initial state; a history (what was delivered, what was processed, for whom a slot was allocated)
is an ordinary field of the modelled state that no step reads.  Threads are program counters.

Hypotheses the theorems state, and where they come from:

- Nothing is added to the log behind the client's cursor (`SyncProtocol.Allowed`).  For the bridge this
  follows from a clock that does not run backwards, starting no earlier than the last seed event, and from everyone who
  adds events (tool calls, watchdog and log tailer threads) reading it and appending one at a time, so that no other
  append comes between (`McpPipeline.Permitted`, `McpPipeline.PipelineRuns`).
- Decompression undoes compression (`PngCodec.Lawful`); nothing is asked of the checksum.
- `SyncProtocol.CacheConverges` and `McpPipeline.NoFetchNeeded` ask for budgets with room for the log's distinct bitmap keys
  and the largest bitmap of each (`CacheRoom.Roomy`), which is exactly what no redelivery can exceed (`CacheRoom.RoomyIff`).
- `BitmapCaches.LruInclusion` assumes a byte budget that never binds; `BitmapBudgets.LargestPerKeySuffice` gives one, and
  `BitmapBudgets.InclusionIff` says for exactly which sizes and budgets inclusion holds after all operations.
- A poll of `SyncProtocol` is one step.  `SyncInFlight` splits it and shows that its theorems still hold as long as no answer
  arrives after an event was added behind the cursor it sets; such an event is lost if and only if that answer does arrive
  (`SyncInFlight.LostIffArrives`).  An event added behind the cursor itself is always lost
  (`SyncInFlight.AddedBehindCursorIsLost`), so the first hypothesis is needed.
- At most one create or destroy is in progress for each instance name; the model starts no second
  one.  `InstanceOverlap` drops the exclusion: runs that keep it anyway are the same, and others can leak a slot or
  give one away that is in use.

Where the code does less than its documentation says:

- The design calls sync idempotent.  It is not.  Events that carry the cursor are processed again by every poll, so texts
  repeat (`SyncCatchUp.PollRepeatsTexts`, with the exact condition, and `SyncLimits.TextIsRepeated`, a run).  After a failure
  a page may end before what was already delivered, and then the display or a cached bitmap goes back to an older value until
  a later page brings it forward (`SyncProtocol.RegisterSetBackIff`, with the exact condition, and
  `SyncLimits.DisplayCanGoBack`, a run), but never while at most five events share a timestamp
  (`SyncProtocol.FiveAStampNeverSetBack`).  Redelivered bitmaps also move to the recent end of the cache, so when a budget
  binds they can evict later ones (`SyncLimits.RedeliveryCanEvict`, a run).  What does hold is convergence: a page shorter than asked for brings every
  register to the last write of the log (`SyncProtocol.Convergence`).
- Catch-up is not guaranteed when fifty or more events share a timestamp; `SyncProtocol.CatchUp` gives
  the exact condition and `SyncLimits.FiftyEqualStampsPin` a run.
- The tracker's comment calls its set and clear race harmless.  It is while every other call has replied
  (`GetBitmapWake.SingleWaiterIsWoken`); otherwise a wake-up can be lost until the deadline, though never a reply.
  `GetBitmapWake.WakeLostIff` gives the exact condition and `GetBitmapWake.TwoWaitersCanLoseOne` a run.
- The calibration transform takes every marker for 50 pixels wide.  For a pattern shown at another scale its rectangle, and
  so the scale it reports, are wrong by what the markers grew (`CalibrationRecovery.DisplayedSizeShrinks`); unscaled it is
  exact only at odd coordinates (`CalibrationRecovery.DetectorUndoesGenerator`).
- Port triples stay apart only up to 277 slots (`Instances.PortsDisjointIff`).

## Model

| member | source | states |
|---|---|---|
| `SyncProtocol.NoLoss` | android/app/src/main/kotlin/com/vanpilot/auto/connectivity/SyncManager.kt:32-59 | In every run of appends, successful polls and failed polls that adds nothing behind the cursor, the delivered events are a prefix of the stable timestamp sort of the log, the cursor is the timestamp of the last of them (0 before the first) and lies at most a page behind it, and the batch size is one of 5, 10, 20, 40, 50 |
| `SyncProtocol.Progress` | android/app/src/main/kotlin/com/vanpilot/auto/connectivity/SyncManager.kt:34-58 | Between any two points of a run the cursor and the delivered count never decrease, and what was delivered stays in place at the front of the sorted log |
| `SyncProtocol.AtLeastOnce` | android/app/src/main/kotlin/com/vanpilot/auto/connectivity/SyncManager.kt:49-54 | Every delivered event has been processed at least as often as it occurs, in every run |
| `SyncProtocol.NothingInvented` | android/app/src/main/kotlin/com/vanpilot/auto/connectivity/SyncManager.kt:49-54 | Every event ever processed is a delivered one, in every run: nothing is invented |
| `SyncProtocol.Convergence` | android/app/src/main/kotlin/com/vanpilot/auto/connectivity/SyncManager.kt:32-59 | Whenever a poll returns fewer events than it asked for, everything is delivered, the display key is that of the last display command in the sorted log, and every key the cache holds has its last payload, despite redelivery and shrinking batches |
| `SyncProtocol.CacheConverges` | android/app/src/main/kotlin/com/vanpilot/auto/sync/EventProcessor.kt:58-69 | If moreover the budgets have room for the log's distinct bitmap keys and for the largest bitmap of each, the cache agrees after a short page with the last payload of every key, present or absent, however often events are redelivered |
| `SyncProtocol.UnevictedCacheConverges` | android/app/src/main/kotlin/com/vanpilot/auto/sync/EventProcessor.kt:58-69 | The same for any run in which nothing was evicted, whatever the budgets |
| `SyncProtocol.RegistersConverge` | android/app/src/main/kotlin/com/vanpilot/auto/sync/EventProcessor.kt:58-69 | The display register and each cache key hold what the whole sorted log last wrote to them after a short page |
| `SyncProtocol.RegisterInRun` | android/app/src/main/kotlin/com/vanpilot/auto/sync/EventProcessor.kt:58-69 | At every point of a run each register holds what some prefix of the sorted log, between the cursor and the delivered frontier, last wrote to it |
| `SyncProtocol.RegisterSetBackIff` | android/app/src/main/kotlin/com/vanpilot/auto/connectivity/SyncManager.kt:34-58 | At every point of a run, and for every prefix of the log a register may reflect there, the next poll replaces its value by an older and different one if and only if its page ends before the end of that prefix, writes the register, and the last write it stops short of has another value |
| `SyncProtocol.FiveAStampNeverSetBack` | android/app/src/main/kotlin/com/vanpilot/auto/connectivity/AdaptiveBatchConfig.kt:35-38 | While no timestamp is shared by more than five events of the log, the conservative page size, no poll of a run sets a register back |
| `SyncProtocol.ViewShowsRegisters` | android/app/src/main/kotlin/com/vanpilot/auto/sync/EventProcessor.kt:58-69 | The display key is a register's value, and so is every cached bitmap still held |
| `SyncProtocol.CatchUp` | android/app/src/main/kotlin/com/vanpilot/auto/connectivity/AdaptiveBatchConfig.kt:12-38 | Once appends stop, 5 plus the number of undelivered events successful polls deliver the whole log if and only if no fifty events from the cursor on share one timestamp with more beyond them; otherwise no number of polls does |
| `SyncProtocol.ViewIsWhatWasProcessed` | android/app/src/main/kotlin/com/vanpilot/auto/sync/EventProcessor.kt:111-113 | What the phone shows after a run is the fold of everything it ever processed, page by page |
| `SyncProtocol.MessagesAreTextsProcessed` | android/app/src/main/kotlin/com/vanpilot/auto/GrpcPollLoop.kt:53-62 | The messages shown are all the texts ever processed, repeats included, in order and filtered into tabs |
| `SyncProtocol.StepRefinesCore` | android/app/src/main/kotlin/com/vanpilot/auto/connectivity/SyncManager.kt:32-59 | Every step of log and client is a step of the cursor abstraction the run theorems are proved on |
| `SyncCore.PollAdvances` | android/app/src/main/kotlin/com/vanpilot/auto/connectivity/SyncManager.kt:34-54 | One poll keeps the cursor invariant, never moves the cursor back, and starts the next page inside or right after this one |
| `SyncCore.AppendAdvances` | supervisor/src/event_store.py:54-57 | An append not behind the cursor keeps the invariant and moves nothing already delivered |
| `SyncCore.PageIsSlice` | supervisor/src/event_store.py:43-52 | A page is a slice of the sorted log that starts no later than the first undelivered event |
| `SyncCore.RepeatsCarryTheCursor` | android/app/src/main/kotlin/com/vanpilot/auto/connectivity/SyncManager.kt:52-54 | Every repeated event carries exactly the cursor that was sent |
| `SyncCore.PollProcessesDelivered` | android/app/src/main/kotlin/com/vanpilot/auto/connectivity/SyncManager.kt:49-54 | A poll keeps the processed events a superset, with multiplicity, of the delivered ones |
| `SyncCore.PollUpdatesRegister` | android/app/src/main/kotlin/com/vanpilot/auto/sync/EventProcessor.kt:58-69 | A page moves each register to the end of the page, or leaves it where it was when the page writes nothing to it and ends earlier |
| `SyncCore.SetsBackIff` | android/app/src/main/kotlin/com/vanpilot/auto/sync/EventProcessor.kt:58-69 | From any state satisfying the invariant, exactly when one poll sets a register back: the page ends early, writes it, and the last write between its end and the reflected point has another value |
| `SyncCore.PollInventsNothing` | android/app/src/main/kotlin/com/vanpilot/auto/connectivity/SyncManager.kt:49-54 | A poll keeps every processed event among the delivered ones |
| `SyncCore.AppendKeepsRegister` | supervisor/src/event_store.py:54-57 | An append changes nothing a register already reflects |
| `SyncCore.ShortPageReflectsAll` | android/app/src/main/kotlin/com/vanpilot/auto/connectivity/SyncManager.kt:49-54 | A page shorter than asked for delivers the rest of the log and brings every register up to date |
| `SyncCatchUp.CatchUpIff` | android/app/src/main/kotlin/com/vanpilot/auto/connectivity/AdaptiveBatchConfig.kt:27-33 | The catch-up bound on the cursor abstraction, both directions, from every state satisfying the invariant |
| `SyncCatchUp.PollReducesWork` | android/app/src/main/kotlin/com/vanpilot/auto/connectivity/AdaptiveBatchConfig.kt:27-33 | On a drainable log each poll lowers the number of polls still needed until it is zero |
| `SyncCatchUp.PinnedForever` | android/app/src/main/kotlin/com/vanpilot/auto/connectivity/SyncManager.kt:52-54 | Fifty equal timestamps with more behind them keep the cursor from ever passing |
| `SyncCatchUp.FewPerTimestampDrains` | android/app/src/main/kotlin/com/vanpilot/auto/connectivity/SyncManager.kt:52-54 | Fewer than fifty events on every timestamp make the log drainable |
| `SyncCatchUp.PollRepeatsTexts` | android/app/src/main/kotlin/com/vanpilot/auto/sync/EventProcessor.kt:51-57 | A poll appends the delivered texts of its page again before the new ones; it adds each text once if and only if no event from the cursor to the end of the page or of what was delivered is a text |
| `SyncCatchUp.IdlePollsRepeatTexts` | README.md:67 | Polling is not idempotent for texts: n polls of an idle log lengthen the message list by n times the texts carrying the cursor |
| `SyncLimits.DisplayCanGoBack` | android/app/src/main/kotlin/com/vanpilot/auto/connectivity/SyncManager.kt:34-58 | A run in which everything is delivered and the sixth of six equally stamped display commands is shown, and after one failure and one more poll the fifth is |
| `SyncLimits.RedeliveryCanEvict` | android/app/src/main/kotlin/com/vanpilot/auto/connectivity/SyncManager.kt:34-58 | The same run with six bitmaps and a cache of one: everything is delivered and the sixth held, and after one failure and one more poll the fifth is in its place |
| `SyncLimits.FiftyEqualStampsPin` | android/app/src/main/kotlin/com/vanpilot/auto/connectivity/SyncManager.kt:52-54 | From the start: fifty appends stamped like the last seed event and a later one are a run after which no number of polls delivers the log |
| `SyncLimits.PollRepeatsTextsInRun` | README.md:67 | In a run, what the next poll adds to the message list, and exactly when it repeats none of it |
| `SyncLimits.IdleRunRepeatsTexts` | README.md:67 | After a run that has delivered the log, with fewer events at the cursor than the next page asks for, n polls lengthen the message list shown by n times the texts carrying the cursor |
| `SyncLimits.TextIsRepeated` | README.md:67 | From the start: one text appended and delivered by one poll is shown once more by every further poll |
| `SyncInFlight.InFlightRefines` | android/app/src/main/kotlin/com/vanpilot/auto/connectivity/SyncManager.kt:32-59 | Polls that take time, with appends and losses between answer and arrival: if nothing is added behind the cursor and no answer arrives after an append behind the cursor it sets, the world is that of an allowed run in which each poll that arrives is one step, taken where it was answered |
| `SyncInFlight.NoLossInFlight` | android/app/src/main/kotlin/com/vanpilot/auto/connectivity/SyncManager.kt:32-59 | So the cursor invariant and at-least-once delivery hold of such polls too |
| `SyncInFlight.LostIffArrives` | supervisor/src/event_store.py:43-57 | An event added behind the answer under way, though not behind the cursor, is never handed over if and only if that answer arrives, whatever else is added while it is under way; when it is lost the log must be drainable, as for catch-up |
| `SyncInFlight.MissedIffArrives` | supervisor/src/event_store.py:43-57 | With no condition on the log: such an event ends up in the log, behind the cursor and not handed over, if and only if that answer arrives |
| `SyncInFlight.MissedForever` | android/app/src/main/kotlin/com/vanpilot/auto/connectivity/SyncManager.kt:49-54 | What is in the log, behind the cursor and not handed over is never handed over, whatever happened before and whatever happens next |
| `SyncInFlight.NothingMissed` | android/app/src/main/kotlin/com/vanpilot/auto/connectivity/SyncManager.kt:32-59 | No event is ever in that state if nothing is added behind the cursor and no overtaken answer arrives |
| `SyncInFlight.AddedBehindCursorIsLost` | supervisor/src/event_store.py:43-57 | An event new to the phone and added behind its cursor is never handed over, so the rule against such additions is needed |
| `SyncInFlight.AllIsHandedOver` | android/app/src/main/kotlin/com/vanpilot/auto/connectivity/AdaptiveBatchConfig.kt:12-38 | After a run as above with no answer under way and a drainable log, polls alone hand over any event of the log |
| `SyncInFlight.AppendCanBeLost` | supervisor/src/event_store.py:43-57 | From the start: an event stamped before the third seed event, though not behind the phone's cursor, and added during the first poll is lost for good once that poll's answer arrives |
| `SyncClient.SyncManager.Poll` | android/app/src/main/kotlin/com/vanpilot/auto/connectivity/SyncManager.kt:32-59 | The client after a poll of the store is the one that received the next page, or the one that failed |
| `SyncClient.SyncManager.OnResponse` | android/app/src/main/kotlin/com/vanpilot/auto/connectivity/SyncManager.kt:36-54 | A response updates monitor, batch size, view and cursor in the source's order |
| `SyncClient.SyncManager.constructor` | android/app/src/main/kotlin/com/vanpilot/auto/connectivity/SyncManager.kt:19-23 | A new manager has cursor 0, is disconnected, and asks for 50 events |
| `Connectivity.AdaptiveBatchConfig.OnSuccessfulPoll` | android/app/src/main/kotlin/com/vanpilot/auto/connectivity/AdaptiveBatchConfig.kt:27-33 | The new batch size is the doubled one capped by the stable size and the upper bound |
| `Connectivity.AdaptiveBatchConfig.OnPollFailure` | android/app/src/main/kotlin/com/vanpilot/auto/connectivity/AdaptiveBatchConfig.kt:35-38 | A failure falls back to the conservative batch |
| `Connectivity.AdaptiveBatchConfig.OnReconnected` | android/app/src/main/kotlin/com/vanpilot/auto/connectivity/AdaptiveBatchConfig.kt:22-25 | A reconnect falls back to the conservative batch |
| `SyncClient.BatchRampsUp` | android/app/src/main/kotlin/com/vanpilot/auto/connectivity/AdaptiveBatchConfig.kt:22-33 | From any disconnected state the batch sizes of successive successes are 5, 10, 20, 40, then 50 for good, whatever the pages hold |
| `Connectivity.MonitorTracksCalls` | android/app/src/main/kotlin/com/vanpilot/auto/connectivity/ConnectionMonitor.kt:37-74 | After any successes, failures, reconnection attempts and acknowledgements the state is that of the last one, the failure count is of the failures since the last success, and listeners have heard every change of state once and no repeat |
| `Connectivity.FlagIff` | android/app/src/main/kotlin/com/vanpilot/auto/connectivity/ConnectionMonitor.kt:22-65 | The reconnection flag is up if and only if some success came after something other than a success and no acknowledgement has come since |
| `Connectivity.ConnectionMonitor.OnRpcSuccess` | android/app/src/main/kotlin/com/vanpilot/auto/connectivity/ConnectionMonitor.kt:37-45 | Success clears the failure count, connects, and flags a reconnection unless this is a first connection |
| `Connectivity.ConnectionMonitor.OnRpcFailure` | android/app/src/main/kotlin/com/vanpilot/auto/connectivity/ConnectionMonitor.kt:47-52 | Failure counts up and disconnects, notifying only on a change of state |
| `Connectivity.ConnectionMonitor.OnReconnectAttempt` | android/app/src/main/kotlin/com/vanpilot/auto/connectivity/ConnectionMonitor.kt:54-58 | An attempt moves to reconnecting, notifying only on a change |
| `Connectivity.ConnectionMonitor.ClearRecentReconnection` | android/app/src/main/kotlin/com/vanpilot/auto/connectivity/ConnectionMonitor.kt:61-65 | The reconnection flag goes down and nothing else changes |
| `Connectivity.ConnectionMonitor.DoTransition` | android/app/src/main/kotlin/com/vanpilot/auto/connectivity/ConnectionMonitor.kt:67-74 | Listeners hear of a state exactly when it changes |
| `EventLog.EventStore.GetEvents` | supervisor/src/event_store.py:43-52 | The page is the first `maxCount` events (all but the last few for a negative count, as Python slices) of the stable sort from the cursor on |
| `EventLog.EventStore.AddEvent` | supervisor/src/event_store.py:54-57 | One event is appended; the log is otherwise unchanged |
| `EventLog.EventStore.constructor` | supervisor/src/event_store.py:39-41 | A store starts with the three seed events |
| `EventLog.StableSortSorts` | supervisor/src/event_store.py:51 | The sort is sorted by timestamp |
| `EventLog.StableSortPermutes` | supervisor/src/event_store.py:51 | The sort has the log's events, with multiplicity |
| `EventLog.StableSortIsStable` | supervisor/src/event_store.py:51 | For every timestamp the sort keeps its events in the order of the log |
| `EventLog.StableSortUnique` | supervisor/src/event_store.py:51 | Nothing else is sorted and stable: the sort is determined by these properties |
| `EventLog.SortOfSinceIsSuffix` | supervisor/src/event_store.py:48-51 | Filtering by the cursor and then sorting gives the suffix of the sorted log from the cursor on |
| `EventLog.SortedLogIsFixed` | supervisor/src/event_store.py:51 | A log already in timestamp order is its own sort |
| `EventProcessing.EventProcessor.ProcessEvent` | android/app/src/main/kotlin/com/vanpilot/auto/sync/EventProcessor.kt:49-95 | One event changes message list, tabs, cache, pending set, display key, alerts and counter as its kind requires, and nothing else |
| `EventProcessing.EventProcessor.ProcessEvents` | android/app/src/main/kotlin/com/vanpilot/auto/sync/EventProcessor.kt:111-113 | A page is processed one event after the other |
| `EventProcessing.EventProcessor.CompleteFetch` | android/app/src/main/kotlin/com/vanpilot/auto/sync/EventProcessor.kt:103-109 | A finished fetch leaves the pending set and, with data, enters the cache and is counted |
| `EventProcessing.ProcessConcat` | android/app/src/main/kotlin/com/vanpilot/auto/sync/EventProcessor.kt:111-113 | Processing two pages one after the other is processing their concatenation |
| `EventProcessing.ProcessedDisplay` | android/app/src/main/kotlin/com/vanpilot/auto/sync/EventProcessor.kt:62-69 | The display key is that of the last display command processed |
| `EventProcessing.ProcessedTexts` | android/app/src/main/kotlin/com/vanpilot/auto/sync/EventProcessor.kt:51-57 | The message list is the texts processed, in order |
| `EventProcessing.ProcessedTabs` | android/app/src/main/kotlin/com/vanpilot/auto/GrpcPollLoop.kt:53-62 | The tabs are the filters of the texts processed |
| `EventProcessing.ProcessedAlerts` | android/app/src/main/kotlin/com/vanpilot/auto/sync/EventProcessor.kt:70-93 | The alerts are exactly the watchdog timeouts and delivery failures processed, in order, and the counter counts the events of no known kind |
| `EventProcessing.ProcessedPending` | android/app/src/main/kotlin/com/vanpilot/auto/sync/EventProcessor.kt:62-69 | While no fetch completes, a key is pending if and only if fetching is on and some display command came when the cache lacked it |
| `EventProcessing.CachedIsLastPayload` | android/app/src/main/kotlin/com/vanpilot/auto/sync/EventProcessor.kt:58-61 | Whatever the budgets, a cached key holds the last payload processed for it |
| `EventProcessing.NothingEvictedNothingMissing` | android/app/src/main/kotlin/com/vanpilot/auto/sync/EventProcessor.kt:58-61 | Without evictions every key with a payload is cached |
| `BitmapCaches.TrimIsLongestFittingSuffix` | android/app/src/main/kotlin/com/vanpilot/auto/cache/BitmapCache.kt:75-81 | What is left after trimming fits both budgets, and no longer suffix of the recency order does |
| `BitmapCaches.BitmapCache.Put` | android/app/src/main/kotlin/com/vanpilot/auto/cache/BitmapCache.kt:23-32 | The entry becomes the most recent, then the eldest are evicted: the entries are the trimmed recency order, and the byte count is their size |
| `BitmapCaches.BitmapCache.TrimToSize` | android/app/src/main/kotlin/com/vanpilot/auto/cache/BitmapCache.kt:75-81 | The eviction loop terminates and leaves exactly the trim of the entries, with the byte count kept equal to their size |
| `BitmapCaches.BitmapCache.Get` | android/app/src/main/kotlin/com/vanpilot/auto/cache/BitmapCache.kt:34-38 | A hit returns the value and makes the entry the most recent; a miss changes nothing and loads nothing |
| `BitmapCaches.BitmapCache.Remove` | android/app/src/main/kotlin/com/vanpilot/auto/cache/BitmapCache.kt:52-60 | The entry goes and its size with it; the order of the others stays |
| `BitmapCaches.BitmapCache.Contains` | android/app/src/main/kotlin/com/vanpilot/auto/cache/BitmapCache.kt:40-44 | Tests membership without touching the recency order |
| `BitmapCaches.StoredValues` | android/app/src/main/kotlin/com/vanpilot/auto/cache/BitmapCache.kt:23-32 | After a put every key still cached has its old value, or the new one if it is the key put |
| `BitmapCaches.LruInclusion` | android/app/src/main/kotlin/com/vanpilot/auto/cache/BitmapCache.kt:19-60 | Two caches with sizes k and k' at least k, run on the same puts, gets and removes with byte budgets that never bind: the smaller one's recency list is a subsequence of the larger's, so every key it holds the larger holds with the same value |
| `BitmapCaches.ReplayNested` | android/app/src/main/kotlin/com/vanpilot/auto/cache/BitmapCache.kt:19-60 | The invariant behind inclusion: subsequence, and a length gap of at most the capacity gap, after every operation |
| `BitmapCaches.StoredBytesSuffice` | android/app/src/main/kotlin/com/vanpilot/auto/cache/BitmapCache.kt:23-32 | A byte budget of all the bytes ever put never binds |
| `BitmapCaches.ReplayFacts` | android/app/src/main/kotlin/com/vanpilot/auto/cache/BitmapCache.kt:19-60 | In every reachable state keys are distinct, the count is within the size, and the bytes are at most those ever put |
| `BitmapBudgets.ByteBudgetBreaksInclusion` | android/app/src/main/kotlin/com/vanpilot/auto/cache/BitmapCache.kt:19-81 | For all sizes of at least 2 and every positive byte budget there is one sequence of puts and reads that, run from empty caches of both sizes, leaves a key in the smaller and not in the larger |
| `BitmapBudgets.InclusionIff` | android/app/src/main/kotlin/com/vanpilot/auto/cache/BitmapCache.kt:19-81 | The larger cache includes the smaller after all operations if and only if the smaller has at most one entry, the sizes are equal, or the byte budget is not positive |
| `BitmapBudgets.LargestPerKeySuffice` | android/app/src/main/kotlin/com/vanpilot/auto/cache/BitmapCache.kt:23-32 | A byte budget with room for the largest bitmap of every key put never binds, however often and in whatever order they are put |
| `CacheRoom.RoomyNeverEvicts` | android/app/src/main/kotlin/com/vanpilot/auto/sync/EventProcessor.kt:58-61 | If the distinct bitmap keys of a log are within the count and the largest bitmap of each within the bytes, then nothing made of that log's events evicts, repeats and order notwithstanding |
| `CacheRoom.RoomyIff` | android/app/src/main/kotlin/com/vanpilot/auto/sync/EventProcessor.kt:58-61 | And only then: nothing made of the log's events in any order and with any repeats ever evicts if and only if that room is there |
| `Conversations.RoutingIsAFilter` | android/app/src/main/kotlin/com/vanpilot/auto/GrpcPollLoop.kt:53-62 | From empty tabs the lead tab is the in-order filter for the lead, the sub-tabs are the first two other agents in order of first appearance, each with exactly its own messages, and the order list is the map's keys |
| `Conversations.AppearancesAreDistinct` | android/app/src/main/kotlin/com/vanpilot/auto/ConversationTabManager.kt:103-110 | The order of first appearance names each agent once and never the lead |
| `Conversations.RouteNewWithoutRoom` | android/app/src/main/kotlin/com/vanpilot/auto/ConversationTabManager.kt:103-129 | A third agent's messages are dropped and change no tab |
| `Conversations.ConversationTabManager.RouteTextMessage` | android/app/src/main/kotlin/com/vanpilot/auto/GrpcPollLoop.kt:53-62 | Routing a message updates the tabs as the filter requires |
| `Conversations.ConversationTabManager.AddSubAgent` | android/app/src/main/kotlin/com/vanpilot/auto/ConversationTabManager.kt:103-110 | A known agent or a full list changes nothing; otherwise the agent gets an empty tab at the end |
| `Conversations.ConversationTabManager.AddSubAgentMessage` | android/app/src/main/kotlin/com/vanpilot/auto/ConversationTabManager.kt:125-129 | The message is added to the agent's tab if there is one |
| `Conversations.ConversationTabManager.AddLeadAgentMessage` | android/app/src/main/kotlin/com/vanpilot/auto/ConversationTabManager.kt:87-91 | The message is added to the lead tab |
| `BitmapTracker.SentIff` | supervisor/src/bitmap_cache_tracker.py:63-94 | A key is in a client's sent set if and only if it was marked for that client, or present in its reconcile, with no later reconcile or clear of that client; other clients do not matter |
| `BitmapFetches.ReconcileThenFetch` | supervisor/src/sync_service.py:77-107 | A client that fetches every key its reconcile reported missing ends up recorded as holding all that was stored then, however lookups and answers interleave with other requests, unless it reconciles again or is cleared |
| `BitmapFetches.FetchMarks` | supervisor/src/sync_service.py:78-86 | A GetBitmap call that looks up a stored key finds it and, once it answers, leaves it in the client's sent set |
| `BitmapFetches.SentAfterIff` | supervisor/src/sync_service.py:77-86 | While a client is neither cleared nor reconciled, its sent set gains exactly the keys that its calls looked up while they were stored and answered |
| `BitmapTracker.BitmapCacheTracker.Reconcile` | supervisor/src/bitmap_cache_tracker.py:80-94 | The sent set becomes the client's keys; the answer is what the store has and the client lacks |
| `BitmapTracker.BitmapCacheTracker.StoreBitmap` | supervisor/src/bitmap_cache_tracker.py:29-34 | The bitmap replaces any earlier one under its key and the event is set |
| `BitmapTracker.BitmapCacheTracker.MarkSent` | supervisor/src/bitmap_cache_tracker.py:63-68 | The key joins the client's set, created if need be; the store and other clients stay |
| `BitmapTracker.BitmapCacheTracker.GetBitmap` | supervisor/src/bitmap_cache_tracker.py:48-51 | Returns the stored bytes, or nothing if the key is absent |
| `BitmapTracker.BitmapCacheTracker.GetSentKeys` | supervisor/src/bitmap_cache_tracker.py:70-73 | The sent set, empty for a client never seen |
| `BitmapTracker.BitmapCacheTracker.ClearClient` | supervisor/src/bitmap_cache_tracker.py:75-78 | Only that client's set is forgotten |
| `McpPipeline.PipelineRuns` | e2e/smoke_test_runner.py:93-99 | In every run of tool calls, other events and polls under a clock that does not run backwards, nothing is added behind the cursor, the log is in order, every display command follows a payload for its key, and the handlers' cache, the bridge's store and the last payloads in the log are the same map |
| `McpPipeline.NoFetchNeeded` | android/app/src/main/kotlin/com/vanpilot/auto/sync/EventProcessor.kt:62-69 | A client whose budgets have room for the log's distinct keys and the largest bitmap of each has no pending fetches, in every such run |
| `McpPipeline.UnevictedNeedsNoFetch` | android/app/src/main/kotlin/com/vanpilot/auto/sync/EventProcessor.kt:62-69 | Nor has any client that evicts nothing |
| `McpPipeline.ActIsAtDesk` | mcp/src/handlers.py:74-165 | The actions of a run change the handlers' cache, the shown key, the bridge's store and the log exactly as the methods below do |
| `McpPipeline.PollIsPoll` | android/app/src/main/kotlin/com/vanpilot/auto/connectivity/SyncManager.kt:32-59 | A poll of a run receives the next page of the log, or fails if the server is not reachable |
| `McpPipeline.BackedNeedsNoFetch` | android/app/src/main/kotlin/com/vanpilot/auto/sync/EventProcessor.kt:62-69 | If every display command processed follows a payload for its key, and nothing is evicted, nothing is pending |
| `McpPipeline.PageKeepsBacked` | mcp/src/handlers.py:95-101 | Replaying a page from inside what was delivered keeps every display command behind a payload for its key |
| `McpPipeline.CursorNotAfterClock` | supervisor/src/mcp_bridge.py:74-76 | The client's cursor never passes the bridge's clock, so the protocol's hypothesis holds for the bridge |
| `McpPipeline.McpHandlers.HandleSubmitBitmap` | mcp/src/handlers.py:148-165 | The cache, the bridge's store and the log all gain the bitmap under the key of its contents |
| `McpPipeline.McpHandlers.HandleDisplayBitmap` | mcp/src/handlers.py:95-101 | An unknown key changes nothing and fails; a known one becomes current and is logged |
| `McpPipeline.McpBridge.OnBitmapSubmitted` | supervisor/src/mcp_bridge.py:111-121 | Stores the bitmap and appends its payload event, leaving the sent sets alone |
| `McpPipeline.McpBridge.OnDisplayRequested` | supervisor/src/mcp_bridge.py:123-131 | Appends the display command |
| `PngFilter.DefilterUndoesFilter` | goldens/golden_diff.py:51-73 | For every filter type, row, previous row and pixel size, defiltering undoes the filter of section 6 of RFC 2083 |
| `PngFilter.FilterUndoesDefilter` | goldens/golden_diff.py:51-73 | And filtering undoes defiltering, so no two filtered rows decode alike |
| `PngFilter.PaethPredictor` | goldens/golden_diff.py:17-28 | The result is the neighbour nearest to the estimate, ties going to left, then above |
| `PngFilter.DefilterRow` | goldens/golden_diff.py:31-73 | The in-place loops compute the defiltered row, or the error for an unknown type or a row longer than the one above |
| `PngFilter.DefilterAt` | goldens/golden_diff.py:52-70 | Byte by byte, what each of the five filter types adds to a stored byte (section 9.2 of the W3C PNG Specification) |
| `PngFilter.DefilterSub` | goldens/golden_diff.py:54-57 | The loop over the row equals the specification of filter 1 |
| `PngFilter.DefilterUp` | goldens/golden_diff.py:58-60 | The loop equals the specification of filter 2 |
| `PngFilter.DefilterAverage` | goldens/golden_diff.py:61-64 | The loop equals the specification of filter 3 |
| `PngFilter.DefilterPaeth` | goldens/golden_diff.py:65-70 | The loop equals the specification of filter 4 |
| `PngFilter.DefilterNone` | goldens/golden_diff.py:52-53 | The copy equals the specification of filter 0 |
| `PngCodec.UnpackPack` | goldens/golden_diff.py:257 | Big-endian 32-bit lengths and sizes read back as written |
| `PngCodec.ParseUndoesSerialize` | goldens/golden_diff.py:100-118 | Reading any list of chunks other than the end chunk means what the list means, and reading goes on with the bytes after it |
| `PngCodec.DecodeFile` | goldens/golden_diff.py:92-118 | A file's meaning depends only on what its chunks mean: checksums and bytes after the end chunk do not matter |
| `PngCodec.AncillaryChunksAreIgnored` | goldens/golden_diff.py:106-118 | Inserting a chunk of unknown kind anywhere does not change what is read, errors included (section 5.3 of the W3C PNG Specification) |
| `PngCodec.DataChunksMayBeSplit` | goldens/golden_diff.py:115-123 | Splitting a data chunk anywhere in the stream does not change what is read, errors included (section 11.2.4 of the W3C PNG Specification) |
| `PngCodec.AnyFiltersDecode` | goldens/golden_diff.py:123-138 | An image whose every row uses a filter of its own decodes to the original pixels, for 3 and 4 bytes a pixel |
| `PngFiles.RoundTrip` | goldens/golden_diff.py:252-270 | Whenever the pixel writer succeeds, the reader gives back width, height and every pixel |
| `PngFiles.MakePngIsEncode` | mcp/src/png_util.py:17-42 | The solid-colour writer writes the same file, or fails alike, as the pixel writer on a solid image |
| `PngFiles.MakePngRoundTrip` | mcp/src/png_util.py:17-42 | A solid image reads back with its size and every pixel that colour |
| `PngStandard.RgbFileDecodes` | goldens/golden_diff.py:76-140 | A file of colour type 2, of any size, with any filter on every row and its data split anyhow, reads as its rows' pixels at three bytes a pixel |
| `PngStandard.RgbaFileDecodes` | goldens/golden_diff.py:76-140 | A file of colour type 6 likewise, at four bytes a pixel, the fourth dropped |
| `PngStandard.PixelInRows` | goldens/golden_diff.py:134-137 | Those pixels by coordinates: the first three bytes of each pixel's place in its row |
| `PngStandard.NoSignature` | goldens/golden_diff.py:92-93 | Reading fails as not a PNG file if and only if the file does not begin with the signature |
| `PngStandard.UnsupportedIff` | goldens/golden_diff.py:106-112 | A file's header is refused if and only if its bit depth is not 8 or its colour type neither 2 nor 6 |
| `PngStandard.NoDataIff` | goldens/golden_diff.py:120-121 | A file with a supported header is refused for want of data if and only if it has no data chunk |
| `PngStandard.ShortHeaderIff` | goldens/golden_diff.py:106-107 | A header cannot be unpacked if and only if it has fewer than ten bytes |
| `PngStandard.HeaderlessFile` | goldens/golden_diff.py:95-140 | A file with no header reads as an image of no size, if it has data that decompresses |
| `PngStandard.WrittenIsSound` | goldens/golden_diff.py:252-270 | Every file the writer makes passes the checks of a strict reader: signature, header, chunk lengths, checksums of type and data, and the end chunk (sections 5.3 and 11.2 of the W3C PNG Specification) |
| `PngIo.ReadPngPixels` | goldens/golden_diff.py:76-140 | The chunk loop and the row and pixel loops compute the decoded image, or the first error |
| `PngIo.ReadChunks` | goldens/golden_diff.py:95-118 | The position loop over the file collects what parsing the chunks from byte 8 collects |
| `PngIo.ReadRows` | goldens/golden_diff.py:129-138 | The row loop decodes the data row by row, each from the row above, or gives the first error |
| `PngIo.RowsFromIs` | goldens/golden_diff.py:129-138 | The offset-and-accumulator form of the row loop equals row-by-row decoding of the rest of the data |
| `PngIo.RowToPixels` | goldens/golden_diff.py:134-137 | The pixel loop takes the row's pixels from its front, or fails at the first that is off its end |
| `PngIo.TakeFromIs` | goldens/golden_diff.py:134-137 | The offset form of the pixel loop equals taking pixels from the front of the rest of the row |
| `PngIo.MakePngFromPixels` | goldens/golden_diff.py:252-270 | The writer's loops produce the encoded file, or the error for sizes over 32 bits or too few pixels |
| `PngIo.WriteRows` | goldens/golden_diff.py:260-266 | The nested loops write the image's rows in order, each after a zero filter byte, or fail when the pixels run out |
| `PngIo.AllRowsWritten` | goldens/golden_diff.py:260-266 | Those rows are the image's rows in order, or an index error when the pixels run out |
| `GoldenDiff.CompareGolden` | goldens/golden_diff.py:203-249 | Errors of either file come first, the actual one's before the golden one's; otherwise the comparison of the two decoded images |
| `GoldenDiff.DiffLoop` | goldens/golden_diff.py:229-243 | The counter is the number of positions beyond the tolerance and the pixels are those of the diff image |
| `GoldenDiff.MatchIff` | goldens/golden_diff.py:225-246 | A match is reported if and only if the sizes agree and each of the three channels of every pixel is within the tolerance, for any tolerance |
| `GoldenDiff.ExactMatchIff` | goldens/golden_diff.py:225-246 | With no tolerance a match is reported if and only if the two images are equal |
| `GoldenDiff.CompareExactly` | goldens/golden_diff.py:203-246 | Comparing without naming a tolerance reports a match if and only if the two files decode to the same image |
| `GoldenDiff.DiffImageMarksDifferences` | goldens/golden_diff.py:235-249 | Decoding the diff image gives pure red at exactly the differing pixels and a third of the actual colour elsewhere |
| `GoldenDiff.MismatchReport` | goldens/golden_diff.py:225-227 | Different sizes never match, count every actual pixel, and come with a red 100 by 50 picture |
| `GoldenDiff.DiffPixels` | goldens/golden_diff.py:235-243 | A diff pixel is pure red if and only if the two pixels differ, since a third of a channel is at most 85 |
| `GoldenDiff.DecodedIsWhole` | goldens/golden_diff.py:129-140 | Every decoded image has width times height pixels, so comparing equal-sized images never runs off the end |
| `GoldenDiff.CropToAppPane` | goldens/golden_diff.py:143-179 | The crop of the clamped rectangle is encoded; a bad file's error is passed on |
| `GoldenDiff.CropPixels` | goldens/golden_diff.py:168-178 | The nested loops copy the rectangle row by row |
| `GoldenDiff.ClampedIsIntersection` | goldens/golden_diff.py:169-172 | Clamping keeps exactly the image's pixels in the rectangle asked for, for any integers and also inside out |
| `GoldenDiff.MaskStatusBar` | goldens/golden_diff.py:182-200 | The masked pixels are encoded; a bad file's error is passed on |
| `GoldenDiff.MaskLoop` | goldens/golden_diff.py:198-199 | The in-place loop paints the first pixels and leaves the others |
| `GoldenCounts.CropAt` | goldens/golden_diff.py:176-178 | Each pixel of the crop is the pixel of the image at the shifted coordinates |
| `GoldenCounts.CropCounts` | goldens/golden_diff.py:229-243 | The differences counted between two crops are as many as the coordinates inside the rectangle at which the images differ |
| `GoldenCounts.CropThenCompare` | goldens/golden_diff.py:168-249 | Crop, encode, decode and compare: the count is the number of differing coordinates in the clamped rectangle, and it is a match exactly when there are none |
| `GoldenCounts.MaskPaintsRows` | goldens/golden_diff.py:198 | Masking paints whole rows: all when more are asked for, none for a negative number |
| `GoldenCounts.MaskAt` | goldens/golden_diff.py:196-199 | By coordinates, the rows asked for are hot pink and all others as they were, for any number of rows |
| `GoldenCounts.MaskCounts` | goldens/golden_diff.py:196-200 | The differences counted between masked images are those below the mask if and only if the tolerance is not negative or nothing is masked |
| `GoldenCounts.MaskThenCompare` | goldens/golden_diff.py:182-249 | Mask, encode, decode and compare: only the rows below the mask count |
| `GoldenCounts.Coordinates` | goldens/golden_diff.py:178 | Every index of a flat image is that of coordinates within it |
| `Calibration.FillRect` | mcp/src/calibrate.py:133-139 | Exactly the rectangle's pixels get the colour and all others stay, negative coordinates counting from the end; one that leaves the image is an error, after its pixels up to the first outside were painted |
| `Calibration.GeneratePattern` | mcp/src/calibrate.py:27-53 | The drawn image is magenta with the four 50-pixel corner squares, later ones over earlier ones; it is an error exactly when the image is narrower or lower than a marker |
| `CalibrationRecovery.PatternColors` | mcp/src/calibrate.py:46-49 | In a pattern of at least 100 by 100 the first and last 50 columns and rows meet in red, green, blue and yellow squares, and everything else is magenta |
| `CalibrationRecovery.PatternMarker` | mcp/src/calibrate.py:46-49 | Inside a pattern of at least 100 by 100, exactly the pixels of a marker's square are within distance 80 of its colour |
| `Calibration.NearThreshold` | mcp/src/calibrate.py:142-144 | Along one channel a match means a distance below 80; 46 in every channel matches and 47 does not |
| `Calibration.FindMarkerCenter` | mcp/src/calibrate.py:147-178 | The result is the centre of the smallest box around the matching samples, and fails exactly when no sample matches |
| `Calibration.CenterIsMiddle` | mcp/src/calibrate.py:176-178 | Whatever the box, the centre found is the middle of the extreme matching samples, rounded down |
| `CalibrationRecovery.RectCenter` | mcp/src/calibrate.py:147-178 | A filled rectangle of any size from 2 by 2 up is found at its middle, to half a pixel |
| `Calibration.ScanRow` | mcp/src/calibrate.py:160-171 | One row of the scan extends the box by that row's matching samples |
| `Calibration.DetectMarkers` | mcp/src/calibrate.py:56-80 | All four markers are located, or the error names the first of red, green, blue and yellow whose colour no sample has |
| `Calibration.RoundHalf` | mcp/src/calibrate.py:110-113 | Rounding a half-integer goes to the nearest integer, and from the middle to the even one |
| `Calibration.RectAverages` | mcp/src/calibrate.py:110-113 | Each side of the recovered rectangle is the average of its two markers, 25 pixels further out, rounded to the nearest integer |
| `Calibration.TransformScales` | mcp/src/calibrate.py:115-130 | The scale times the pattern's size is the rectangle's, and there is an error exactly for an empty pattern |
| `CalibrationRecovery.MarkerOfPasted` | mcp/src/calibrate.py:147-178 | A marker pasted at any offset is found at its start plus 24 or 25, by the parity of the start |
| `CalibrationRecovery.PastedIsDetected` | mcp/src/calibrate.py:56-80 | Detection of a pasted pattern never fails and gives those four centres |
| `CalibrationRecovery.ShownIsDetected` | mcp/src/calibrate.py:56-80 | Detection of markers shown at any size, as in a scaled pattern, never fails and finds each at the middle of its rectangle |
| `CalibrationRecovery.RecoveredInset` | mcp/src/calibrate.py:97-113 | The transform takes every marker for 50 pixels: each side it recovers lies inside the shown one by half of what the markers are wider, to a pixel |
| `CalibrationRecovery.DisplayedSizeShrinks` | mcp/src/calibrate.py:115-121 | So the displayed size, and the scale with it, come out too small by what the markers are wider than 50, to a pixel |
| `CalibrationRecovery.DetectorUndoesGenerator` | mcp/src/calibrate.py:83-130 | For a pattern shown unscaled the transform recovers each side of the pasted rectangle exactly at odd coordinates and one pixel short at even ones |
| `CalibrationRecovery.DisplayedSize` | mcp/src/calibrate.py:115-117 | The displayed width and height of an unscaled pattern are within one pixel of the pattern's, and equal if and only if the pattern's is even |
| `GetBitmapWake.AnswerIsALookup` | supervisor/src/sync_service.py:77-96 | In every interleaving, what a call replies, empty or not, is what its key held at a lookup made after its last wait |
| `GetBitmapWake.EmptyReplyPrecedesStore` | supervisor/src/sync_service.py:78-91 | An empty reply's last lookup came before the key was ever stored, whatever became of the event |
| `GetBitmapWake.RepliesAreJustified` | supervisor/src/sync_service.py:79-91 | An empty reply means no waiting was asked for, the deadline has passed or the client is gone; a full one is recorded as sent |
| `GetBitmapReplies.CallIsKept` | supervisor/src/sync_service.py:73-75 | In every run a call keeps its client, its key and its deadline, the time it was made plus its wait in thousandths of a second, and is active until its client disconnects |
| `GetBitmapReplies.ClockIsElapsed` | supervisor/src/sync_service.py:75 | The clock of a run is the time that has passed in it |
| `GetBitmapReplies.BlockedLeavesIff` | supervisor/src/bitmap_cache_tracker.py:36-46 | A blocked call leaves its wait if and only if a submitter sets the event, or it times out at its deadline or later |
| `GetBitmapReplies.ExpiredCallReplies` | supervisor/src/sync_service.py:77-96 | In every run a call whose time is up replies within as many steps of its own as its place in the loop has left, with nothing if its key was not stored |
| `GetBitmapReplies.FiveTurnsSuffice` | supervisor/src/sync_service.py:77-96 | From anywhere in the loop that is at most five steps of its own, the end of a wait being one |
| `GetBitmapReplies.EmptyReplyIsDue` | supervisor/src/sync_service.py:87-91 | An empty reply is never early: the time since the call was made is at least its wait, or its client has disconnected |
| `GetBitmapReplies.RepliesFromFreshLookup` | supervisor/src/sync_service.py:77-91 | What a call replies is what it found at a lookup at most two of its own steps before |
| `GetBitmapReplies.WaitEndsInClear` | supervisor/src/bitmap_cache_tracker.py:36-46 | A call that waits looks up again only after clearing the event itself |
| `GetBitmapReplies.GoneCallReplies` | supervisor/src/sync_service.py:89-91 | A call whose client has gone and which is not waiting replies within four steps of its own |
| `GetBitmapReplies.SentIffDelivered` | supervisor/src/sync_service.py:79-80 | In every run exactly the keys that calls replied with are recorded as sent to their clients |
| `GetBitmapWake.WakeLostIff` | supervisor/src/bitmap_cache_tracker.py:29-46 | In every interleaving a call that missed its key has lost the wake-up if and only if since its miss, with its key stored and no set to come, another call cleared the event and nothing has been stored since |
| `GetBitmapWake.LossInStepIff` | supervisor/src/bitmap_cache_tracker.py:41-45 | A step loses a wake-up not lost before if and only if it is another call's clear while no submitter is between its store and its set |
| `GetBitmapWake.LostOnlyToOthers` | supervisor/src/bitmap_cache_tracker.py:41-45 | A call that missed its key loses the wake-up only if another call cleared the event since its miss, in every interleaving |
| `GetBitmapWake.SingleWaiterIsWoken` | supervisor/src/bitmap_cache_tracker.py:29-46 | No wake-up is lost while every other call, as long as this one exists, has replied: after a miss, a stored key means the event is set or a submitter is between its store and its set |
| `GetBitmapWake.BlockedMeansCleared` | supervisor/src/bitmap_cache_tracker.py:34-45 | While a call is blocked the event is cleared: every set wakes all of them |
| `GetBitmapWake.SetDelivers` | supervisor/src/sync_service.py:77-86 | A set takes a blocked call whose key is stored to a reply with that bitmap |
| `GetBitmapWake.TwoWaitersCanLoseOne` | supervisor/src/bitmap_cache_tracker.py:42-45 | With two calls there are runs that leave one blocked with its key stored, the event cleared and no set to come; the comment calling the race harmless overlooks them |
| `Instances.PortsDisjointIff` | instance_manager/src/port_allocator.py:3-6 | All port triples of the slots are disjoint if and only if there are at most 277 slots |
| `Instances.SlotOfConsolePort` | instance_manager/src/instance_manager_service.py:139 | The console port gives the slot back, and a slot's three ports differ |
| `Instances.PortAllocator.Allocate` | instance_manager/src/port_allocator.py:37-55 | The lowest free slot is taken, with console port 5554 plus twice the slot, the next for adb, and forward port 5277 plus the slot; or the error means every slot is in use |
| `Instances.PortAllocator.Release` | instance_manager/src/port_allocator.py:57-68 | The slot is freed, or it was not in use and nothing changes |
| `Instances.InstanceStore.Create` | instance_manager/src/instance_store.py:47-76 | A new record is stored as being created; an existing name is an error that changes nothing |
| `Instances.InstanceStore.Get` | instance_manager/src/instance_store.py:78-81 | The record, or nothing |
| `Instances.InstanceStore.UpdateState` | instance_manager/src/instance_store.py:88-103 | Only that record's state changes; a missing name is an error that changes nothing |
| `Instances.InstanceStore.Remove` | instance_manager/src/instance_store.py:105-114 | The record goes; a missing name is an error that changes nothing |
| `InstanceManager.RunKeepsInv` | instance_manager/src/instance_manager_service.py:92-146 | Every step of every interleaving, one call a name, keeps it that each slot in use is held by exactly the name it was allocated for, by its record or by its call in progress |
| `InstanceManager.StepKeepsInv` | instance_manager/src/instance_manager_service.py:92-146 | The same for one step: start, check, allocate, store, launch, roll back, find, mark, shut down, release, remove |
| `InstanceManager.NoSharedPorts` | instance_manager/src/instance_manager_service.py:92-146 | No two instances being created or running share a slot, and with at most 277 slots no port |
| `InstanceManager.RecordPorts` | instance_manager/src/port_allocator.py:46-51 | In every run every record has console port 5554 plus twice its slot, the next port for adb, and forward port 5277 plus its slot |
| `InstanceManager.QuiescentSlots` | instance_manager/src/instance_manager_service.py:118-146 | When no call is in progress, slots in use and stored records are in bijection, after failed creates too |
| `InstanceManager.CreateCompletes` | instance_manager/src/instance_manager_service.py:62-121 | A create on its own leaves a running instance on the lowest free slot, or, failing at any point, exactly what was there before |
| `InstanceManager.DestroyCompletes` | instance_manager/src/instance_manager_service.py:123-146 | A destroy on its own frees the slot its console port names and removes the record, or changes nothing |
| `InstanceManager.DestroyUndoesCreate` | instance_manager/src/instance_manager_service.py:62-146 | Creating and then destroying an instance leaves everything as it was |
| `InstanceManager.InstanceManagerServicer.CreateInstance` | instance_manager/src/instance_manager_service.py:62-121 | The method's sequence of allocator and store calls has the effect of the completed create, succeeds exactly when something changed, and otherwise reports the first thing that was wrong |
| `InstanceManager.InstanceManagerServicer.DestroyInstance` | instance_manager/src/instance_manager_service.py:123-146 | The method's sequence of calls has the effect of the completed destroy |
| `InstanceOverlap.ExclusiveRefines` | instance_manager/src/instance_manager_service.py:62-146 | With any number of calls allowed for one name, a run that begins none while another is in progress for its name is a run of the theorems above |
| `InstanceOverlap.ExclusiveNeverLeaks` | instance_manager/src/instance_manager_service.py:118-146 | So at rest after such a run a slot is in use if and only if a record has it |
| `InstanceOverlap.ConcurrentCreatesLeak` | instance_manager/src/instance_manager_service.py:92-105 | After any run, two creates for one name that both pass the check can go on to one running instance and one slot in use that no call and no record holds |
| `InstanceOverlap.SlotLeaks` | instance_manager/src/instance_manager_service.py:92-105 | From the start: a run of two such creates that is at rest with slot 1 in use and no record that has it |
| `InstanceOverlap.ConcurrentDestroysFreeAnother` | instance_manager/src/instance_manager_service.py:123-146 | After any run, two destroys of one name that overlap a create of another can end with the new instance running on a slot that is no longer in use, so that its ports will be handed out again |
| `InstanceOverlap.LateCalls` | instance_manager/src/instance_manager_service.py:110-146 | What a call does when an overlapping one has taken its record or its slot away: a destroy ends, a create goes on to release its slot, or ends if that is free already |
| `Watchdogs.SilenceIsReportedOnce` | supervisor/src/watchdog.py:108-126 | The reports of one registration do not overlap, each spans at least the timeout between two captured outputs that are equal, and no captured output in between differs |
| `Watchdogs.ReportIsExact` | supervisor/src/watchdog.py:117-122 | A report's milliseconds are the time between its two checks, to the millisecond, and so no less than the timeout |
| `Watchdogs.TotalSilence` | supervisor/src/watchdog.py:112-126 | Under a clock that does not run backwards the reported milliseconds sum to at most the time from registration to the last reset of the timer |
| `Watchdogs.SilenceWithinRegistration` | supervisor/src/watchdog.py:77-126 | And so to at most the time since registration |
| `Watchdogs.SilenceIsCovered` | supervisor/src/watchdog.py:108-126 | The reports follow on one another without a gap from the check that first captured the present output to the one that last reset the timer |
| `Watchdogs.SilenceIsReportedInTime` | supervisor/src/watchdog.py:113-126 | After a captured check, less than the timeout of silence is unreported |
| `Watchdogs.Watchdog.CheckSessions` | supervisor/src/watchdog.py:87-126 | One cycle updates every session as its own observation requires and emits, for each agent, exactly its own reports |
| `Watchdogs.Watchdog.CheckSession` | supervisor/src/watchdog.py:101-126 | A failed capture changes nothing; new output resets the timer; unchanged output past the timeout is reported and resets it |
| `Watchdogs.Watchdog.RegisterSession` | supervisor/src/watchdog.py:77-80 | Monitoring starts afresh with no output seen |
| `Watchdogs.Watchdog.UnregisterSession` | supervisor/src/watchdog.py:82-85 | Only that agent is forgotten |
| `LogTailers.EveryLineOnce` | supervisor/src/log_tailer.py:120-157 | If a file only grows by whole lines, then for every schedule of polls, failing ones included, the texts emitted are those of the lines up to the offset, in order and once each |
| `LogTailers.SchedulesAgree` | supervisor/src/log_tailer.py:120-157 | Two schedules that read equally far emit the same texts |
| `LogTailers.PollCatchesUp` | supervisor/src/log_tailer.py:125-145 | A poll that does not fail leaves nothing unread of what the file held when its size was taken |
| `LogTailers.SplitUndoesUnlines` | supervisor/src/log_tailer.py:147 | Lines written one after the other, each ended by a newline, are the lines read |
| `LogTailers.BreaksAre` | supervisor/src/log_tailer.py:147 | The nine characters that end a line, by code point; tab and printable characters do not |
| `LogTailers.RotatedFileIsReadAnew` | supervisor/src/log_tailer.py:130-145 | A file that shrank below what was read is read again from its start, and all its lines are emitted |
| `LogTailers.EmptiedFileIsSkipped` | supervisor/src/log_tailer.py:130-134 | A poll that finds the file empty changes nothing, not even the offset |
| `LogTailers.SplitConcatIff` | supervisor/src/log_tailer.py:147 | Splitting text read in two parts gives the lines of the whole if and only if the first part is empty or ends with a line break, or the second is empty |
| `LogTailers.TornLineIsLost` | supervisor/src/log_tailer.py:137-149 | A line written in two parts with a poll in between is lost although one poll would have emitted it |
| `LogTailers.LogTailer.TailFile` | supervisor/src/log_tailer.py:120-157 | One poll moves only this file's offset, restarts a file that shrank, and emits the new lines' texts for its agent |
| `LogTailers.LogTailer.EmitLines` | supervisor/src/log_tailer.py:147-157 | Each line that parses becomes one event, in order |

## Left out

- gRPC transport, protobuf encoding, HTTP dashboard, command-line client: requests and responses are plain values.
- Listener callbacks, `onUpdate`, logging: the monitor records which states its listeners hear of; nothing else is modelled.
- zlib, CRC-32, SHA-256 and base64: functions given as parameters, with only the inverse law of compression assumed.
- The wording of alerts: an alert keeps the data its text is made from.
- A negative `maxSize` of the LRU cache, for which the source would never stop evicting; integer overflow of timestamps, byte counts and counters.
- `BitmapStore` is its tracker: the delegating class adds nothing and is not modelled apart.  Width and height of a bitmap payload are never set by the bridge and are not modelled.
- The blocking form of the display tool and its confirmation loop: the event it emits is that of the non-blocking form.
- Removing a sub-agent, active tabs and tab identifiers: not reachable from event processing.
- A fetch completing between polls (`CompleteFetch`) is not a step of the runs, which by `McpPipeline.NoFetchNeeded` need none while the budgets do not bind.
- Pillow: PNG files of the calibration tools are taken as pixel arrays, painting outside of one raises, and negative coordinates count from the end.
- DetectorUndoesGenerator: says nothing about patterns below 100 by 100 pixels, where markers overlap; the scale factors are exact quotients, before the source rounds them to four places.
- AnswerIsALookup: the clock is read as one real number that does not run backwards, and a timed wait may end at any moment after the deadline; spurious wake-ups do not occur in Python's events.
- The GetBitmap loop is modelled by program counters and not as a method, since other threads act between its steps; `SetEvent` and the stores of submitters are such steps.
- Emulator and head-unit processes: starting one succeeds or fails arbitrarily, after which the record is running or in error; stopping one is best effort and has no effect on records.
- Create: of a record's fields only the state and the ports are kept; nothing modelled reads the others.
- UpdateState: only the state is updated, as the servicer does; other fields, unknown field names and a caller that still holds the record are not modelled.
- CreateInstance: whether the name, and whether AVD and snapshot are valid are given flags; the regular expression is not modelled.
- CheckSessions: registration during a cycle is not interleaved with it, sessions are visited in an arbitrary order, and the timestamps of the emitted events are not modelled.
- TailFile: one character stands for one byte, carriage returns have already been translated as Python's text mode does, the parser of a line is a parameter, and event timestamps are not modelled; a file that is replaced is covered for one poll but not in the theorem over schedules.
- Voice input, display history, JSON-RPC dispatch, tool tables, the second poller `SyncClient` and the unbounded bitmap map: each step is settled by reading one branch, or repeats what is modelled.
