# pivot: client protocols, caches and editor logic, verified

A Dafny model of the stateful client layer of `pivot-next` and of the Redis fallback of the `pivot`
backend, with proofs of what they keep in every run. `dafny verify dfyconfig.toml` checks everything.

| part | files | what is proved |
|---|---|---|
| live quotes | `LiveQuoteProtocol`, `LiveQuoteTheorems`, `LiveQuoteHistory`, `LiveQuoteManager`, `LiveQuoteHook`, `LiveQuoteClients`, `Powers` | one shared socket with counted subscriptions: what the server was told equals what is subscribed; nothing is stranded or leaked; ticks against REST answers; components and manager together |
| Redis | `RedisClient`, `MockRedis`, `Cache` | `get_redis` under any number of threads; a lazily expiring map against an eager one |
| run stream | `RunStream`, `RunStreamHistory`, `RunStreamClient`, `RunFold` | reconnect, poll and stop, and what stops it; folding callbacks follows the server |
| requests | `TtlCache`, `GetCoalescing`, `RequestResults`, `ApiClient` | which cached promise is returned, who shares a GET, what a request waits for, what it comes to and how often it is fetched |
| step forms | `SchemaCompiler`, `Json` | the compiled validator means what the schema says |
| references | `Refs`, `Decimal`, `Text`, `Selection` | scanner against printer, suggestions, acyclic dependencies |
| capabilities | `StepCompat` | which capabilities a prefix leaves, and the three buckets |
| watchlists | `Watchlists`, `WatchlistTabs` | stored states are fixed points; tabs converge |
| small formats | `RecentList`, `Crore` | the recent list is the deduplicated history; crore amounts read back |

Each protocol has two halves. A state datatype with a `Next` function per event, over which the run
theorems are stated, covers every interleaving, including those the environment chooses (late closes,
timers, network answers, threads, other tabs). A class holds the source's own variables and updates
them in place; each of its methods is proved to do exactly what `Next` says. Fields such as `sockets`,
`pending`, `frames` or `history` record the environment's side. `LiveQuoteHistory`, `RunStreamHistory` and
`RequestResults` retell the runs by the events alone: what a state says has happened did happen.

## Where the code does less than its comments say

- `liveQuoteManager.ts` promises one connection. A close event that arrives after a newer socket was
  installed clears `ws` all the same, and the newer socket is then live and forgotten
  (`LateCloseLeaksASocket`). `OneLiveIffNoLateClose` gives the exact condition; the subscription and
  timer theorems need none.
- `useLiveQuote.ts` does not let REST overwrite live data; that holds per component, from a tick it has
  heard to the end of its effect (`ResponseWritesIffNoTick`), and not for the snapshot it shares. After a
  change of symbol an answer still out replaces the old symbol's live snapshot
  (`LateResponseReplacesLiveSnapshot`), and so does the fallback of a second component that mounts on the
  symbol after the tick (`SecondComponentReplacesLiveSnapshot`). Its `isLive` is promised for ticks only;
  a REST quote that calls itself live shows as live too (`IsLiveIff`, `RestShowsAsLive`).
- `MockRedis.delete` reports success for a key that had expired but was not purged; it is the only
  reply that differs from an eager map (`LazyExpiryRefinesEager`).
- `ws.ts` can report data after `close()` and "open" after it stopped: `CloseSilencesIff` and
  `OpenAfterStopIff` say exactly when, `DataAfterClose` and `OpensAfterStop` are runs in which they do.
- `api.ts` says a 401 is retried once; it is retried as long as refreshes are granted
  (`RefreshesBoundFetches`, `RetriesAreUnbounded`).
- `json-schema-to-zod.ts`: a property with neither type nor enum is not checked at all, not even for
  presence when required (`UntypedAcceptsAnything`), and an enum ignores the other keywords of its
  property (`UnfaithfulEnum`). `MeaningPreservedIff` has the exact condition for whole schemas.
- `refs.ts` says that anything but its four shapes is rejected; a path after a workflow field and an
  empty path after a step pass too (`LooseRefsPass`; `ValidRefsExactly` gives the whole language).
- `watchlists.ts` promises that tabs stay in sync. They do when no tab reads or commits before its
  storage listener is bound (`ListeningTabsConverge`, and `ConvergesIffBindsFirst` for the converse). A
  tab that reads first can drop the event of a commit in between and stay behind
  (`LateListenerStaysStale`).
- `StockDetailPage.tsx` prints a negative amount with the Unicode minus, which the chart's reader
  drops, so negative amounts read back positive (`AccurateIffPositive`).

## Model

| member | source | states |
|---|---|---|
| `LiveQuoteProtocol.BackoffIsCappedExponential` | pivot-next/lib/liveQuoteManager.ts:109-115 | the delay table is 1 s doubled per attempt and capped at 30 s, for every number of attempts |
| `LiveQuoteProtocol.TotalRemove` | pivot-next/lib/liveQuoteManager.ts:137-141 | the total of the counts does not depend on the order in which they are added up |
| `LiveQuoteProtocol.TotalZeroIffEmpty` | pivot-next/lib/liveQuoteManager.ts:137-141 | with every count at least 1, the total is 0 exactly when nothing is subscribed |
| `LiveQuoteProtocol.SubscribeTables` | pivot-next/lib/liveQuoteManager.ts:285-309 | subscribe adds the listener and one to the count of the normalised symbol, and changes no other symbol |
| `LiveQuoteProtocol.UnsubscribeTables` | pivot-next/lib/liveQuoteManager.ts:316-338 | unsubscribe takes one off the count and the listener out, or drops the symbol from both tables when the count would reach 0 |
| `LiveQuoteProtocol.SubscribePreserves` | pivot-next/lib/liveQuoteManager.ts:285-309 | subscribe keeps the invariant: tables agree, each timer has its handle, the server's view matches, nothing stranded or leaked |
| `LiveQuoteProtocol.UnsubscribePreserves` | pivot-next/lib/liveQuoteManager.ts:316-338 | unsubscribe keeps the invariant, arming the idle timer exactly when nothing is left |
| `LiveQuoteProtocol.OpenPreserves` | pivot-next/lib/liveQuoteManager.ts:149-179 | opening a socket, current or old, keeps the invariant: everything subscribed is sent again on the current one |
| `LiveQuoteProtocol.ClosePreserves` | pivot-next/lib/liveQuoteManager.ts:196-204 | a close of any socket, old or current, with any code, keeps the invariant |
| `LiveQuoteProtocol.TimerPreserves` | pivot-next/lib/liveQuoteManager.ts:128-135 | a firing idle or reconnect timer keeps the invariant |
| `LiveQuoteProtocol.StepPreserves` | pivot-next/lib/liveQuoteManager.ts:121-338 | every event keeps the invariant |
| `LiveQuoteProtocol.RunKeepsInv` | pivot-next/lib/liveQuoteManager.ts:98-338 | the invariant holds in every state of every run |
| `LiveQuoteTheorems.ServerTracksCounts` | pivot-next/lib/liveQuoteManager.ts:143-205 | in every interleaving, while the current socket is open, replaying the messages sent on it gives exactly the symbols with a positive count; listeners and counts have the same keys and every count is at least 1 |
| `LiveQuoteTheorems.NeverStrandedNeverLeaking` | pivot-next/lib/liveQuoteManager.ts:121-141 | with a subscriber there is a socket, a pending reconnect, or the last close was 4001; with none, whatever is still held has the idle timer armed; it is armed only then; no timer is pending without its handle |
| `LiveQuoteTheorems.RetriesBackOff` | pivot-next/lib/liveQuoteManager.ts:207-215 | in every run the k-th reconnect since a socket last opened or the connection was closed for idleness waits min(1000 * 2^k, 30000) ms |
| `LiveQuoteHistory.SchedulesExactly` | pivot-next/lib/liveQuoteManager.ts:156-215 | in every run a step schedules a reconnect if and only if none is waiting and it is a close with a code other than 4001 while something is subscribed, or a connect that throws |
| `LiveQuoteHistory.LastCloseIsHistory` | pivot-next/lib/liveQuoteManager.ts:196-204 | the recorded close code is that of the last close event so far |
| `LiveQuoteHistory.StrandedOnlyAfter4001` | pivot-next/lib/liveQuoteManager.ts:196-204 | a subscribed symbol is without socket and retry only if the last close event had code 4001 |
| `LiveQuoteHistory.SocketsMadeExactly` | pivot-next/lib/liveQuoteManager.ts:156-174 | a step makes a socket if and only if it calls connect, that succeeds and no open or connecting socket is held; the new one is then held |
| `LiveQuoteHistory.MessagesSentExactly` | pivot-next/lib/liveQuoteManager.ts:143-338 | every step sends exactly this on the socket it holds open, and nothing elsewhere: a subscribe for a first listener, an unsubscribe for a last one, everything subscribed on opening, a pong for a ping |
| `LiveQuoteTheorems.StepKeepsOneLive` | pivot-next/lib/liveQuoteManager.ts:156-205 | a step keeps "only the current socket can be live" exactly when it is not a late close |
| `LiveQuoteTheorems.OneLiveIffNoLateClose` | pivot-next/lib/liveQuoteManager.ts:196-204 | at most the current socket is live throughout a run if and only if no close event arrives while another live socket is installed |
| `LiveQuoteTheorems.LateCloseLeaksASocket` | pivot-next/lib/liveQuoteManager.ts:196-204 | a run of five events that leaves a live socket nobody holds |
| `LiveQuoteTheorems.RunCountsMounts` | pivot-next/lib/liveQuoteManager.ts:285-338 | when clients pair their calls, counts and listener sets equal the mounts for every symbol, after any run |
| `LiveQuoteTheorems.PairedClientsAreCounted` | pivot-next/hooks/useLiveQuote.ts:187-209 | when calls are paired, a symbol's count is its listener-set size and its number of mounts, and a tick reaches exactly the mounted listeners |
| `LiveQuoteTheorems.BalanceExactly` | pivot-next/lib/liveQuoteManager.ts:285-338 | without the discipline, a call keeps counts and listener sets in step exactly when it adds a new listener, removes a registered one, or drops the symbol |
| `LiveQuoteManager.Manager.TotalSubscribed` | pivot-next/lib/liveQuoteManager.ts:137-141 | the loop returns the total, which is 0 exactly when nothing is subscribed |
| `LiveQuoteManager.Manager.OnTick` | pivot-next/lib/liveQuoteManager.ts:243-257 | calls each listener of the tick's symbol once and no other |
| `LiveQuoteManager.Manager.AddListener` | pivot-next/lib/liveQuoteManager.ts:285-309 | subscribe, field by field, is the modelled step |
| `LiveQuoteManager.Manager.RemoveListener` | pivot-next/lib/liveQuoteManager.ts:316-338 | unsubscribe, field by field, is the modelled step |
| `LiveQuoteManager.Manager.OnOpen` | pivot-next/lib/liveQuoteManager.ts:176-179 | onopen resets the attempts and resubscribes everything |
| `LiveQuoteManager.Manager.OnClose` | pivot-next/lib/liveQuoteManager.ts:196-204 | onclose, field by field, is the modelled step, whose reconnects `SchedulesExactly` decides: none after 4001 |
| `LiveQuoteManager.Manager.OnTimer` | pivot-next/lib/liveQuoteManager.ts:128-135 | the idle callback closes only if nothing is subscribed; the reconnect callback connects |
| `LiveQuoteManager.Manager.ConnectSocket` | pivot-next/lib/liveQuoteManager.ts:156-174 | connect does nothing when a socket is open or connecting, makes one otherwise, and schedules a retry if that throws |
| `LiveQuoteManager.Manager.ScheduleReconnectTimer` | pivot-next/lib/liveQuoteManager.ts:207-215 | at most one reconnect timer, with the next delay |
| `LiveQuoteManager.Manager.CloseSocket` | pivot-next/lib/liveQuoteManager.ts:217-231 | cancels the retry, closes and forgets the socket, resets the attempts |
| `Text.NormaliseIdempotent` | pivot-next/hooks/useLiveQuote.ts:101-113 | normalising a symbol twice, as the hook and then the manager do, is normalising it once |
| `Text.NormaliseIs` | pivot-next/hooks/useLiveQuote.ts:101-103 | space around a symbol is dropped, letters become capitals, spaces inside become underscores, nothing else changes |
| `Text.CaseDoesNotMatter` | pivot-next/hooks/useLiveQuote.ts:101-103 | spellings that differ in case only give the same symbol, and the same ticker |
| `LiveQuoteHook.RunKeepsInv` | pivot-next/hooks/useLiveQuote.ts:166-211 | in every run a component has at most one timer, none after its first tick and none without an effect |
| `LiveQuoteHook.TickFlagIsHistory` | pivot-next/hooks/useLiveQuote.ts:126-128 | the tick flag says exactly that the current effect has heard a tick |
| `LiveQuoteHook.ResponseWritesIffNoTick` | pivot-next/hooks/useLiveQuote.ts:145-163 | a REST answer is stored exactly when it is a quote and no tick was heard since the current effect began, and then under the symbol it was asked for |
| `LiveQuoteHook.QuietAfterFirstTick` | pivot-next/hooks/useLiveQuote.ts:171-204 | from the first tick to the cleanup neither timer is pending and no answer of that component changes any snapshot |
| `LiveQuoteHook.LateResponseReplacesLiveSnapshot` | pivot-next/hooks/useLiveQuote.ts:145-158 | after a change of symbol an older answer replaces the live snapshot of the symbol left behind |
| `LiveQuoteHook.SecondComponentReplacesLiveSnapshot` | pivot-next/hooks/useLiveQuote.ts:145-202 | a component mounted on a symbol after a tick replaces, with its fallback's quote, the live snapshot of another one still mounted |
| `LiveQuoteHook.SnapshotIsLastWrite` | pivot-next/hooks/useLiveQuote.ts:145-185 | in every run a snapshot is the last write to its symbol: price, change and time of that tick, or of that quote with the time it came |
| `LiveQuoteHook.HookIsHistory` | pivot-next/hooks/useLiveQuote.ts:166-211 | in every run the symbol watched, the two timers and the requests still out are what mounts, ticks, firings, answers and cleanups make them |
| `LiveQuoteHook.IsLiveIff` | pivot-next/hooks/useLiveQuote.ts:147-184 | in every run a snapshot says isLive if and only if its last write was a tick, or a REST quote that calls itself live |
| `LiveQuoteHook.RestShowsAsLive` | pivot-next/hooks/useLiveQuote.ts:151-157 | the fallback's quote shows as live with no tick at all |
| `LiveQuoteHook.LiveQuote.Listener` | pivot-next/hooks/useLiveQuote.ts:171-185 | the listener stops both timers on the first tick and replaces the snapshot on every tick |
| `LiveQuoteHook.LiveQuote.OnFallback` | pivot-next/hooks/useLiveQuote.ts:190-202 | the fallback callback asks REST and starts the poll, unless a tick came |
| `LiveQuoteHook.LiveQuote.OnResponse` | pivot-next/hooks/useLiveQuote.ts:145-163 | the answer's handler writes only without error and without a tick |
| `LiveQuoteClients.HooksPairTheirCalls` | pivot-next/hooks/useLiveQuote.ts:166-211 | whatever the components do and whatever happens in between, their calls of the manager are paired: a fresh listener per mount, one matching unsubscribe |
| `LiveQuoteClients.TicksReachTheWatching` | pivot-next/hooks/useLiveQuote.ts:187-205 | so in every joint run of components and manager a symbol's count is the number of components that watch it, and a tick reaches exactly their listeners |
| `RedisClient.StepPreserves` | pivot/backend/cache.py:122-173 | every step of every thread, and every advance of the clock, keeps the invariant |
| `RedisClient.RunKeepsInv` | pivot/backend/cache.py:122-173 | the invariant holds in every state of every run of any number of threads |
| `RedisClient.RealClientIsKept` | pivot/backend/cache.py:138-141 | a real client, once installed, is never replaced |
| `RedisClient.OneMockOneReal` | pivot/backend/cache.py:164-173 | the global goes from None to at most one MockRedis to at most one real client, and MockRedis is created at most once |
| `RedisClient.AttemptsAreSpaced` | pivot/backend/cache.py:143-165 | the j-th connection attempt starts at least 15 s times j - i after the i-th ended |
| `RedisClient.CallsReturnHeldClients` | pivot/backend/cache.py:138-173 | every finished call returns a client that the global held at some instant of that call |
| `RedisClient.MutualExclusion` | pivot/backend/cache.py:151-173 | at most one thread is between taking and releasing the lock |
| `RedisClient.SoloCall` | pivot/backend/cache.py:122-173 | for all readings in order and every outcome of the attempt, the steps of one thread that nobody interferes with can end in the globals that the specification of one call gives, returning the client held |
| `RedisClient.EverySoloCall` | pivot/backend/cache.py:122-173 | and every such path to the end of the call ends in those globals and that result, for readings taken during the call |
| `Cache.RedisModule.GetRedis` | pivot/backend/cache.py:122-173 | one undisturbed call leaves exactly the globals of the specification and returns the client they hold |
| `MockRedis.LazyStepKeepsDeadlines` | pivot/backend/cache.py:27-77 | deadlines belong to stored keys, after every operation |
| `MockRedis.StatesStaySimilar` | pivot/backend/cache.py:27-77 | after any operation the lazy and the eager map cannot be told apart from then on |
| `MockRedis.RepliesAgree` | pivot/backend/cache.py:40-77 | the two replies to an operation are equal if and only if it is not a delete of an expired key still in the store |
| `MockRedis.LazyExpiryRefinesEager` | pivot/backend/cache.py:27-77 | over any history with a clock that does not go backwards, every reply is the eager map's, except exactly those deletes |
| `MockRedis.DeleteTellsTheDifference` | pivot/backend/cache.py:60-62 | a history whose delete reports success for a key that is gone |
| `MockRedis.KeysListsTheLiving` | pivot/backend/cache.py:69-77 | keys lists every match that outlives the call and none that was dead before it |
| `MockRedis.LockExcludesForItsTtl` | pivot/backend/cache.py:48-58 | two successful set(nx, ex) on one key with no delete or plain set between are at least ex apart |
| `MockRedis.GetReturnsWhatWasSet` | pivot/backend/cache.py:40-58 | after a set, get returns the value until the deadline and None from then on; a string comes back as bytes with the same text |
| `MockRedis.RefusedIffHeld` | pivot/backend/cache.py:48-58 | a set with nx is refused if and only if the key is there and alive, and then changes nothing; otherwise it stores value and deadline |
| `Cache.MockRedisClient.GetValue` | pivot/backend/cache.py:40-46 | get on the two dictionaries is the modelled operation |
| `Cache.MockRedisClient.SetValue` | pivot/backend/cache.py:48-58 | set with ex and nx on the two dictionaries is the modelled operation |
| `Cache.MockRedisClient.DeleteKey` | pivot/backend/cache.py:60-62 | delete on the two dictionaries is the modelled operation |
| `Cache.MockRedisClient.ListKeys` | pivot/backend/cache.py:69-77 | the purging loop over the keys is the modelled operation |
| `RunStream.StepPreserves` | pivot-next/lib/ws.ts:104-245 | every event keeps the invariant of the stream |
| `RunStream.OneConnectionEffort` | pivot-next/lib/ws.ts:132-190 | sockets not yet reported closed plus waiting retries never exceed one |
| `RunStream.InformedIff` | pivot-next/lib/ws.ts:111-190 | until it stops, a socket is open, or polling is active, or the first connect is under way, if and only if no socket that was open is closing with its event still to come |
| `RunStream.UninformedOccurs` | pivot-next/lib/ws.ts:155-189 | a run that reaches the gap: a socket opens and starts to close |
| `RunStream.RetriesBackOff` | pivot-next/lib/ws.ts:132-142 | the k-th retry since the last open waits min(1000 * 2^k, max) |
| `RunStreamHistory.RetryWaits` | pivot-next/lib/ws.ts:132-156 | in every run a waiting retry is the last one reported, and waits min(1000 * 2^k, max) where k were reported before it since the last open |
| `RunStream.NothingStartsAfterStop` | pivot-next/lib/ws.ts:111-145 | once closed by the caller or terminal, no socket is made and no poll or retry timer started; `StoppedIff` says which events make it so |
| `RunStreamHistory.StoppedIff` | pivot-next/lib/ws.ts:121-203 | in every run the stream is terminal if and only if a snapshot frame, run frame or poll answer had status succeeded, failed or cancelled, or a close had code 1000; it is closed if and only if the caller closed it |
| `RunStreamHistory.NothingStartsOnceOver` | pivot-next/lib/ws.ts:111-145 | from such an event on no socket is made and no timer started, and none is left after the caller closed |
| `RunStreamHistory.NoPollOnceOver` | pivot-next/lib/ws.ts:111-186 | and nothing is polled any more |
| `RunStreamHistory.CallsAreTrace` | pivot-next/lib/ws.ts:111-242 | the callbacks of a run are, event by event and in order, exactly those listed, and no others |
| `RunStreamHistory.SocketsMadeExactly` | pivot-next/lib/ws.ts:132-153 | a retry that fires before the stream is over or closed makes one socket, if that does not throw; nothing else makes one |
| `RunStreamHistory.PollsInFlight` | pivot-next/lib/ws.ts:113-129 | every poll asked for is answered once or still in flight |
| `RunStream.ClosedStepData` | pivot-next/lib/ws.ts:113-125 | after close() only a poll still in flight delivers data, one callback per answer |
| `RunStream.CloseSilencesIff` | pivot-next/lib/ws.ts:226-242 | after close() no continuation of the run delivers data if and only if no poll was in flight |
| `RunStream.OpenAfterStopIff` | pivot-next/lib/ws.ts:155-159 | some continuation of a stopped run reports "open" again if and only if its last socket is still connecting |
| `RunStream.OpensAfterStop` | pivot-next/lib/ws.ts:121-159 | a run that stops on a poll's terminal answer and then reports "open" |
| `RunStream.DataAfterClose` | pivot-next/lib/ws.ts:113-125 | a run in which a poll in flight delivers data after close() |
| `RunStream.OldPollLandsLate` | pivot-next/lib/ws.ts:113-159 | a run in which a poll asked before the socket opened is answered after a snapshot and a step frame, and replaces the step on screen |
| `RunStream.BannerFollowsRetries` | pivot-next/lib/use-run-stream.ts:88-90 | until the stream stops, the reconnecting flag after folding all callbacks is set exactly while a retry is waiting |
| `RunStreamClient.Stream.constructor` | pivot-next/lib/ws.ts:77-91 | opening a stream establishes the invariant |
| `RunStreamClient.Stream.ScheduleRetry` | pivot-next/lib/ws.ts:132-142 | scheduleReconnect, with the power of two computed by a loop, is the modelled step |
| `RunStreamClient.Stream.OnTimer` | pivot-next/lib/ws.ts:113-142 | an interval tick asks for the run, a retry connects |
| `RunStreamClient.Stream.OnPollResult` | pivot-next/lib/ws.ts:113-129 | the poll's continuation is the modelled step |
| `RunStreamClient.Stream.OnSocketMessage` | pivot-next/lib/ws.ts:192-221 | dispatching a frame, field by field, is the modelled step, whose end of a run `StoppedIff` decides |
| `RunStreamClient.Stream.OnSocketClose` | pivot-next/lib/ws.ts:179-189 | onclose is the modelled step |
| `RunStreamClient.Stream.Close` | pivot-next/lib/ws.ts:226-242 | close() is the modelled step |
| `RunStreamClient.Stream.IsOpen` | pivot-next/lib/ws.ts:243-243 | isOpen implies that the socket is connected and nothing is polled |
| `RunFold.MergeStepSets` | pivot-next/lib/use-run-stream.ts:130-136 | merging a step keeps indices distinct, replaces or appends that one index and moves nothing |
| `RunFold.FoldFollowsServer` | pivot-next/lib/use-run-stream.ts:52-97 | callbacks that carry the server's updates in order keep the client in step with the server, whatever else comes between |
| `RunFold.LastSnapshotThenUpdates` | pivot-next/lib/use-run-stream.ts:53-78 | after any history the client agrees with a server that was in the last snapshot's state and made the updates since |
| `RunFold.ServerAfterIsLastUpdate` | pivot-next/lib/use-run-stream.ts:56-78 | that state is, per index, the last update sent, else the snapshot's step, and the last run status, finish time and halt reason |
| `RunFold.LateSnapshotAgreesIff` | pivot-next/lib/use-run-stream.ts:53-64 | when a snapshot of an older version lands late and the remaining updates follow, the client agrees with the server on a step if and only if it is updated again, was not updated in between, or the last update in between changed nothing |
| `RunFold.LateSnapshotFieldsAgreeIff` | pivot-next/lib/use-run-stream.ts:53-78 | the same for the run's status, finish time and halt reason together |
| `RunFold.SnapshotInTimeAgrees` | pivot-next/lib/use-run-stream.ts:53-78 | a snapshot with no update between its version and its arrival leaves the client in agreement on everything |
| `RunFold.ApprovalsStayDistinct` | pivot-next/lib/use-run-stream.ts:79-87 | at most one approval is pending per id |
| `RunFold.PendingAreLastRequested` | pivot-next/lib/use-run-stream.ts:79-87 | after any callbacks the pending approvals are the last request of each id, in the order of those requests |
| `RunFold.PendingIffRequested` | pivot-next/lib/use-run-stream.ts:79-87 | an approval is pending if and only if some callback requested it and no later one used its id |
| `RunFold.OtherPartsAreLast` | pivot-next/lib/use-run-stream.ts:53-96 | the error shown is the last one since the last snapshot, the banner is the last connection state, and a run is shown exactly after a first snapshot |
| `RunFold.MergeStepInCopy` | pivot-next/lib/use-run-stream.ts:130-136 | the search and one-slot update of a copy computes the merge |
| `TtlCache.StepCache` | pivot-next/lib/api.ts:204-240 | what one event does to the entry of one key: an ending event clears it, a fetching call installs its own promise |
| `TtlCache.CacheIsAlive` | pivot-next/lib/api.ts:204-222 | in every interleaving the cache holds a promise for a key exactly when nothing has ended that promise's life |
| `TtlCache.CallsReuseExactlyTheLiving` | pivot-next/lib/api.ts:204-222 | a call is handed an earlier promise if and only if it was made for the key, less than its TTL ago, and nothing ended its life; otherwise it fetches |
| `TtlCache.CallsNeverReturnStale` | pivot-next/lib/api.ts:202-240 | no call returns a promise that is expired, whose failure was processed, or from before the last logout or, for a portfolio-like key, the last relevant mutation |
| `TtlCache.RecordsAreHistory` | pivot-next/lib/api.ts:204-222 | what is recorded of a promise is what happened: the call that made it, its time and TTL, how it settled, and whether that was processed |
| `TtlCache.ClockIsElapsed` | pivot-next/lib/api.ts:209-213 | the clock a call reads is the starting time plus what has passed |
| `TtlCache.MutatesIff` | pivot-next/lib/api.ts:228-233 | a path counts as a mutation if and only if it has a slash, one of the seven mounts, and then no further word character |
| `TtlCache.PortfolioLikeIff` | pivot-next/lib/api.ts:234-237 | a key counts as the portfolio's if and only if one of the six words occurs in it, in any case |
| `GetCoalescing.StepPreserves` | pivot-next/lib/api.ts:242-343 | every event keeps the in-flight map exact and every call's refresh and retry a later call outside the map, and no settled call changes |
| `GetCoalescing.OneEntryPerUrl` | pivot-next/lib/api.ts:257-264 | the map holds one entry per URL whose GET has not been cleaned up, and no other |
| `GetCoalescing.SharingIsExact` | pivot-next/lib/api.ts:247-265 | a call is handed an earlier promise if and only if it is a GET and that one is a GET of its URL in flight; other methods never share |
| `GetCoalescing.JoinersShareTheResult` | pivot-next/lib/api.ts:257-265 | GETs of a URL made while one is in flight hold the same promise, and its result is final |
| `GetCoalescing.ResultsAreFinal` | pivot-next/lib/api.ts:268-343 | a settled call keeps its result |
| `RequestResults.ResultsByHistory` | pivot-next/lib/api.ts:268-343 | in every run a settled call without retry has its own answer, a 401 as http_401; one with a retry has what the retry came to; a refresh, a POST to /auth/refresh, is asked for exactly on a 401 elsewhere with a refresh token, and unless it brings a token there is no retry |
| `RequestResults.RequestComesToItsLastAnswer` | pivot-next/lib/api.ts:312-343 | hence a request comes to what its last fetch was answered |
| `RequestResults.SharedUntilCleanUp` | pivot-next/lib/api.ts:257-265 | a GET is handed the promise of an earlier one of its URL exactly until that one's clean-up, which follows its settling |
| `GetCoalescing.NeverWaitsForItself` | pivot-next/lib/api.ts:323-328 | in every run no call of _performRequest waits for itself, through refreshes and retries of any number |
| `GetCoalescing.WaitsForTheNetwork` | pivot-next/lib/api.ts:268-343 | in every run the chain of promises an unsettled call waits for ends at the network, or at a result that can be taken up at once |
| `GetCoalescing.EveryRequestCanSettle` | pivot-next/lib/api.ts:268-343 | from every state of every run some further answers and resumptions settle any call |
| `GetCoalescing.RetryThroughWrapperClosesACycle` | pivot-next/lib/api.ts:323-327 | a retry through the coalescing wrapper would hand a GET in flight its own entry, so that it waits for itself |
| `GetCoalescing.SelfWaitIsForever` | pivot-next/lib/api.ts:323-327 | and a call that waits for itself stays unsettled whatever follows |
| `GetCoalescing.RefreshedGetOccurs` | pivot-next/lib/api.ts:313-327 | a run that reaches the situation: a GET in flight, told 401, with its refresh granted |
| `GetCoalescing.RefreshesBoundFetches` | pivot-next/lib/api.ts:312-343 | with at most k granted refreshes a request is fetched at most k + 1 times, with at most k + 1 refresh requests; it takes at most 4(k + 1) answers and resumptions, and another one is due as long as it is not settled |
| `GetCoalescing.RetriesAreUnbounded` | pivot-next/lib/api.ts:313-328 | for every k there is a run with k + 1 fetches of one request, still waiting |
| `ApiClient.ResponseCache.Cached` | pivot-next/lib/api.ts:204-222 | the lookup, the store and the returned promise are those of the model |
| `ApiClient.ResponseCache.OnSettled` | pivot-next/lib/api.ts:217-220 | a processed failure drops the key, whichever promise the key holds by then |
| `ApiClient.ResponseCache.NotifyPortfolioMutation` | pivot-next/lib/api.ts:231-240 | the loop over a copy of the keys deletes exactly the portfolio-like ones |
| `ApiClient.RequestLayer.DoRequest` | pivot-next/lib/api.ts:242-266 | who shares and what is recorded, keeping the map exact |
| `ApiClient.RequestLayer.OnAnswer` | pivot-next/lib/api.ts:284-343 | an answer settles the call or, if it is a 401 elsewhere than at the refresh endpoint, starts the refresh POST through the wrapper |
| `ApiClient.RequestLayer.OnResume` | pivot-next/lib/api.ts:320-342 | the resumption, field by field, is the modelled step: a granted refresh calls the worker directly, and `ResultsByHistory` decides what the call comes to |
| `ApiClient.RequestLayer.OnFinally` | pivot-next/lib/api.ts:262-264 | the clean-up deletes the entry of the URL and keeps the map exact |
| `SchemaCompiler.CompilesIffSupported` | pivot-next/lib/json-schema-to-zod.ts:72-103 | compilation succeeds if and only if the schema is an object schema and every property is in the supported subset |
| `SchemaCompiler.RefusedForFirst` | pivot-next/lib/json-schema-to-zod.ts:72-219 | what is refused is refused for its kind or for its first unsupported property, with the error of the check it fails first |
| `SchemaCompiler.JsonSchemaToZod` | pivot-next/lib/json-schema-to-zod.ts:84-102 | the loop that fills shape and fields computes the compilation or the first error; what that means is stated below without its helpers |
| `SchemaCompiler.StringMeaning` | pivot-next/lib/json-schema-to-zod.ts:221-234 | the string validator accepts what type, minLength and maxLength allow, and no blank when required |
| `SchemaCompiler.NumberMeaning` | pivot-next/lib/json-schema-to-zod.ts:164-171 | the number validator accepts what type, minimum and maximum allow |
| `SchemaCompiler.PropertyPreservesMeaning` | pivot-next/lib/json-schema-to-zod.ts:111-219 | a typed property's validator accepts exactly the submittable values; an enum's does if and only if the enum keeps the listed values its other keywords allow |
| `SchemaCompiler.PropertyFaithfulIff` | pivot-next/lib/json-schema-to-zod.ts:111-219 | for every supported property the validator accepts exactly the submittable values if and only if the property is typed, an enum its other keywords allow, or optional without effective bounds |
| `SchemaCompiler.UnfaithfulEnum` | pivot-next/lib/json-schema-to-zod.ts:121-153 | an integer property with a text in its enum takes a value the schema does not |
| `SchemaCompiler.UntypedAcceptsAnything` | pivot-next/lib/json-schema-to-zod.ts:205-212 | a property with neither type nor enum accepts everything, absence included, which is right if and only if it is optional and its bounds exclude nothing |
| `SchemaCompiler.CompilationPreservesMeaning` | pivot-next/lib/json-schema-to-zod.ts:72-248 | when every property is faithful, the validator accepts an object if and only if every required property is present and satisfies its keywords and every optional one is absent, blank or satisfying |
| `SchemaCompiler.MeaningPreservedIff` | pivot-next/lib/json-schema-to-zod.ts:72-248 | for a whole schema that is so on every object if and only if every property is faithful, or neither side takes any object |
| `SchemaCompiler.RequiredExactly` | pivot-next/lib/json-schema-to-zod.ts:80-97 | a field is marked required if and only if the schema's required is an array with an entry equal to its name, and a typed or enumerated property may be absent if and only if it is not |
| `SchemaCompiler.MissingIsRefused` | pivot-next/lib/json-schema-to-zod.ts:80-102 | an object that lacks a typed or enumerated property listed as required is refused |
| `SchemaCompiler.FieldsMatchValidator` | pivot-next/lib/json-schema-to-zod.ts:84-102 | field by field and in order, the descriptor's name, required flag, kind, choices and bounds say what the validator accepts |
| `SchemaCompiler.ParsingIsClean` | pivot-next/lib/json-schema-to-zod.ts:236-248 | the parsed payload has no blank optional value, validates again and parses to itself |
| `Refs.ExtractRefsLoop` | pivot-next/lib/refs.ts:35-41 | the loop over the matches computes the scan |
| `Refs.ScannerIsThePattern` | pivot-next/lib/refs.ts:29-41 | wherever and however the regular expression can match, the scanner matches there, goes on at the same place and reports the same trimmed reference |
| `Refs.ScanInvertsRender` | pivot-next/lib/refs.ts:35-41 | wrapped references interleaved with text without an opening brace are extracted exactly, in order |
| `Refs.ValidateRefsInString` | pivot-next/lib/refs.ts:54-66 | the loop's errors, and that there are none exactly when every reference is valid |
| `Refs.NoErrorsIffAllValid` | pivot-next/lib/refs.ts:54-66 | the error list is empty if and only if whyInvalid is silent on every reference |
| `Refs.ErrorsInOrder` | pivot-next/lib/refs.ts:57-63 | the errors are one for each invalid reference, with its reason, in the order of the text |
| `Refs.ReasonsExactly` | pivot-next/lib/refs.ts:66-103 | which reason is given for every text of one part, two parts, or two parts and the rest of a path |
| `Refs.ValidRefsExactly` | pivot-next/lib/refs.ts:68-103 | whyInvalid is silent on exactly the texts of the grammar, given without splitting: now, workflow.id, workflow.name or workflow.version, the webhook payload when there is one, an earlier step, and what may follow them |
| `Refs.LooseRefsPass` | pivot-next/lib/refs.ts:91-97 | "workflow.id.x" and, after step 1, "context.1." pass |
| `Refs.SuggestionsValidate` | pivot-next/lib/refs.ts:173-210 | every suggestion, wrapped and put anywhere in plain text, is extracted and validates against the same prior steps |
| `Refs.SuggestionsValidateWithDecimals` | pivot-next/lib/refs.ts:173-210 | the same with Number() reading plain decimal numerals, for every step index |
| `Refs.SuggestionsInOrder` | pivot-next/lib/refs.ts:173-210 | the suggestions are each prior step, the webhook payload if there is one, now, and the fields id, name and version, in this order |
| `Decimal.NumberReadsDec` | pivot-next/lib/refs.ts:181-181 | a step index printed in decimal reads back as itself |
| `Refs.ConfigRefsAreLeafRefs` | pivot-next/lib/refs.ts:117-140 | the recursive walk collects the references of every string leaf, however deep, and no other |
| `Refs.LeavesStandAtPaths` | pivot-next/lib/refs.ts:122-137 | the string leaves are what stands at some path through arrays and objects and is a string |
| `Refs.ReferencedIff` | pivot-next/lib/refs.ts:153-166 | a step index is referenced if and only if a reference in some string at some path starts with context and a segment that reads as that number |
| `Refs.ReferencedStepIndicesLoop` | pivot-next/lib/refs.ts:153-166 | the loop over the collected references gives the referenced step indices |
| `Refs.ValidConfigPointsBack` | pivot-next/lib/refs.ts:68-103 | a config whose string leaves validate references earlier steps only |
| `Refs.DependenciesPointBack` | pivot-next/lib/refs.ts:153-166 | in a valid workflow with distinct indices a step depends on earlier steps only |
| `Refs.DependenciesAcyclic` | pivot-next/lib/refs.ts:153-166 | every dependency path leads to an earlier step, so there is no cycle of any length |
| `Refs.ValidWorkflowsExecute` | pivot-next/lib/refs.ts:117-166 | running a valid workflow in step order never reads an output not yet produced, and produces all of them |
| `StepCompat.AccumulateCaps` | pivot-next/lib/step-compat.ts:46-55 | the nested loops compute the fold that consumes and then produces, step by step |
| `StepCompat.AvailableIffLastTouchProduces` | pivot-next/lib/step-compat.ts:46-55 | a capability is available if and only if the last step that consumes or produces it produces it |
| `StepCompat.DeletionLosesIffOnlySource` | pivot-next/lib/step-compat.ts:46-55 | deleting a step loses a capability if and only if the step produces it, nothing later touches it and it was not available before |
| `StepCompat.ClassifyStepType` | pivot-next/lib/step-compat.ts:65-106 | the loop with its flags computes the bucket and the first unmet warning |
| `StepCompat.NeedsSetupIff` | pivot-next/lib/step-compat.ts:70-90 | a candidate needs setup if and only if some requirement has no available alternative; the preceding category plays no part |
| `StepCompat.SetupWarnsOfFirst` | pivot-next/lib/step-compat.ts:75-90 | it then carries the warning of its first unmet requirement |
| `StepCompat.RecommendedIff` | pivot-next/lib/step-compat.ts:92-105 | one whose requirements are met is recommended if and only if it has some, or is an action after a condition or a condition after a fetch |
| `StepCompat.CategoryOfLast` | pivot-next/lib/step-compat.ts:136-139 | the preceding category is that of the last prior step, if the catalog has it |
| `StepCompat.DeletionNeedsNoNewSetup` | pivot-next/lib/step-compat.ts:46-90 | deleting a step that is nobody's only source, in particular one that produces nothing, only enlarges the result and makes no candidate newly need setup |
| `StepCompat.DeletingAnOnlySourceNeedsSetup` | pivot-next/lib/step-compat.ts:65-90 | deleting an only source turns the candidate that asks for its capability from recommended to needing setup |
| `StepCompat.PartitionIntoBuckets` | pivot-next/lib/step-compat.ts:130-151 | each bucket lists exactly the candidates classified into it, with their verdicts, at rising positions |
| `StepCompat.PositionsExact` | pivot-next/lib/step-compat.ts:145-148 | a bucket's positions rise and are exactly those of its candidates |
| `StepCompat.BucketSizes` | pivot-next/lib/step-compat.ts:143-150 | the three buckets have as many entries together as there are candidates |
| `StepCompat.BucketsPartition` | pivot-next/lib/step-compat.ts:143-150 | every position is in exactly one bucket |
| `Watchlists.NormalizeStored` | pivot-next/lib/watchlists.ts:38-61 | the loop that fills byId computes the normalised state |
| `Watchlists.NormalizedIsNormal` | pivot-next/lib/watchlists.ts:38-61 | whatever JSON is stored, the result is five numbered slots of clean tickers and an active id in range |
| `Watchlists.StoredSlots` | pivot-next/lib/watchlists.ts:38-58 | each slot reads back the clean tickers, in order, of the last stored entry with its number and an array of tickers, and is empty without one |
| `Watchlists.NothingStored` | pivot-next/lib/watchlists.ts:40-58 | without an array of lists every slot is empty |
| `Watchlists.StoredActive` | pivot-next/lib/watchlists.ts:59-61 | the stored active number is kept if it is from 1 to 5, else it is 1 |
| `Watchlists.FirstVisit` | pivot-next/lib/watchlists.ts:16-29 | with nothing stored, or nothing that parses, slot 1 shows the six starter tickers and the others are empty |
| `Watchlists.TickerIs` | pivot-next/lib/watchlists.ts:46-48 | a ticker is the text without the space around it, in capitals |
| `Watchlists.ReloadPreservesIffNormal` | pivot-next/lib/watchlists.ts:38-72 | storing a state and reading it back gives the same state if and only if it has that form |
| `Watchlists.ApplyKeepsNormal` | pivot-next/lib/watchlists.ts:124-158 | every committed state has that form |
| `Watchlists.CommitsIff` | pivot-next/lib/watchlists.ts:124-158 | a mutation commits if and only if the ticker is not blank, or the number is from 1 to 5 |
| `Watchlists.AddExactly` | pivot-next/lib/watchlists.ts:124-137 | the ticker goes to the end of the named or active slot unless it is there already; nothing else changes |
| `Watchlists.RemoveExactly` | pivot-next/lib/watchlists.ts:141-153 | the ticker leaves the named slot, or every slot, the others keep their order; nothing else changes |
| `Watchlists.AddedAndRemoved` | pivot-next/lib/watchlists.ts:124-164 | an added ticker is in its slot and in some watchlist; one removed from everywhere is in none |
| `Watchlists.RemoveUndoesAdd` | pivot-next/lib/watchlists.ts:124-153 | removing what was just added to a slot that did not hold it restores the state |
| `WatchlistTabs.RunKeepsNormal` | pivot-next/lib/watchlists.ts:77-158 | in every run every snapshot of every tab has the normal form, whatever was stored at first |
| `WatchlistTabs.ListeningTabsConverge` | pivot-next/lib/watchlists.ts:85-121 | when no tab reads or commits before its storage listener is bound, all tabs stay in step in every run |
| `WatchlistTabs.ConvergesIffBindsFirst` | pivot-next/lib/watchlists.ts:85-121 | with two tabs or more, every such run stays in step if and only if, to begin with, every tab that has cached something listens |
| `WatchlistTabs.StaysSyncedIff` | pivot-next/lib/watchlists.ts:95-121 | a step keeps every tab in step with the cell or due an event, if and only if it is not the last queued event reaching a tab without a listener whose snapshot is old |
| `WatchlistTabs.RunStaysSyncedIff` | pivot-next/lib/watchlists.ts:95-121 | the tabs stay in step throughout a run if and only if no step of it is such a missed event |
| `WatchlistTabs.QuiescentTabsAgree` | pivot-next/lib/watchlists.ts:85-121 | once no event is queued any two tabs in step show the same state, and a reload changes nothing |
| `WatchlistTabs.BoundTabsConverge` | pivot-next/lib/watchlists.ts:95-121 | tabs that listen whenever they have cached anything stay in step in every run |
| `WatchlistTabs.LateListenerStaysStale` | pivot-next/lib/watchlists.ts:85-104 | a tab that reads first and listens later can miss a commit for good |
| `WatchlistTabs.SettledCommitLosesNothing` | pivot-next/lib/watchlists.ts:111-158 | a commit by a tab with nothing queued applies to what is stored, so no other tab's change is lost |
| `WatchlistTabs.Store.GetSnapshot` | pivot-next/lib/watchlists.ts:85-89 | reads the cell once and keeps the snapshot |
| `WatchlistTabs.Store.Subscribe` | pivot-next/lib/watchlists.ts:95-105 | adds the callback and binds the storage listener |
| `WatchlistTabs.Store.OnStorage` | pivot-next/lib/watchlists.ts:98-103 | reads the cell again and calls every callback |
| `WatchlistTabs.Store.AddToWatchlist` | pivot-next/lib/watchlists.ts:124-137 | addToWatchlist on snapshot and cell is the modelled mutation |
| `WatchlistTabs.Store.RemoveFromWatchlist` | pivot-next/lib/watchlists.ts:141-153 | removeFromWatchlist on snapshot and cell is the modelled mutation |
| `WatchlistTabs.Store.SetActiveWatchlist` | pivot-next/lib/watchlists.ts:155-158 | setActiveWatchlist on snapshot and cell is the modelled mutation |
| `RecentList.DedupExact` | pivot-next/components/CompanyAutosuggest.tsx:173-176 | deduplication keeps exactly the first entry of each symbol, once |
| `RecentList.DedupInOrder` | pivot-next/components/CompanyAutosuggest.tsx:173-176 | and keeps the order of first appearance |
| `RecentList.CutOnceOrTwice` | pivot-next/components/CompanyAutosuggest.tsx:172-176 | cutting the list before or after a pick makes no difference |
| `RecentList.RecentIsDedupedHistory` | pivot-next/components/CompanyAutosuggest.tsx:168-193 | after any history of picks, clears and mounts the list is the first six distinct symbols of the picks since the last clear, latest first |
| `RecentList.Shortlist.HandleSelect` | pivot-next/components/CompanyAutosuggest.tsx:168-186 | the pick goes to the front and the stored copy stays equal to the list |
| `RecentList.Shortlist.LoadRecent` | pivot-next/components/CompanyAutosuggest.tsx:51-75 | a new mount finds the list as it was |
| `Crore.FixedReadsBack` | pivot-next/components/StockDetailPage.tsx:212-214 | parseFloat reads back what toFixed(2) prints, for every non-negative number |
| `Crore.ScaleOfSuffix` | pivot-next/components/StockDetailPage.tsx:3581-3583 | the reader's patterns find L and K exactly in the texts printed in those units |
| `Crore.PrintedAs` | pivot-next/components/StockDetailPage.tsx:202-215 | the printed text, piece by piece: sign, rupee sign, the nearest hundredth of the unit with two decimals, the unit |
| `Crore.OtherAmounts` | pivot-next/components/StockDetailPage.tsx:202-215 | no amount prints as a dash, which reads as no number; an amount below a crore is left to the currency format |
| `Crore.ReadsRoundedSize` | pivot-next/components/StockDetailPage.tsx:202-216 | reading what was printed gives the size of the amount in crore, rounded to a hundredth of the printed unit |
| `Crore.RoundedIsClose` | pivot-next/components/StockDetailPage.tsx:210-214 | the rounding error is at most half a hundredth of the unit, and the unit at most the amount |
| `Crore.AccurateIffPositive` | pivot-next/components/StockDetailPage.tsx:3573-3585 | for every amount of at least a crore in size, printing and reading is that accurate if and only if the amount is positive |
| `Crore.CroresSurvive` | pivot-next/components/StockDetailPage.tsx:3334-3338 | a value of at least 1 that arrives in crore is read back within half a percent |
| `Crore.DisplayedOrder` | pivot-next/components/StockDetailPage.tsx:3573-3585 | a larger amount never reads as less, also across the Cr, K Cr and L Cr boundaries |

## Left out

- React rendering, styling, DOM events and the component files: no state of their own worth proving.
- The trading engine, the workflow DSL and the backtester: not part of this model.
- WebSockets, timers, fetch, localStorage, Redis and zod themselves: events, records of what was sent or asked, one shared cell, a clock that does not go backwards, and a small validator language. Storage writes are taken to succeed.
- Building URLs, tokens and headers: whether building fails is an outcome of `Connect`; coalescing takes the final URL as the key.
- Storing and clearing tokens and redirecting to the login page; whether a refresh token is stored is part of the answer event. A 401 on the server side, without a window, settles like any refusal.
- Freshness below the TTL cache: a fresh fetcher may still join a GET that started before the mutation.
- Letters and white space outside ASCII and U+00A0 in `trim`, `toUpperCase` and `\s`: `Text` and the reference scanner cover the rest. String lengths count characters, not UTF-16 units.
- The order of JavaScript's Map and Set iteration: symbols resubscribed, keys listed and listeners called are sets or permutations. A listener that subscribes or unsubscribes while a tick is being delivered is not modelled.
- The pong that answers a ping on the run stream: it changes nothing here.
- LiveQuoteManager.Manager.OnTick: frames other than tick and ping do nothing and have no event; malformed frames are dropped before they get here.
- Cache.RedisModule.GetRedis: one call at a time; the interleavings of threads are in `RedisClient`, and `SoloCall` connects the two.
- `_RedisProxy`, `ping` and `close` of `MockRedis`: forwarding and constants. `fnmatch` is any predicate, `str.encode` keeps the text.
- The mock stream and `resolveMockApproval`: demonstration data.
- Endpoint wrappers, paper adapters and transcription in `api.ts`: transport.
- Labels, descriptions and defaults of form fields, and `defaultConfigFromSchema`: copied through. Keywords the compiler ignores, the order of integer-like keys, and a key named `__proto__`.
- Spellings of numbers: `Number()` on step indices is a parameter that must read decimal numerals; on stored ids and active ids it is a parameter for strings and arrays.
- The formatted text of stored JSON: two texts of one value count as one, so an extra storage event that changes nothing is not modelled.
- `addToWatchlist` with a fractional active id adds nothing; the model does the same, and nothing more is said about it. Duplicate tickers in a stored slot are kept, as in the code.
- Two tabs that commit at once: the later commit wins; only commits by tabs with nothing queued are shown to lose nothing.
- Amounts below one crore (`INR.format` is a parameter), amounts so large that `toFixed` switches to exponent form, and binary rounding: amounts are exact reals.
- Other components on the page for the recent list, and stored recents written by something else.
- `safety.py`, `trading-mode.ts`, `shortcuts.ts`, `useCompanyLogos.ts` and the suggestion box's stale-answer guard: one branch each.
