# Lyo backend: verified models

Dafny models of the stateful cores of the Lyo backend, and proofs about whole runs of them:
every interleaving, every order of calls, every pattern of failures. Nothing was executed.
`dafny verify dfyconfig.toml` checks the project.

| files | what they model |
|---|---|
| `Fanout`, `Hub` | the audio hub as a class: listener map, bounded queues, `Broadcast` with its shard loops |
| `HubMachine` | one hub with all goroutines around it as interleaved atomic steps: listen sessions, ingest connections, shards, the read/write lock, cancel watchers, `Close` |
| `HubSafety`, `HubHistory`, `HubGuarantees` | the invariant of every reachable state and what it means: lock safety, order, conservation of chunks, counters |
| `HubReasons`, `HubProgress` | why sessions are counted as disconnected and contexts are done; what joining, sending and receiving can always do |
| `HubRefine`, `HubIsolation`, `HubDrain` | shards refine the plain loop whatever runs beside them, and the class's `Broadcast` when they run alone; slow listeners delay nobody; a hub without newcomers goes on only as long as its broadcasters send, and a closed one empties |
| `Streams`, `Lifecycle`, `LifecycleRuns` | the stream service and table: one call at a time as classes, racing calls as a state machine, and the calls as runs of it |
| `RateLimit`, `RateLimitBound`, `RateLimitTight`, `RateLimitRetry`, `RateLimitTiers` | the token-bucket limiter, its rate bound and that it is attained, retry timing, the two tiers of the middleware |
| `Incidents`, `IncidentHistory`, `IncidentReplay`, `IncidentBetween`, `IncidentRetry` | the incident feed, its life over all runs, partial failures and retries of a batch with other requests in between |
| `Storage`, `StorageAddresses`, `Erasure`, `ErasureHistory` | object keys and URLs, spelled out, track and account erasure while object deletions fail |
| `Playlists` | ordered, duplicate-free playlists over arbitrary edit histories |
| `Outcomes`, `Counting` | `Option`, `Result` and sums |

Conventions. A database statement is one atomic step on abstract rows; a failed one has no
effect. Clock readings, fault patterns, fresh ids and the points at which a shard sees its
context cancelled are parameters, so every theorem holds for all of them. Row ids are
positions in the table, in the order in which rows are created (the random UUIDs of the original,
taken as fresh). The limiter's
token counts are exact integers scaled by the window.

## Where the code and its own documentation disagree

The model follows the code; each point is a theorem here.

- `listen.go:120-123` and `metrics.go:40-42` count listeners whose stream ended as
  `stream_ended`. No schedule ever takes that branch: a channel is closed only by its own
  session's `Unsubscribe`, after the loop (`HubGuarantees.LockSafety`).
- `service.go:43-51`: the row is visible before the hub is pooled. An `EndStream` in between
  leaves the hub of an ended stream in the pool, open, for ever
  (`Lifecycle.EarlyEndLeaks`, `Lifecycle.LeakIsForEver`); `Lifecycle.PoolAgreesUnlessEarly` says that this is the only way.
- `ratelimit.go:15-22`: a token bucket also allows twice the quota within one closed window
  (`RateLimitTight.BoundIsAttained`); what it bounds is the excess over the average rate, by one
  quota (`RateLimitBound.RateBound`). `ratelimit.go:43-47`: clearing the table grants more than
  "tokens they were about to earn" (`RateLimitTight.ClearGrantsAQuota`).
- `ratelimit.go:138-142`: obeying `Retry-After` can be too early, since it is rounded to the nearest
  second (`RateLimitRetry.RetryAfterHeaderCanBeShort`). It is always enough exactly for policies that
  earn a token in a second, less the lag of a stale clock reading
  (`RateLimitRetry.HeaderIsEnoughIffFast`). RFC 9110 section 10.2.3 lets the value be advisory.
- `delete_user_by_id.go:32-37` and ADR 013 say that a caller can retry after a storage failure.
  The rows are gone by then: the retry requests no deletion, reports success, and the objects whose
  deletion failed stay for ever (`ErasureHistory.RetryTriesNothing`,
  `ErasureHistory.RetryIsNoRepair`, `ErasureHistory.OrphansAreForever`). Deleting the objects first
  also does not cover a track registered between the purge and the account's deletion
  (`ErasureHistory.LostRowsLeaveOrphans`).
- `webhook.go:151-153` relies on retries of a batch being idempotent. Retries amount to one clean pass
  exactly when alerts of one fingerprint in the batch agree and nobody else touches the batch's
  fingerprints between the deliveries (`IncidentRetry.RetrySafeIffHarmless`). A batch with an alert
  that opens and one that closes fails the first condition (`IncidentReplay.ReopenedByRetry`), an
  admin who resolves an incident between delivery and retry the second
  (`IncidentRetry.ReopenedAfterHandResolve`).

## Model

| member | source | states |
|---|---|---|
| Fanout.ShardsPartition | backend/internal/streaming/hub.go:89-109 | the shards are non-empty, hold at most 100 entries, and concatenated are the snapshot: no gap, overlap or out-of-range slice |
| Fanout.BatchesDoNotOverlap | backend/internal/streaming/hub.go:84-91 | no listener is in two shards or twice in one |
| Hub.Hub.Close | backend/internal/streaming/hub.go:40-41 | cancels the context and touches neither listeners nor queues |
| Hub.Hub.Subscribe | backend/internal/streaming/hub.go:48-56 | registers the id with an empty queue, all others unchanged |
| Hub.Hub.Unsubscribe | backend/internal/streaming/hub.go:59-68 | removes exactly that id and closes its channel; an id that is not registered has none to close |
| Hub.Hub.Broadcast | backend/internal/streaming/hub.go:76-112 | each listener its shard reaches gets the chunk or, with a full queue, counts as one drop and keeps its queue; what is reached is a prefix of each shard, and everything with an uncancelled context |
| Hub.Hub.HandleShard | backend/internal/streaming/hub.go:93-108 | one shard's loop extends the set of handled listeners by exactly the prefix it reaches |
| HubSafety.ChannelStep | backend/internal/streaming/hub.go:48-68 | every step keeps: the map holds exactly the channels between Subscribe and Unsubscribe, queues within capacity, one close per finished session |
| HubSafety.BroadcastStep | backend/internal/streaming/hub.go:76-112 | every step keeps: the shards in flight hold distinct, still registered listeners |
| HubGuarantees.Reachable | backend/internal/streaming/hub.go:46-112 | every state of every interleaving from a new hub satisfies the whole invariant |
| HubGuarantees.LockSafety | backend/internal/streaming/hub.go:73-112 | no send on a closed channel, no second close, a session in its loop is registered and open, the closed-channel branch of listen.go:120-123 is dead |
| HubGuarantees.DeliveryIsOrdered | backend/internal/streaming/ingest.go:117-130 | every position of received followed by queued has a broadcast of its own since the subscribe: no chunk twice, and each connection's chunks in the order of its broadcasts |
| HubGuarantees.BroadcastsAreConserved | backend/internal/streaming/hub.go:95-108 | with no broadcast in flight, broadcasts since the subscribe = received + queued + dropped + given up by a cancelled broadcaster, as multisets |
| HubGuarantees.UncancelledChunksAreConserved | backend/internal/streaming/hub.go:96-107 | each chunk of a connection whose context is not done was, for every listener, received, queued or dropped, or is pending while its broadcast lasts, whatever other connections give up |
| HubGuarantees.SkipStep | backend/internal/streaming/hub.go:98-99 | every step keeps: only chunks of connections whose context is done are given up |
| HubGuarantees.CountStep | backend/internal/streaming/listen.go:92-96 | the listener gauge counts the sessions between their two counting steps, and the drop counter is the sum of the listeners' losses |
| HubReasons.DisconnectsAreTold | backend/internal/streaming/listen.go:92-135 | in every run a counted session is counted once: as write_failed iff a write to it failed, as client iff it saw its context done, after its client had left or its watcher acted on a closed hub |
| HubReasons.CancelHasACause | backend/internal/streaming/listen.go:98-108 | a session's context is only done if its client left, or its watcher acted after Close |
| HubReasons.IngestCancelHasACause | backend/internal/streaming/ingest.go:101-111 | the same for an ingest connection, whose context being done is what giving listeners up takes |
| HubReasons.GoneOnlyByReadFailure | backend/internal/streaming/ingest.go:117-130 | an ingest connection is gone iff a read from it failed: it goes on from chunk to chunk |
| HubProgress.CanJoin | backend/internal/streaming/listen.go:88-115 | whenever the lock is free a new listener can reach its loop, registered with nothing queued |
| HubProgress.CanReceive | backend/internal/streaming/listen.go:115-135 | a listener in its loop can receive all that is queued for it, in order, and be back in its loop |
| HubProgress.CanSend | backend/internal/streaming/ingest.go:117-129 | an uncancelled broadcaster can read a chunk and begin to broadcast it to every registered listener |
| HubRefine.ShardsRefineTheLoop | backend/internal/streaming/hub.go:89-111 | with listeners dequeuing, sessions coming and going and other broadcasts beside them, the shards' run is a run of the plain loop over the snapshot in the order they handled it, and ends in the same state, drop counter included |
| HubRefine.RunsPlain | backend/internal/streaming/hub.go:89-111 | and at any point before the end the two runs agree on everything but what is left of the shards |
| HubRefine.ShardsHandlePrefixes | backend/internal/streaming/hub.go:95-107 | in any run each shard has handled a prefix of its entries and holds the rest, unless it saw the context cancelled and gave up |
| HubRefine.AloneIsTheSequentialBroadcast | backend/internal/streaming/hub.go:76-112 | a broadcast running alone, in any interleaving and cancelled anywhere, leaves queues and drops as the sequential Broadcast of class Hub promises |
| HubIsolation.SlowListenersAreIsolated | backend/internal/streaming/hub.go:95-107 | two runs that differ only in when other listeners dequeue leave a listener with the same queue, history and drops and every broadcast at the same point |
| HubIsolation.BroadcastNeverWaits | backend/internal/streaming/hub.go:96-107 | what other listeners have consumed enables or disables no step of an uncancelled broadcaster |
| HubIsolation.BroadcastCanGoOn | backend/internal/streaming/hub.go:95-111 | in every reachable state a broadcast in flight has an enabled step of its own |
| HubIsolation.BroadcastIsBounded | backend/internal/streaming/hub.go:95-111 | in any run it takes at most one own step per entry of its shards before it can only end |
| HubDrain.StepsAreBounded | backend/internal/streaming/listen.go:98-135 | from every reachable state, a run without newcomers is at most as long as a measure over sessions, queues, shards and contexts, plus 3 + 3 * sessions for each message a broadcaster still sends |
| HubDrain.DrainIsBounded | backend/internal/streaming/ingest.go:101-124 | once cancellation has reached every ingest connection none is sent, so the measure alone bounds the run |
| HubDrain.DrainedIsEmpty | backend/internal/streaming/listen.go:88-135 | a closed hub, whether or not clients and broadcasters leave by themselves, stops only with no listener, no lock, no connection, gauge zero, and one close and one counted disconnect per session |
| Streams.Repository.Create | backend/internal/streaming/repository.go:50-67 | inserts a live row, or refuses when the broadcaster already has one, and keeps one live row per broadcaster |
| Streams.Repository.End | backend/internal/streaming/repository.go:109-135 | ends a live row of the right owner and nothing else; otherwise not found |
| Streams.Repository.ListLive | backend/internal/streaming/repository.go:83-107 | exactly the live rows, newest first |
| Streams.Service.StartStream | backend/internal/streaming/service.go:34-58 | table, pool, gauge and answer for every case of a live stream and failing queries; a fresh hub on success only |
| Streams.StartKeepsStep | backend/internal/streaming/service.go:34-58 | the pool stays the live rows since the start and the gauge their change, whatever fails |
| Streams.StartSucceedsIffNoneLive | backend/internal/streaming/repository.go:50-67 | with working queries a start succeeds iff none of the broadcaster's streams is live, whatever it has ended, and is refused as already live iff one is |
| Streams.RestartSucceeds | backend/internal/streaming/service.go:34-78 | after a broadcaster's live stream is ended, its next start succeeds |
| Streams.Service.EndStream | backend/internal/streaming/service.go:62-78 | table, pool, gauge and answer for every case; the hub is closed iff the row was ended |
| Streams.EndKeepsStep | backend/internal/streaming/service.go:62-78 | the same agreement is kept by ending a stream |
| Streams.EndSucceedsIffOwnAndLive | backend/internal/streaming/repository.go:109-135 | an end succeeds iff its query does, the stream is live and the caller its owner or nobody in particular |
| Streams.Service.HubOf | backend/internal/streaming/service.go:89-93 | an open hub, or none |
| Lifecycle.Reachable | backend/internal/streaming/service.go:34-78 | under any interleaving of calls: one live row per broadcaster, pooled hubs open, unpooled ones closed, and the gauge balance |
| Lifecycle.GaugeIsConserved | backend/internal/streaming/service.go:43-75 | change in live rows = gauge + created but not yet counted - ended but not yet counted |
| Lifecycle.LosersLeaveNothing | backend/internal/streaming/service.go:34-46 | a losing call is the creator of no row and of no id whose hub was registered; each row is ended and counted by one call only |
| LifecycleRuns.RacersLose | backend/migrations/000006_streams_broadcaster_live_unique.up.sql:1-5 | while a broadcaster has a live stream nobody ends, in any schedule every call for it that is checking, inserting or failed stays unfinished or fails, with ErrAlreadyLive unless its own query fails, and no row of the broadcaster is created |
| LifecycleRuns.AtMostOneWins | backend/internal/streaming/repository.go:50-67 | however many calls race, a run in which nobody ends a broadcaster's stream creates at most one row for it |
| LifecycleRuns.UncontestedStartWins | backend/internal/streaming/service.go:34-57 | whatever other calls do, a start for a broadcaster without a live stream does not fail unless its own queries do or another call inserts for the same broadcaster, and ends with a row of its own |
| LifecycleRuns.StartStreamIsASoloRun | backend/internal/streaming/service.go:34-58 | every outcome of the sequential StartStream is reached by the steps of one call alone |
| LifecycleRuns.EndStreamIsASoloRun | backend/internal/streaming/service.go:62-78 | so is every outcome of EndStream, which closes the hub it unpools |
| Lifecycle.PoolAgreesUnlessEarly | backend/internal/streaming/service.go:43-73 | with no call in flight, pool = own live rows iff no EndStream ran before its hub was registered |
| Lifecycle.PoolAgrees | backend/internal/streaming/service.go:48-73 | if streams are only ended after StartStream returned, pool = own live rows |
| Lifecycle.EarlyEndLeaks | backend/internal/streaming/service.go:43-51 | a concrete run in which an ended stream's hub stays pooled and open |
| Lifecycle.LeakIsForEver | backend/internal/streaming/service.go:62-73 | whatever calls follow, such a hub is never unpooled or closed |
| RateLimit.Limiter.Allow | backend/pkg/middleware/ratelimit.go:68-100 | refill, cap, clear, spend and answer exactly as the specification functions say |
| RateLimit.TokensStayInRange | backend/pkg/middleware/ratelimit.go:76-98 | 0 <= tokens <= Requests in every reachable table |
| RateLimitBound.EpochBound | backend/pkg/middleware/ratelimit.go:76-98 | over any run, in any order of readings: allowed calls plus what the bucket ends with <= what it held + one quota per clear + Requests/Window * the summed advance of the client's bucket clocks |
| RateLimitBound.RateBound | backend/pkg/middleware/ratelimit.go:68-100 | without a clear, allowed calls <= Requests + Requests/Window * advance of the bucket's clock, in any multi-client run with out-of-order readings |
| RateLimitBound.WholeRunBound | backend/pkg/middleware/ratelimit.go:84-90 | N calls see at most (N-1)/cap clears; each grants a client one more quota, beside the refill over its bucket clocks, which advance in all by at most (1 + clears) times the spread of the readings, and by the spread itself when they are in order |
| RateLimit.ClientIndependence | backend/pkg/middleware/ratelimit.go:76-99 | between clears a client's answers are those of a limiter that saw only its calls |
| RateLimit.LazyRefinesEager | backend/pkg/middleware/ratelimit.go:78-98 | inside any interleaving and from a client's first call on, updating only on calls gives the answers and the final tokens of a bucket refilled and capped every nanosecond |
| RateLimitRetry.RetryIsExact | backend/pkg/middleware/ratelimit.go:92-96 | after a rejection the next call is admitted iff the deficit is refilled; last + retryAfter + 1ns is always enough, and any time before last + retryAfter too early if that is more than a second; it is at least 1s and at most max(Window/Requests, 1s) |
| RateLimitRetry.SpacedCallsAreAllowed | backend/pkg/middleware/ratelimit.go:76-99 | a client whose calls are at least Window/Requests apart is never rejected, new or known, whatever other clients do and however often the table is cleared |
| RateLimitRetry.RoundingError | backend/pkg/middleware/ratelimit.go:138-142 | the Retry-After header is within half a second of the wait |
| RateLimitRetry.HeaderIsEnoughIffFast | backend/pkg/middleware/ratelimit.go:138-142 | over all runs of a limiter and rejected calls with a given lag behind the bucket's clock: waiting the header's seconds is always enough iff Window <= Requests * (1 s - lag) |
| RateLimitRetry.RetryAfterHeaderCanBeShort | backend/pkg/middleware/ratelimit.go:138-142 | one request per 1.4 s, from an empty table: after a first call the header says one second, which is too early |
| RateLimitTight.BoundIsAttained | backend/pkg/middleware/ratelimit.go:15-22 | two full quotas within one closed window are allowed for every policy: the rate bound is met with equality |
| RateLimitTight.ClearGrantsAQuota | backend/pkg/middleware/ratelimit.go:43-48 | after a clear an exhausted client is allowed a whole quota at the same instant |
| RateLimitTight.RemainingIsExact | backend/pkg/middleware/ratelimit.go:92-99 | of any number of further calls at that instant exactly as many are allowed as the client was told remain; a rejected call is told none |
| RateLimitTiers.Middleware.Serve | backend/pkg/middleware/ratelimit.go:114-147 | routing to the tiers, exemptions, disabled policies, headers and 429, tied to the specification |
| RateLimitTiers.AuthRoutes | backend/pkg/middleware/ratelimit.go:124-147 | every path under /auth/ is metered by the credential limiter alone, with its limit and what its table tells |
| RateLimitTiers.GeneralRoutes | backend/pkg/middleware/ratelimit.go:123-147 | every other metered path by the general limiter alone |
| RateLimitTiers.ExemptRoutes | backend/pkg/middleware/ratelimit.go:156-162 | /health and everything under /internal/ is forwarded and leaves both tables, as is everything when switched off |
| RateLimitTiers.TierIndependence | backend/pkg/middleware/ratelimit.go:119-134 | in any run a tier's responses are those of the run that holds only its requests |
| Incidents.Repository.Open | backend/internal/incident/repository.go:35-65 | refreshes the open row of the fingerprint or inserts a firing one, and says which |
| Incidents.Repository.ResolveByFingerprint | backend/internal/incident/repository.go:67-77 | resolves the open row at the given time; none is no error |
| Incidents.Repository.Acknowledge | backend/internal/incident/repository.go:124-136 | only a firing row, else not found, row returned as stored |
| Incidents.Repository.Resolve | backend/internal/incident/repository.go:138-148 | only an unresolved row, else not found, row returned as stored |
| Incidents.Service.Ingest | backend/internal/incident/service.go:37-50 | the feed after a batch is the play of the alerts that landed, whatever failed; the first error is returned; and one alert does to the table what its own fields say |
| Incidents.Service.IngestOne | backend/internal/incident/service.go:52-85 | a nameless alert or a failing statement changes nothing; a resolved one resolves the open rows of its fingerprint at its end time; a firing one refreshes them, or adds and notifies a row with its rule, family and start |
| Incidents.BatchGoesAlertByAlert | backend/internal/incident/service.go:37-50 | a batch is its alerts one by one, in order, each acting on the rows of its own fingerprint by its own fields, failing ones not at all |
| IncidentHistory.AlertSettlesItsFingerprint | backend/internal/incident/service.go:57-67 | a resolved alert leaves no unresolved row of its fingerprint, a firing one exactly one, showing the alert |
| Incidents.TimedAlertsReadAlike | backend/internal/incident/webhook.go:34-74 | alerts with their times given mean the same whenever they are handled |
| IncidentHistory.Lifecycle | backend/internal/incident/repository.go:35-148 | over all runs: one unresolved row per fingerprint (the newest), resolved_at iff resolved, no row moves back or changes once resolved, one notification per inserted row |
| IncidentHistory.AtMostOneUnresolved | backend/migrations/000010_create_incidents.up.sql:29-33 | two unresolved rows of one fingerprint are one row |
| IncidentHistory.NotificationsAreOpenings | backend/internal/incident/service.go:77-84 | notifications of a fingerprint = rows inserted = firing alerts handled while it had no unresolved row |
| IncidentReplay.SplittingChangesNothing | backend/internal/incident/service.go:37-50 | a batch cut anywhere leaves the same feed and the same first error |
| IncidentReplay.FirstErrorIsFirst | backend/internal/incident/service.go:38-49 | an error is returned iff some alert failed, and it is the first one's |
| IncidentReplay.PlayIsLocal | backend/internal/incident/repository.go:44-77 | what a batch does to one fingerprint depends on that fingerprint's alerts and rows alone |
| IncidentRetry.DistinctBatchesRetry | backend/internal/incident/service.go:31-50 | with one alert per fingerprint, any number of partly failing deliveries and a clean one give the same incidents and as many notifications as one clean pass, others touching other fingerprints in between |
| IncidentRetry.RetrySafeIffHarmless | backend/internal/incident/webhook.go:150-154 | for every batch and set of fingerprints others may touch in between: any number of reported failures and a clean delivery equal one clean pass followed by the others, on all tables, iff alerts of one fingerprint all open with one origin or all close at one time and none is about a touched fingerprint |
| IncidentRetry.ReopenedAfterHandResolve | backend/internal/incident/webhook.go:150-154 | a concrete batch whose retry reopens, and notifies again, an incident that an admin resolved since the first delivery |
| IncidentBetween.ActionByName | backend/internal/incident/repository.go:124-148 | acting on a row by its id is acting on the n-th incident of its fingerprint |
| IncidentBetween.PerformAllIsLocal | backend/internal/incident/repository.go:44-148 | what alerts and admins do to one fingerprint depends on that fingerprint alone |
| IncidentReplay.ReopenedByRetry | backend/internal/incident/webhook.go:150-154 | a concrete batch whose retry reopens an incident and notifies again |
| Storage.KeyFromURLInverts | backend/internal/storage/s3.go:113-126 | for every configuration, a URL is recognised with a key iff it is that key's public URL |
| StorageAddresses.VirtualHostedAddress | backend/internal/storage/s3.go:113-126 | without a base URL, the address of a host is recognised iff the host is the bucket's in its region, with the path as the key |
| StorageAddresses.HostsDiffer | backend/internal/storage/s3.go:113-116 | another bucket or region is another host |
| StorageAddresses.PathStyleAddress | backend/internal/storage/s3.go:113-126 | with a base URL, whatever slashes end it, the address of a bucket under it is recognised iff it is the configured one, and nothing outside the base is |
| Storage.UploadKeysAreScopedAndFresh | backend/internal/track/service.go:98-117 | whatever the file name, the key stays directly in the broadcaster's folder and distinct uuids give distinct keys |
| StorageAddresses.ExtFromLastDot | backend/internal/track/service.go:101-103 | the extension starts at the last dot after the last slash |
| StorageAddresses.UploadKeySpelled | backend/internal/track/service.go:101-117 | the key is tracks/, the broadcaster, the uuid and the extension, if there is one |
| Erasure.Bucket.Delete | backend/internal/storage/s3.go:105-111 | one request: removes the object or fails without effect |
| Erasure.TrackRepository.Delete | backend/internal/track/repository.go:105-130 | removes and returns the matching row, or not found |
| Erasure.TrackRepository.DeleteByBroadcaster | backend/internal/track/repository.go:132-157 | removes and returns the broadcaster's rows in one statement |
| Erasure.TrackService.DeleteTrack | backend/internal/track/service.go:58-70 | row first, then one request for its object if the URL is recognised |
| Erasure.TrackService.PurgeByBroadcaster | backend/internal/track/service.go:79-96 | rows first, then one request per recognised object whatever fails; the first failure is returned |
| Erasure.UserRepository.Delete | backend/internal/user/repository.go:138-152 | deletes the account with its track rows, or not found |
| Erasure.DeleteUser.Execute | backend/internal/user/usecase/delete_user_by_id.go:38-45 | purge, and the account only if nothing failed; without storage the account alone |
| Erasure.TryAllAttemptsEachOnce | backend/internal/track/service.go:85-95 | one request per key in order; an object is left iff none of its requests succeeded; first failure reported |
| ErasureHistory.AccountErasedIffNothingFailed | backend/internal/user/usecase/delete_user_by_id.go:38-45 | the account goes iff it exists, neither statement failed and every deletion succeeded |
| ErasureHistory.FirstFailureIsTold | backend/internal/track/service.go:75-96 | a deletion failure is reported iff it is the first one |
| ErasureHistory.RowsGoFirst | backend/internal/track/service.go:79-83 | whatever becomes of objects and account, the rows are removed first; a failed first statement changes nothing |
| ErasureHistory.ErasureLedger | backend/internal/track/service.go:58-96 | over any run and failures: rows present or registered are still present, were removed by a request or went with an account; objects tried are exactly those of removed rows, one request each; and any object, there at the start or uploaded in the run, is left iff since the start or one of its uploads no request for it succeeded |
| ErasureHistory.OrphansAreForever | backend/internal/track/service.go:79-96 | once no row points at an object, no run of requests ever tries it again |
| ErasureHistory.RetryTriesNothing | backend/internal/user/usecase/delete_user_by_id.go:32-37 | once a first call removed the rows, whatever failed after that, a retry requests no deletion, changes no object and erases the account |
| ErasureHistory.RetryIsNoRepair | backend/internal/user/usecase/delete_user_by_id.go:32-37 | whichever statements of the first call fail, it and a retry leave no object of the account iff every one present has a successful request in the only purge that sees the rows |
| ErasureHistory.RetryLeavesAnOrphan | backend/internal/user/usecase/delete_user_by_id.go:32-37 | the concrete run: deletion fails, retry succeeds, the object stays |
| ErasureHistory.ErasureInTwoHalves | backend/internal/user/usecase/delete_user_by_id.go:38-45 | with nothing in between, an erasure is its purge followed, if that succeeds, by the account's deletion |
| ErasureHistory.OnlyOverlappingRowsAreLost | backend/internal/user/usecase/delete_user_by_id.go:38-45 | rows that cascade away without a deletion request were all registered between the two halves; without such a registration none is lost |
| ErasureHistory.LostRowsLeaveOrphans | backend/internal/user/usecase/delete_user_by_id.go:32-45 | the object of such a row stays for ever |
| ErasureHistory.UploadedKeyIsTheOneErased | backend/internal/track/service.go:98-110 | a track registered under its presigned URL is purged under the presigned key |
| ErasureHistory.StoredAddressIsErased | backend/internal/track/service.go:79-95 | a purge of a row stored under the bucket's virtual-hosted or path-style address requests that key, and of the only row no other |
| Playlists.Repository.Create | backend/internal/playlist/repository.go:43-53 | a new empty playlist under a fresh id |
| Playlists.Repository.Update | backend/internal/playlist/repository.go:91-126 | given fields replaced, tracks kept, others' playlists refused |
| Playlists.Repository.Delete | backend/internal/playlist/repository.go:128-152 | removes exactly that playlist, or not found |
| Playlists.Repository.AddTrack | backend/internal/playlist/repository.go:154-179 | appends the track unless present, for the owner only |
| Playlists.Repository.RemoveTrack | backend/internal/playlist/repository.go:181-204 | removes every occurrence, for the owner only |
| Playlists.PlaylistHistory | backend/internal/playlist/repository.go:154-204 | after any history: listed iff last operation was an add, ordered by first add since the last remove, no duplicates |
| Playlists.RepositoryKeepsHistories | backend/internal/playlist/repository.go:43-204 | in any run over many playlists and callers each holds the list of its own accepted edits |

## Left out

- HTTP, WebSocket and JSON plumbing, routing, handlers, JWT, passwords, mail delivery, the AWS SDK, telemetry export and SQL text: foreign or shallow code.
- Hub.Hub.Broadcast: runs its shards one after the other, with nothing beside them; their parallel run is HubMachine, tied to this contract by HubRefine.AloneIsTheSequentialBroadcast and to a plain loop amid other steps by HubRefine.ShardsRefineTheLoop.
- A buffer size of 0 (unbuffered channels): HubMachine starts from at least 1.
- The read lock of `count` and the writer preference of `sync.RWMutex`: they restrict schedules that are all covered, and change no state.
- A read on a cancelled context is taken to fail, as the WebSocket library promises.
- Bytes counters, logs and stream durations.
- RateLimit.Limiter.Allow: exact scaled integers; float rounding and Duration overflow are not modelled.
- RateLimitTiers.Middleware.Serve: the client key is an input; parsing of the remote address is not modelled.
- Statements that fail after taking effect on the server (a timeout after the commit).
- Erasure.DeleteUser.Execute: other requests may run between its two statements (ErasureHistory.OnlyOverlappingRowsAreLost) but not between the object deletions of one purge; the cascade into tables other than tracks is not modelled.
- Streams.Service.StartStream: a restart of the process, which does not rebuild the pool, is not modelled; the table found at start is.
- Streams.Repository.Create: start times are the order of the rows; equal start times, and the other columns of a row, are not modelled.
- Incidents.Service.Ingest: the mapping of labels and annotations to title, severity and family is taken as given; a notification is its start, not the mails sent for it.
- Incident listing and counting, track and playlist listing: one-query reads that would only add easy members.
- Authorization beyond the ownership clauses of the statements, feature flags, configuration and password reset: one-branch checks.
