# Geo notifications: the outbox pipeline and the list cache, verified

A Dafny model of the two protocols at the centre of the geo notifications service, with proofs.

**From a recorded check to the webhook.** `CheckAndRecord` commits a location check, its links to
incidents and an outbox row in one transaction. The relay claims the smallest due rows, pushes
them to a Redis stream with one non-atomic pipeline, and marks them dispatched, dead or due again
in a second transaction. Webhook workers of one consumer group read the stream, take a
per-row claim with `SETNX`, POST, and acknowledge.

**The versioned list cache.** `List` of the active incidents reads a version counter, then the
page stored under that version, then the database, then stores the page; writers commit and then
bump the counter. None of it is atomic.

Both are modelled twice. The code itself is imperative Dafny in the source's form: classes for the
transaction, the outbox and incidents repositories, the stream, the relay, the worker and the
caching repository, with the source's loops and branches and one parameter for each answer the
database, Redis or the webhook may give. The concurrency is in state machines whose steps are the
single database transactions and Redis commands, for any number of producers, relays, workers,
readers and writers, with crashes between any two steps. Each method that takes part in a
protocol is proved to be a run of it.

| module | role |
|---|---|
| `Common`, `Decimal`, `RetryDelay` | sets, sums and pigeonholes; Go's integer formatting and parsing; `backoff` in 64-bit arithmetic |
| `Outbox`, `Tables`, `Stream` | outbox rows and statements, the committed store, stream entries |
| `UnitOfWork`, `OutboxRepository`, `RedisQueue`, `Relay`, `CheckService` | the producer and relay code |
| `RelayProtocol`, `RelayRefinement`, `OneRelay`, `RelayProgress`, `SeveralRelays` | producers and relays interleaved: safety, accounting, progress, and what breaks with several relays |
| `ConsumerProtocol`, `WebhookWorker`, `Pipeline` | workers interleaved, the worker code, and the whole path end to end |
| `Incidents`, `IncidentsRepository` | the incidents table, its ordering and pages, and its statements |
| `CacheKeys`, `CacheProtocol`, `CacheRegularity`, `CachePaths`, `CacheSession`, `CachedRepository` | key format, interleaved cache, when its reads are regular, single calls as protocol runs, sessions, and the cache code |

## What came out

- Nothing is lost or made up on the way to the webhook, whatever crashes and however many relays
  and workers run (`Pipeline.NoSilentLoss`, `Pipeline.EveryPostAnnouncesACheck`).
- A row that is due is claimed within `floor(10 (n-1) / 100) + 1` claims of the single relay, plus
  one for each round cut off (`RelayProgress.StarvationFreedom`), and without new rows the table
  drains within ten claims per row plus one for each lost round (`RelayProgress.Draining`).
- With several relays terminal statuses are not final, because the mark statements do not look at
  the old status. A dispatched row stays dispatched in every continuation if and only if no relay
  still holds it with its push not yet acknowledged (`SeveralRelays.DispatchedIsFinalIff`). A dead
  row stays dead if and only if every relay that still holds it has had its push fail and claimed
  it for the tenth time or later (`SeveralRelays.DeadIsFinalIff`). Two relays reach a violation of
  each (`SeveralRelays.TwoRelaysReopen`, `SeveralRelays.TwoRelaysRevive`).
- `backoff` equals its mathematical meaning for attempts up to 33 and on eight later ones, and
  nowhere else (`RetryDelay.BackoffIsClampedIff`). The relay only ever calls it, with an effect,
  on attempts 1 to 9 (`OneRelay.RetryArithmetic`).
- The list cache is regular under every interleaving (`CacheProtocol.RegularReads`) as long as no
  `SETNX` of the version key errors while the key is absent. `getVersion` discards that error and
  answers 1, which lets a stale page reach a healthy later `List`. In a state where this has not
  happened yet, every continuation is regular if and only if the version key is set
  (`CacheRegularity.RegularReadsIff`).
- `FindNearby` scans the nullable description column into a plain string, although `Create` and
  `Update` store an empty description as NULL. A check succeeds only if none of the incidents its
  search selects has an empty description (`CheckService.DescribedIffNoneEmpty`); one that does
  makes every check that selects it fail and record nothing
  (`CheckService.EmptyDescriptionBlocksChecks`, `CheckService.Service.CheckAndRecord`).

## Assumptions

- A transaction commits wholly or not at all; a failed statement aborts it, so that everything
  after it fails and nothing of it becomes durable; a commit may be applied with its answer lost.
- A single Redis command is atomic. A pipeline answered without error has put every item in the
  stream; one answered with an error may have put any of them there, and in the protocol a
  command of a started pipeline may land late or more than once.
- Redis does not lose data, trim the stream, evict the version key, or expire a key before its
  TTL; a version counter stops at the largest 64-bit integer, where `INCR` fails.
- The relay and Postgres read one clock, the workers and Redis another; neither runs backwards.
- A claim or mark transaction whose relay was cut off, or stopped waiting for it, is resolved one
  way or the other before that relay claims again.
- Outbox ids start at 1 and fit in 64 bits, as BIGSERIAL makes them.

No delivery guarantee is claimed for the POST itself: the dedupe key is set before it and entries
are read once, so a failed POST is not repeated by the worker.

## Model

| member | source | states |
|---|---|---|
| RelayProtocol.InvStep | internal/workers/outboxrelay/outboxrelay.go:60-107 | every step of any producer or relay, crashes and partial pushes included, keeps: batches held match their rows, dispatched rows are in the stream, dead rows were claimed ten times, traffic comes from rows, claims equal attempts, rows correspond to checks |
| RelayProtocol.NoLossNoFabrication | internal/workers/outboxrelay/outboxrelay.go:83-105 | any number of relays, every run: each committed row is pending, or dispatched with its own id and payload in the stream, or dead after at least ten claims; every stream entry is some committed row's |
| RelayProtocol.OutboxMatchesChecks | internal/app/incidents/service.go:143-181 | in every reachable state a check has a row exactly if it has linked incidents, never two, and the row carries its id, user and incidents |
| RelayProtocol.HeldStep | internal/platform/db/outbox/outbox.go:38-63 | the events a relay holds stay distinct, present, true to their rows' payloads, with attempt counts from 1 up to the row's |
| RelayProtocol.AnsweredStep | internal/platform/redis/queue/queue.go:24-42 | a batch whose pipeline was acknowledged is in the stream whole, and remains so |
| RelayProtocol.RowsStep | internal/platform/db/outbox/outbox.go:65-121 | no step makes a row dispatched without its entry in the stream, dead before ten claims, or scheduled more than five minutes ahead |
| RelayProtocol.TrafficStep | internal/platform/redis/queue/queue.go:24-42 | whatever is sent or lands carries the id, type and payload of a committed row |
| RelayProtocol.MarkRow | internal/workers/outboxrelay/outboxrelay.go:85-106 | a mark leaves rows outside the batch alone and makes each row in it dispatched, dead, or pending at the shared time |
| RelayProtocol.RunGrows | internal/platform/db/outbox/outbox.go:38-121 | over any run no row disappears, changes its payload or loses an attempt, and the stream only grows |
| RelayProtocol.RowsComeFromRecords | internal/app/incidents/service.go:148-176 | every row a run adds was inserted by a Record step of the run and still carries that step's check, user and incidents |
| RelayProtocol.HistoryIsFaithful | internal/platform/db/outbox/outbox.go:38-121 | the claims, lost rounds and delays the accounting lemmas speak of are those of the table: one claim or lost round per row of the batch, and a delay is the time from its mark to the row's next attempt |
| RelayProtocol.SettledForever | internal/platform/db/outbox/outbox.go:45-77 | a terminal row that no relay holds never changes again, and no later step claims it or sends, marks or loses a batch with it, for any number of relays |
| RelayProtocol.PushingStep | internal/platform/redis/queue/queue.go:29-41 | the commands of a started pipeline can land until it is answered |
| OneRelay.AttemptAccounting | internal/workers/outboxrelay/outboxrelay.go:62-105 | one relay, every run: claims equal attempts; attempts split into scheduled retries, lost rounds and the claim in hand or last one; at most 10 plus lost rounds; at rest and pending at most 9 plus lost rounds |
| OneRelay.LifetimeBackoff | internal/workers/outboxrelay/outboxrelay.go:95-118 | a row's scheduled delays never exceed 810 seconds in all; a row that dies without a lost round had exactly nine, of at least 18 seconds |
| OneRelay.TerminalIsAbsorbing | internal/workers/outboxrelay/outboxrelay.go:60-107 | one relay: once a row is dispatched or dead no continuation changes it, and at no later step is it claimed, or in a batch that is sent, marked or lost |
| OneRelay.RetryArithmetic | internal/workers/outboxrelay/outboxrelay.go:95-134 | whenever a failed batch has a row to retry, the shared attempt count is in 1..9, the delay is exactly min(2^m, 300) seconds, and no longer than any retried row's own count gives |
| OneRelay.AccountsStep | internal/workers/outboxrelay/outboxrelay.go:60-107 | every step of the single-relay system keeps every row's account balanced |
| RelayProgress.StarvationFreedom | internal/workers/outboxrelay/outboxrelay.go:35-38 | a due row n is in one of the next floor(10(n-1)/100)+1 claims, plus one for each lost round, with new rows arriving freely |
| RelayProgress.PassingOver | internal/platform/db/outbox/outbox.go:41-56 | while n is passed over, each completed round takes a full batch of work off smaller ids, and claims equal marks plus lost rounds plus the round in progress |
| RelayProgress.SkippingClaim | internal/platform/db/outbox/outbox.go:41-56 | a claim that leaves out a due row claims a full batch of smaller ids |
| RelayProgress.WorkStep | internal/workers/outboxrelay/outboxrelay.go:60-107 | no step adds work to the rows below n, and a mark takes at least one unit off each row of its batch |
| RelayProgress.Draining | internal/workers/outboxrelay/outboxrelay.go:60-107 | without new rows: remaining work plus completed rounds never exceeds the work at the start, itself at most ten per row; work is zero exactly when nothing is pending; the relay at rest has claimed at most that work plus the lost rounds, and has drained the table once it reaches that number |
| RelayProgress.RoundsBalance | internal/workers/outboxrelay/outboxrelay.go:60-107 | every non-empty claim of the single relay ends in one mark or one lost round, or is still in progress |
| RelayProgress.NoWorkIffDrained | internal/platform/db/outbox/outbox.go:65-121 | the measure is zero if and only if no row is pending, and at most ten per row |
| RelayProgress.PendingRowsFallDue | internal/workers/outboxrelay/outboxrelay.go:109-118 | five minutes after any moment the relay is free, every pending row is due and a non-empty claim is possible |
| SeveralRelays.DispatchedIsFinalIff | internal/platform/db/outbox/outbox.go:72-121 | any number of relays: a dispatched row stays dispatched in all continuations if and only if no relay holds it with an unacknowledged push |
| SeveralRelays.Reopening | internal/platform/db/outbox/outbox.go:92-116 | from such a state a relay's failed push takes the dispatched row back to pending or dead |
| SeveralRelays.TwoRelaysReopen | internal/workers/outboxrelay/outboxrelay.go:60-107 | a reachable run of two relays in which a dispatched row is reopened |
| SeveralRelays.DeadIsFinalIff | internal/platform/db/outbox/outbox.go:72-121 | any number of relays: a dead row stays dead in all continuations if and only if every relay that holds it has had its push fail and claimed it ten times or more |
| SeveralRelays.Reviving | internal/platform/db/outbox/outbox.go:72-99 | from any other state in which a relay holds the dead row, that relay can deliver and dispatch it or make it pending |
| SeveralRelays.LateDelivery | internal/workers/outboxrelay/outboxrelay.go:83-91 | a started pipeline may still be acknowledged, and its mark then dispatches a row whatever became of it meanwhile |
| SeveralRelays.TwoRelaysRevive | internal/workers/outboxrelay/outboxrelay.go:60-107 | a reachable run of two relays in which a dead row is revived |
| RelayRefinement.RoundIsRun | internal/workers/outboxrelay/outboxrelay.go:60-107 | whatever one call of process does to outbox and stream, with any rows locked by other relays, is a run of the protocol by that relay, ending in one mark or one lost round |
| Relay.Relay.Process | internal/workers/outboxrelay/outboxrelay.go:60-107 | outbox and stream after one call, for every combination of failures: the due batch bumped if the claim committed, entries appended, the mark applied exactly if it survived; nil only for a complete round |
| Relay.RoundClaims | internal/platform/db/outbox/outbox.go:41-56 | a round claims pending, due, unlocked rows, at most 100, all of them or those with the smallest ids, and its events carry the rows' type, payload and attempt count plus one |
| Relay.RoundRow | internal/workers/outboxrelay/outboxrelay.go:85-106 | what a round leaves of each row: untouched outside the batch; one attempt more if unmarked; dispatched if acknowledged; dead from the tenth claim if the push failed |
| Relay.RoundRetry | internal/workers/outboxrelay/outboxrelay.go:95-134 | a retried row is due exactly min(2^m, 300) seconds after the mark, m the least attempt count of its batch |
| Relay.RoundEntries | internal/workers/outboxrelay/outboxrelay.go:72-83 | the entries pushed carry their events' type, payload and id, and all are there if the pipeline was acknowledged |
| Relay.Relay.ClaimPhase | internal/workers/outboxrelay/outboxrelay.go:61-70 | the claimed rows are the smallest due ids not locked elsewhere, with attempts bumped and status untouched, or nothing changes |
| Relay.Relay.Collect | internal/workers/outboxrelay/outboxrelay.go:72-81 | items and ids are the events', position by position |
| Relay.Relay.MarkPhase | internal/workers/outboxrelay/outboxrelay.go:85-106 | all or nothing: the whole batch is marked exactly if no begin, statement or commit failed, a discarded MarkDead error included |
| Relay.Relay.KillExhausted | internal/workers/outboxrelay/outboxrelay.go:95-102 | the loop kills exactly the rows claimed ten times or more and collects exactly the others; a rejected MarkDead aborts the transaction |
| Relay.Relay.FailedBatch | internal/workers/outboxrelay/outboxrelay.go:93-105 | the callback leaves the failed-batch table, or an aborted transaction exactly if one of its statements was rejected |
| Relay.Relay.MinAttemptsOf | internal/workers/outboxrelay/outboxrelay.go:120-134 | the loop returns a count no larger than any in the batch and equal to one of them, at least 1, and 1 for an empty batch |
| Outbox.Smallest | internal/workers/outboxrelay/outboxrelay.go:124-129 | a lower bound of all attempt counts that one of them attains |
| Outbox.FailBatchPartition | internal/platform/db/outbox/outbox.go:85-121 | after a failed push each row of the batch is exactly one of dead and pending at the shared time; no other row changes |
| Outbox.RetriedRow | internal/workers/outboxrelay/outboxrelay.go:95-105 | after a failed push every row with a claim to spare is pending and due min(2^m, 300) seconds after the mark, m the least attempt count in the batch |
| Outbox.BatchUnique | internal/platform/db/outbox/outbox.go:41-56 | the rows a claim takes are determined by the table, the time and the locks |
| Outbox.BatchExists | internal/platform/db/outbox/outbox.go:41-56 | such a batch always exists |
| RetryDelay.BackoffWithinBounds | internal/workers/outboxrelay/outboxrelay.go:109-118 | in wrapping 64-bit arithmetic the delay is between two seconds and five minutes for every attempt |
| RetryDelay.ExactUpTo33 | internal/workers/outboxrelay/outboxrelay.go:109-118 | up to attempt 33 it equals the unwrapped clamp |
| RetryDelay.BackoffTable | internal/workers/outboxrelay/outboxrelay.go:109-118 | attempts 1 to 9 wait 2, 4, 8, 16, 32, 64, 128, 256 and 300 seconds |
| RetryDelay.AfterOverflow | internal/workers/outboxrelay/outboxrelay.go:109-118 | after 33 it is five minutes on eight listed attempts and two seconds on all others |
| RetryDelay.BackoffIsClampedIff | internal/workers/outboxrelay/outboxrelay.go:109-118 | it equals the unwrapped clamp if and only if the attempt is at most 33 or one of the eight |
| RetryDelay.BackoffMonotoneUpTo33 | internal/workers/outboxrelay/outboxrelay.go:109-118 | monotone up to 33, and drops from the maximum to the minimum at 34 |
| OutboxRepository.Repository.Enqueue | internal/platform/db/outbox/outbox.go:18-29 | a new pending row with no attempts, due at once, under the next id; or an error, an aborted transaction and no row |
| OutboxRepository.Repository.ClaimBatch | internal/platform/db/outbox/outbox.go:38-63 | claims the smallest due ids not locked elsewhere, up to the limit, bumps only their attempts, and returns those rows once each in some order |
| OutboxRepository.Repository.MarkDispatchedBatch | internal/platform/db/outbox/outbox.go:65-83 | exactly the given rows become dispatched, whatever their status was; nothing for no ids |
| OutboxRepository.Repository.MarkRetryBatch | internal/platform/db/outbox/outbox.go:85-105 | exactly the given rows become pending at the given time with the error recorded; nothing for no ids |
| OutboxRepository.Repository.MarkDead | internal/platform/db/outbox/outbox.go:107-121 | exactly the given row becomes dead with the error recorded, or the transaction aborts |
| OutboxRepository.Repository.SmallestDue | internal/platform/db/outbox/outbox.go:43-48 | selection of the smallest due unlocked ids up to the limit |
| RedisQueue.RedisQueue.EnqueueBatch | internal/platform/redis/queue/queue.go:24-42 | all entries appended in order on success; on an error exactly those the pipeline executed, in order; nothing for an empty batch |
| RedisQueue.KeptIsSubsequence | internal/platform/redis/queue/queue.go:29-41 | after a failed pipeline the new entries are exactly the executed commands, once each and in order |
| Stream.DecodeEntryOf | internal/workers/webhook/worker.go:91-103 | the worker reads back the outbox id the relay wrote |
| Decimal.ParseInt64RoundTrip | internal/workers/webhook/worker.go:100-103 | parsing a formatted integer gives it back exactly if it fits in 64 bits, and an error otherwise |
| Decimal.FormatInjective | internal/workers/webhook/worker.go:105 | different integers never format alike |
| Decimal.FormatIsDecimal | internal/workers/webhook/worker.go:105 | decimal notation, digit by digit, with a minus sign |
| Decimal.ParseInt64Cases | internal/workers/webhook/worker.go:100-103 | signs, text that is no number and values out of range |
| UnitOfWork.Begin | internal/platform/db/uow/uow.go:34-43 | joins the enclosing transaction unowned, or begins a fresh one over the committed state, or reports the failed begin |
| UnitOfWork.Finish | internal/platform/db/uow/uow.go:45-60 | durable exactly if owned, the callback returned nil, no statement failed and the commit was applied; errors and panics pass through |
| CheckService.Service.CheckAndRecord | internal/app/incidents/service.go:131-182 | succeeds exactly when the search and every statement succeed and no selected incident has a NULL description; then one check of this user, its links and, if anything was found, one outbox row announcing exactly that check, user and incidents are committed and nothing else changes; otherwise none of them (unless a commit's answer was lost); a NULL description always fails it; keeps the correspondence of checks and rows |
| CheckService.Service.RecordAndPublish | internal/app/incidents/service.go:148-176 | the callback: nil exactly if each statement succeeded; then the transaction holds the user's check, its links and, for a non-empty list only, the row that announces them |
| CheckService.RecordCheck | internal/platform/db/incidents/incidents.go:275-299 | the user's check and its links inserted together and nothing else changed, or the transaction aborts, which a repeated incident id always causes |
| CheckService.ScanNearby | internal/platform/db/incidents/incidents.go:218-273 | the scan succeeds if and only if no selected row has a NULL description, and then returns the rows in order |
| CheckService.FindNearby | internal/platform/db/incidents/incidents.go:243-273 | over the incidents table: succeeds exactly if the query does and no incident it selects has a NULL description, and returns them in order |
| CheckService.ScannableIffDescribed | internal/platform/db/incidents/incidents.go:218-228 | the selected rows can be scanned if and only if every selected incident's description column is set |
| CheckService.DescribedIffNoneEmpty | internal/platform/db/incidents/incidents.go:211-228 | for tables the repository writes: if and only if no selected incident has an empty description |
| CheckService.EmptyDescriptionBlocksChecks | internal/platform/db/incidents/incidents.go:65-86 | the row stored for one active incident with an empty description makes every selection that contains it fail, and is a possible selection by itself |
| CheckService.CommitIsRecordStep | internal/app/incidents/service.go:148-176 | what a successful call commits is an enabled Record step of the relay protocol in any of its states |
| Tables.RecordedKeepsCorrespondence | internal/app/incidents/service.go:148-176 | a committed check transaction keeps: rows announce their checks, a check has a row exactly if it has links, never two |
| Tables.RelayKeepsCorrespondence | internal/platform/db/outbox/outbox.go:50-116 | no relay statement can break that correspondence |
| ConsumerProtocol.InvStep | internal/workers/webhook/worker.go:51-140 | every step of any worker, crashes and expiries included, keeps the group, claim, POST and acknowledgement invariants |
| ConsumerProtocol.GroupStep | internal/workers/webhook/worker.go:63-86 | entries below the cursor are pending or acknowledged, never both, and in at most one worker's hands |
| ConsumerProtocol.WinsStep | internal/workers/webhook/worker.go:105-112 | claims of one id stay a TTL apart, no entry wins twice, and a set key was won by someone |
| ConsumerProtocol.PostsStep | internal/workers/webhook/worker.go:114-127 | each POST belongs to its own claim of the same entry and id and carries the entry's body, with the check id as its key |
| ConsumerProtocol.AcksStep | internal/workers/webhook/worker.go:78-86 | an acknowledged entry had its own POST accepted, or another entry had claimed its id |
| ConsumerProtocol.DedupeKeyInjective | internal/workers/webhook/worker.go:105 | different outbox ids have different dedupe keys |
| ConsumerProtocol.InvExtend | internal/platform/redis/queue/queue.go:29-40 | entries appended by relays do not disturb the consumers' invariant |
| WebhookWorker.Worker.Poll | internal/workers/webhook/worker.go:63-86 | one pass is a run of the protocol: the next entry is delivered once; POSTed, with its own body and check id, exactly if it is well formed and its id is free; acknowledged after an answer of 200 to 299 or if its id is already claimed; left pending after any other answer, none, or a malformed entry |
| WebhookWorker.Worker.Handle | internal/workers/webhook/worker.go:90-140 | nil exactly if the call was answered 200 to 299 or the id was already claimed; calls the webhook exactly for a well-formed, newly claimed entry, with its body |
| WebhookWorker.Worker.SetNX | internal/workers/webhook/worker.go:105-112 | claims the id for 24 hours exactly if no claim of it is in force; an error may or may not have claimed it |
| WebhookWorker.Worker.Send | internal/workers/webhook/worker.go:114-139 | sends the entry's body under its check id exactly if the body parses and the request can be built; nil exactly for an answer of 200 to 299 |
| WebhookWorker.Worker.Acknowledge | internal/workers/webhook/worker.go:80-84 | moves the entry from pending to acknowledged exactly if handle returned nil and XACK went through |
| Pipeline.NoSilentLoss | internal/workers/webhook/worker.go:63-130 | every check with an incident has exactly one row, which is pending, or dead after ten claims, or in the stream: unread, pending in the group, or acknowledged after its id was claimed |
| Pipeline.EveryPostAnnouncesACheck | internal/workers/webhook/worker.go:114-127 | every httpClient.Do carries a committed row's payload, naming a committed check, its user and exactly its linked incidents; no message is ever malformed |
| Pipeline.PostAnnouncesItsRecord | internal/app/incidents/service.go:159-172 | for every POST the run has a Record step for the same row whose check, user and incidents are the POST's body and Idempotency-Key |
| Pipeline.IdempotencyKeyIdentifiesRow | internal/workers/webhook/worker.go:125 | two POSTs carry the same Idempotency-Key if and only if they are for the same outbox row, and then the same body |
| Pipeline.Deduplication | internal/workers/webhook/worker.go:105-127 | claims of one id are at least 24 hours apart, and every POST has its own claim and its own entry |
| Pipeline.GroupAccounting | internal/workers/webhook/worker.go:63-86 | each stream entry is exactly one of undelivered, pending and acknowledged; an acknowledged one had a POST answered 200 to 299, or another entry had won its id |
| Incidents.PagesPartition | internal/platform/db/incidents/incidents.go:114-139 | for both filters: pages of a positive size laid end to end are exactly the incidents the filter admits, created_at descending then id descending, each once |
| Incidents.ListingMeaning | internal/platform/db/incidents/incidents.go:114-128 | the listing has exactly the rows the filter admits, inactive ones included without it, each once, created_at descending then id descending |
| Incidents.PageIsWindow | internal/platform/db/incidents/incidents.go:122-128 | entry k of a page is entry offset + k of the listing, up to the limit and the end; negative numbers are an error |
| Incidents.PagesArePrefix | internal/platform/db/incidents/incidents.go:122-128 | n pages are the first n times limit incidents of the listing |
| Incidents.ListingUnique | internal/platform/db/incidents/incidents.go:122 | created_at DESC, id DESC determines the listing |
| Incidents.Ordered | internal/platform/db/incidents/incidents.go:114-139 | a listing of exactly the selected rows in that order exists |
| Incidents.DescriptionRoundTrip | internal/platform/db/incidents/incidents.go:34-51 | a stored description is read back, the empty one included |
| IncidentsRepository.Repository.List | internal/platform/db/incidents/incidents.go:105-140 | the placeholders bind limit and offset to the right clauses: the result is the requested page of the ordered listing |
| IncidentsRepository.Repository.OrderRows | internal/platform/db/incidents/incidents.go:122 | selects the rows in created_at DESC, id DESC order |
| IncidentsRepository.Repository.Update | internal/platform/db/incidents/incidents.go:159-209 | field by field, for any subset of fields: what is given is set in the row and the answer, what is absent is kept, active and created_at are kept, updated_at is now exactly if something was given, other rows are untouched; missing ids and bad radii are errors that change nothing |
| IncidentsRepository.Repository.BuildSet | internal/platform/db/incidents/incidents.go:162-185 | the assembled assignments and arguments, run on any row, set each given field, keep each absent one, and set an empty description to NULL |
| IncidentsRepository.ExecSetSnoc | internal/platform/db/incidents/incidents.go:165-185 | appending an assignment and its arguments leaves the earlier ones bound as they were |
| IncidentsRepository.Repository.Create | internal/platform/db/incidents/incidents.go:65-86 | one new active row under a fresh id, an empty description stored as NULL, read back as given; or an error and no row |
| IncidentsRepository.Repository.GetByID | internal/platform/db/incidents/incidents.go:88-103 | what is returned has the id asked for and determines the stored row completely, NULL included; an absent id is not found |
| IncidentsRepository.Repository.Deactivate | internal/platform/db/incidents/incidents.go:142-157 | succeeds exactly for an active row, and changes only its flag and update time |
| CacheKeys.PageKeyInjective | internal/platform/redis/cache/incidents.go:67 | different versions, limits or offsets never share a key |
| CacheKeys.KeyFormat | internal/platform/redis/cache/incidents.go:67 | the keys as they are written |
| CacheKeys.PageKeyIsNotVersionKey | internal/platform/redis/cache/incidents.go:67-115 | no page key equals the version key |
| CacheProtocol.RegularReads | internal/platform/redis/cache/incidents.go:61-104 | every interleaving of lists, writes, evictions and expiries: a List whose version read succeeded returns a page of one database state that contains every write bumped before it started, if no SETNX failed on an absent key |
| CacheProtocol.BoundedStaleness | internal/platform/redis/cache/incidents.go:66-88 | whatever fails: with a positive TTL the page was the database's at a moment no longer ago than the TTL plus that fill's own delay |
| CacheProtocol.QuietReadIsExact | internal/platform/redis/cache/incidents.go:61-88 | when every write so far was bumped before the List began, the healthy result is the uncached one |
| CacheProtocol.HealthyReadsAvoidVersionZero | internal/platform/redis/cache/incidents.go:114-128 | a List whose version read succeeded never looks under version 0 |
| CacheProtocol.InvStep | internal/platform/redis/cache/incidents.go:49-137 | soundness of entries and readers is kept by every step, freshness by every step but a SETNX that fails on an absent version key |
| CacheProtocol.PagesStep | internal/platform/redis/cache/incidents.go:81-85 | an entry stored under version v contains every write bumped to v or lower |
| CacheProtocol.ReadersStep | internal/platform/redis/cache/incidents.go:66-79 | the version a reader holds covers every write bumped before it started |
| CacheProtocol.StepExtends | internal/platform/redis/cache/incidents.go:130-137 | the version never falls, and a bump gets one above every version in use |
| CacheProtocol.HistoryIsFaithful | internal/platform/redis/cache/incidents.go:49-104 | the write numbers, bumped versions, writes seen and page origins the theorems speak of are those of the commits, INCRs, list starts and database reads |
| CacheRegularity.RegularReadsIff | internal/platform/redis/cache/incidents.go:114-128 | in any state whose entries and readers are fresh, with two readers and a writer: every healthy answer of every continuation contains all writes bumped before its List began, if and only if the version key is set |
| CacheRegularity.DangerousStepBreaksRegularity | internal/platform/redis/cache/incidents.go:117-120 | one way the other half happens: after a List with a valid filter has its SETNX fail on an absent key, with a writer and another reader idle, any write can be bumped and still missed by a healthy List that starts after it |
| CacheRegularity.DangerIsReachable | internal/platform/redis/cache/incidents.go:114-120 | one List on an empty cache reaches such a state |
| CacheSession.SessionIsTransparent | internal/platform/redis/cache/incidents.go:49-104 | for any session of non-overlapping lists, writes and failed writes with Redis working, the cached answers equal the uncached ones |
| CacheSession.CachedPagesPartition | internal/platform/redis/cache/incidents.go:61-88 | cached pages at offsets 0, L, 2L, ... laid end to end are exactly the active incidents, newest first, each once |
| CacheSession.ListIsTransparent | internal/platform/redis/cache/incidents.go:61-128 | on a coherent cache List answers as the database would and leaves it coherent, whichever other commands fail |
| CacheSession.AnswerMeaning | internal/platform/redis/cache/incidents.go:69-87 | an unexpired page is served whatever the database would say; otherwise the database answers and its page is stored for the time to live |
| CacheSession.VersionMeaning | internal/platform/redis/cache/incidents.go:114-128 | 0 after an error, the counter if there is one, else 1, and then the key is set to 1 unless SETNX fails |
| CacheSession.FilledPageIsServed | internal/platform/redis/cache/incidents.go:66-87 | after a List that stored its page, the same List within the time to live and with no write between returns it, even with the database down |
| CacheSession.IncrementedMeaning | internal/platform/redis/cache/incidents.go:130-137 | the counter rises by one, an absent one to 1; nothing changes on an error or at the largest 64-bit integer |
| CacheSession.WriteIsTransparent | internal/platform/redis/cache/incidents.go:130-137 | a bumped write leaves the cache coherent with the new table, whatever it wrote |
| CachedRepository.CachedRepository.List | internal/platform/redis/cache/incidents.go:61-88 | an unexpired page under the current version is served without the database; for every failure the answer, the version key and the stored page are given; and the call is a run of the protocol |
| CachedRepository.CachedRepository.Fetch | internal/platform/redis/cache/incidents.go:67-87 | an unexpired entry is served whatever the database would answer; else the database answers and the page is stored with the time to live |
| CachedRepository.CachedRepository.Reload | internal/platform/redis/cache/incidents.go:76-87 | a failed query stores nothing; otherwise the page read is returned and stored, unless SET fails |
| CachedRepository.CachedRepository.GetVersion | internal/platform/redis/cache/incidents.go:114-128 | 0 if Redis fails, 1 if the key is absent whatever becomes of SETNX, else the counter; a run of the protocol |
| CachedRepository.CachedRepository.BumpVersion | internal/platform/redis/cache/incidents.go:130-137 | the counter goes up by one unless INCR fails, which is ignored; with the write, a run of the protocol |
| CachedRepository.CachedRepository.Create | internal/platform/redis/cache/incidents.go:49-55 | the row is created as without a cache, and the version bumped exactly if it was |
| CachedRepository.CachedRepository.Update | internal/platform/redis/cache/incidents.go:90-96 | field by field as without a cache, and the version bumped exactly if the update succeeded |
| CachedRepository.CachedRepository.Deactivate | internal/platform/redis/cache/incidents.go:98-104 | the row is deactivated as without a cache, and the version bumped exactly if it was |

## Left out

- CacheSession.SessionIsTransparent: speaks of lists of active incidents only, since the others bypass the cache, and of counters that stay below the largest 64-bit integer.
- CacheRegularity.RegularReadsIff: supposes two readers and a writer, without whom a stale page has nobody to plant, miss or observe it.
- RelayProgress.StarvationFreedom: counts claims that returned rows and started from a free relay; empty polls and failed claim transactions change nothing and are not steps of the protocol.
- OneRelay.TerminalIsAbsorbing: pipeline commands sent before the row became terminal may still land afterwards.
- The endless loops of `Relay.Run` and `Worker.Run`: one pass is a method, and the protocols run any number of passes.
- Interleaving inside the imperative methods: they run one call at a time on a transaction no one else writes to; concurrency is in the protocols, and locks held by others are an input of the claim.
- A read of the stream that reaches Redis but whose answer is lost: a Deliver followed by a Crash in the consumer protocol, not a branch of `Poll`.
- A database write that is applied although it reports an error: Commit followed by LoseBump in the cache protocol, not a branch of the caching repository.
- The client library's own repetition of single commands.
- `updated_at`, `created_at` and `processing_until` of the outbox, and the 32-bit width of `attempts`.
- The location in the check and in the event payload, and PostGIS distance and geometry: what the nearby search selects is an input.
- Coordinates are reals; no rounding is modelled.
- JSON and jsonb: encoding then decoding is the identity, and a body that is not the event's JSON is a separate case.
- Field validation, error wrapping and mapping to error kinds, logging, HTTP handlers, configuration and health checks.
- `CountUniqueUsersSince` and the pass-through methods of the caching repository.
