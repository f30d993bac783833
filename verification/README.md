# A verified model of the URL shortener

This project models the backend of the URL shortener, and the one browser hook that parses its event stream, in
Dafny 4.11, and proves what the code is meant to guarantee. `dafny verify dfyconfig.toml` verifies everything.

## What is modelled

**The click-event pipeline.** A redirect appends an event to the outbox table. Publishers claim due rows, publish
them, wait for the broker's confirms and mark the rows. Workers consume, collect batches, insert idempotently, and
ack, requeue or dead-letter; an inspector logs and acks dead letters. `Outbox`, `Publisher`, `ClickStore`, `Worker`
and `DlqInspector` hold the code as classes proved against functions on values; `Pipeline` is a state machine over
these functions in which every await is a boundary between two steps, and crashes, lost replies, late commits and
retention purges are steps of their own. `PipelineInvariant`, `PipelineSafety` and `PipelineProgress` prove what
holds over every run: nothing is lost, effects are counted once, and a failure-free system drains from every
reachable state. `PipelineRetention` and `PipelineRetentionExact` find out exactly which retention purges are
harmless, `PipelineDuplicates` exactly when a row can still be delivered twice, and `PipelineLimits` how long things are
kept and how much a worker holds.

**Links.** `Urls` has the two tables and the repositories over them. `Ownership` interleaves guest creates and
claims. `UrlCache` and `UrlService` have cache-aside resolution and prove the cache invisible for completed
operations, and what a failed invalidation does; `Staleness` bounds how old an answer can be when operations
overlap, and `StalenessExact` says exactly when an invalidation is final. `Uninterrupted` ties the
interleaving models to the service: a request with nothing in between does what the service does. `Pagination`,
`Cursor` and `Like` have the owner's list: keyset pages, the opaque cursor, and search. `Base62` and `RandomCode`
make short codes.

**Live analytics.** `SseRegistry` is the server's registry of streams, including broadcasts that resume after an
await; `SseStream` is the wire format, its printer and the browser's incremental parser (a subset of sections 9.2.5
and 9.2.6 of the WHATWG HTML Living Standard). `Aggregates` relates the counts the dashboard shows. `RateLimiter` is
the fixed-window limiter.

## Assumptions

- A database transaction or statement is atomic. `SKIP LOCKED` is modelled by an arbitrary set of locked rows per
  claim. Sequences never reuse ids, and random UUIDs are fresh.
- The broker keeps confirmed persistent messages; a requeued or unsettled copy comes back flagged as redelivered.
  A channel that fails while messages are being settled is the worker's crash step.
- All outbox rows have the type `url.clicked`, the only bound routing key.
- Enrichment (user agent, country) is a function of the event. There is one clock, in milliseconds; a Redis key is
  gone from its deadline on, which may differ by one millisecond from when the server takes it to be.
- Ids reach clients as JavaScript numbers, so pagination assumes ids up to 2^53 - 1.
- A link's owner column changes at most once (module `Ownership` proves it); `SseRegistry` takes it as given.
- Redis commands, database replies, random bytes, serialised JSON, and which writes fail, are parameters of the
  operations and range over everything.

## Where the code differs from its own comments

- `apps/api/src/outbox/outbox-repository.ts:25-30` says instances never double-deliver. A publisher slower than the
  backoff has its rows claimed again and both copies are accepted (`PipelineDuplicates.SlowPublisherDeliversTwice`);
  `SecondCopyIff` says exactly when, `MarkedInTimeIsDeliveredOnce` what a caller can rely on, and
  `PipelineSafety.CopiesWithinAttempts` bounds the copies.
- `apps/api/src/outbox/outbox-repository.ts:81` says the backoff is capped at one hour. The exponent is clipped at
  11, so the cap is 2048 seconds (`Outbox.BackoffRange`).
- `apps/api/src/sse/connection-manager.ts:189-200` clears the maps at a shutdown but not the gauge, which stays high
  by the number of connections dropped (`SseRegistry.RegistryOverEveryRun`, `RunClears`).
- `apps/api/src/services/url.service.ts:185-189` calls a claim idempotent. It is for the links, but a create that
  slips in before the anchor is deleted makes the call fail after the links have moved
  (`Ownership.ClaimFailsAfterMoving`; exactly when, `Ownership.DeletionRefusedIff`).
- `apps/api/src/analytics/click-event-repository.ts:140-142` builds plain objects, so a column value `__proto__`
  would be dropped from a breakdown (`Aggregates.BreakdownAddsUp`). The service's own producers store parsed
  referrers and fixed categories, so only another producer on the queue could bring that value in.
- `apps/api/src/cache/url-cache.ts:22` says Redis can never break correctness. An invalidation that fails leaves a
  deactivated link redirecting (`UrlService.DeactivatedLinkRedirects`), and one that succeeds can be overtaken by a
  reader (`Staleness.InvalidationCanBeOvertaken`); `UrlService.FailedInvalidationHarmlessIff` and
  `StalenessExact.InvalidationSettlesIff` say exactly when neither happens. `StalenessIsBounded` bounds the age.

## Model

| member | source | states |
|---|---|---|
| Outbox.BackoffRange | apps/api/src/outbox/outbox-repository.ts:83 | The backoff never decreases with the attempt number and lies between 2 and 2048 seconds; the 3600-second bound is never what limits it. |
| Outbox.SelectIsFirstDue | apps/api/src/outbox/outbox-repository.ts:66-77 | A claim picks exactly the first `limit` rows, in id order, that are unpublished, due and not locked. |
| Outbox.ClaimSpacing | apps/api/src/outbox/outbox-repository.ts:64-92 | Over every run of appends, claims, marks and purges by any number of instances: successive claims of a row are at least the backoff apart, the attempt counter is the number of claims, and attempt k comes no sooner than 2^k - 2 seconds after the first (k up to 12, then 2048 more each). |
| Outbox.ElapsedClosedForm | apps/api/src/outbox/outbox-repository.ts:83 | Closed form of the earliest time of the k-th claim. |
| Outbox.OutboxRepository.AppendEvent | apps/api/src/outbox/outbox-repository.ts:35-55 | A known event id stores nothing and returns the row it has; a new one stores one row, unclaimed, unpublished and due at once, and moves the sequence on. |
| Outbox.OutboxRepository.ClaimBatch | apps/api/src/outbox/outbox-repository.ts:64-92 | The loop takes the oldest due, unpublished and unlocked rows up to the limit, writes each the next attempt number and a due time 2^min(attempt, 11) seconds ahead, returns it with its event, body and attempt, and touches no other row. |
| Outbox.OutboxRepository.MarkPublishedBatch | apps/api/src/outbox/outbox-repository.ts:102-108 | One statement sets published_at to the given time on exactly the given rows and no other column; an empty list does nothing. |
| Outbox.OutboxRepository.PurgePublished | apps/api/src/outbox/outbox-repository.ts:111-119 | The rows left are exactly those that are pending or were published after the cutoff, unchanged; the number returned is that of the rows published at or before it. |
| Outbox.BacklogIsClaimable | apps/api/src/outbox/outbox-repository.ts:121-127 | The count of pending rows is zero exactly when no claim, however late, however large and with nothing locked, would find a row. |
| Outbox.BacklogOverEveryRun | apps/api/src/outbox/outbox-repository.ts:121-127 | Over every run of appends, claims, marks and purges, the rows counted are those counted before and those appended since, less the marked ones; claims and purges take nothing from the backlog. |
| Publisher.Publisher.StartBatch | apps/api/src/workers/publisher.ts:65-87 | Without a channel it fails; otherwise it claims up to 100 rows and puts one message on the channel for each, in claim order, with that row's event id, body, row id and new attempt number under url.clicked; the k-th of them is what the broker takes after k others. |
| Publisher.NextMessage | apps/api/src/workers/publisher.ts:75-87 | What the broker takes next of a batch is the message of the first row not yet taken: its event id, body, row id and attempt number, under url.clicked. |
| Publisher.Publisher.FinishBatch | apps/api/src/workers/publisher.ts:89-99 | After the confirms published_at is set on exactly the rows of the batch, and each of them is counted. |
| Publisher.Publisher.Disconnect | apps/api/src/workers/publisher.ts:136-145 | An error anywhere drops the channel with whatever it still held. |
| ClickStore.InsertAllRefinesMap | apps/api/src/analytics/click-event-repository.ts:65-88 | One multi-row insert: old rows stay in place, each new row is one of the items, the ids present are those of the table and the items, and no id is there twice. |
| ClickStore.AsMapLookup | apps/api/src/analytics/click-event-repository.ts:32-37 | The table is a map keyed by event id, one entry for each row. |
| ClickStore.InsertKeepsMap | apps/api/src/analytics/click-event-repository.ts:84-84 | First write wins: an id already stored keeps its click. |
| ClickStore.PurgeKeepsYoungRows | apps/api/src/analytics/click-event-repository.ts:146-153 | The retention purge keeps exactly the rows younger than the cutoff, and uniqueness. |
| ClickStore.CountIsDistinctEvents | apps/api/src/analytics/click-event-repository.ts:156-162 | The count of a short code is the number of distinct events stored for it. |
| ClickStore.ClickEventRepository.RecordClick | apps/api/src/analytics/click-event-repository.ts:41-62 | Appends the click unless its id is stored; the answer is duplicate exactly when it was. |
| ClickStore.ClickEventRepository.RecordClickBatch | apps/api/src/analytics/click-event-repository.ts:65-88 | The loop equals the statement above: old rows stay, new ones are items with fresh ids, every id of the batch is stored once, and inserted plus duplicated is the batch size. |
| ClickStore.ClickEventRepository.PurgeClicksOlderThan | apps/api/src/analytics/click-event-repository.ts:146-153 | Exactly the clicks later than the cutoff are left; returns how many went. |
| Worker.AcksAppended | apps/api/src/workers/analytics-worker.ts:120-122 | Acking a flush settles each of its messages once. |
| Worker.VerdictsAppended | apps/api/src/workers/analytics-worker.ts:124-131 | A failed flush settles each of its messages once; the rejects are the redelivered ones. |
| Worker.ConsumeKeepsInvariant | apps/api/src/workers/analytics-worker.ts:135-174 | A delivery, valid or not, keeps: every delivery is in exactly one of batch, open flush, settled; the timer is armed for a non-empty batch; the counters agree. |
| Worker.SettlementOverEveryRun | apps/api/src/workers/analytics-worker.ts:84-175 | With any overlap of flushes, every delivery is in exactly one of the batch, one open flush, or the settled list, once; between handlers a non-empty batch has fewer than 50 entries and an armed timer; processed plus duplicated equals the acks and failed equals the rejects. |
| Worker.AnalyticsWorker.FlushBatch | apps/api/src/workers/analytics-worker.ts:84-99 | The flush up to its await: timer cleared, and a non-empty batch becomes a new flight as it is. |
| Worker.AnalyticsWorker.ResumeFlush | apps/api/src/workers/analytics-worker.ts:100-132 | The flush after its await: on success every message is acked in order, `inserted` counted as processed and the rest as duplicates; on failure first deliveries are requeued and redeliveries rejected, and only the latter are counted; other flushes and the batch are untouched. |
| Worker.AnalyticsWorker.HandleMessage | apps/api/src/workers/analytics-worker.ts:135-175 | The consume handler: poison is rejected and counted; a click is queued with its delivery, its parsed body and its message id as event id (the random id only if it has none), last in the batch, which at 50 entries becomes a flight and otherwise has its timer armed. |
| DlqInspector.AckedWasLogged | apps/api/src/workers/dlq-inspector.ts:54-74 | In any list of actions in which every ack directly follows the log entry of its letter, each cut keeps that property and has no more acks than log entries. |
| DlqInspector.Inspector.HandleMessage | apps/api/src/workers/dlq-inspector.ts:54-74 | Logs the message id, the redelivered flag and the first 500 characters of one dead letter, counts it and acks it; in the whole history every ack directly follows the log entry of its letter, and the counter is the number of both. |
| PipelineInvariant.AppendKeeps | apps/api/src/outbox/outbox-repository.ts:35-55 | Appending an event keeps the pipeline invariant. |
| PipelineInvariant.ClaimKeeps | apps/api/src/outbox/outbox-repository.ts:64-92 | So does a claim by any publisher, with its reply delivered or lost: attempt numbers are fresh, so publications never collide. |
| PipelineInvariant.TakeKeeps | apps/api/src/workers/publisher.ts:75-87 | So does the broker taking one message of a batch. |
| PipelineInvariant.MarkKeeps | apps/api/src/workers/publisher.ts:93-94 | So does marking, because every marked row had a copy taken by the broker. |
| PipelineInvariant.DeliverKeeps | apps/api/src/workers/analytics-worker.ts:135-175 | So does a delivery, poison or valid, with or without the flush it may trigger, whatever random id the worker would draw: the event it inserts is the message's. |
| PipelineInvariant.InsertKeeps | apps/api/src/workers/analytics-worker.ts:91-99 | So does an insert that commits, whether or not the worker learns of it. |
| PipelineInvariant.ResumeDoneKeeps | apps/api/src/workers/analytics-worker.ts:100-122 | So does the successful end of a flush: acked copies had their event inserted. |
| PipelineInvariant.ResumeThrewKeeps | apps/api/src/workers/analytics-worker.ts:123-132 | So does the failed end of a flush, requeueing or dead-lettering each copy. |
| PipelineInvariant.CrashKeeps | apps/api/src/workers/analytics-worker.ts:190-198 | So does a worker losing its channel, with inserts still under way. |
| PipelineInvariant.ObserveKeeps | apps/api/src/workers/dlq-inspector.ts:66-73 | So does the inspector, which logs before it acks. |
| PipelineInvariant.RunKeeps | apps/api/src/workers/publisher.ts:26-33 | The invariant holds after every interleaving of all steps. |
| PipelineSafety.NothingIsLost | apps/api/src/workers/publisher.ts:26-30 | In every reachable state each committed event is pending, or has a copy with the broker (queued, unacked or dead-lettered), or was logged by the inspector, or was inserted; and a row is marked or purged only after the broker took a copy. |
| PipelineSafety.CopiesWithinAttempts | apps/api/src/workers/publisher.ts:70-87 | The copies ever published for a row never exceed its attempt counter. |
| PipelineSafety.RequeuedOnce | apps/api/src/workers/analytics-worker.ts:124-131 | A broker copy is handed back to the queue by nack at most once. |
| PipelineSafety.TableRefinesEvents | apps/api/src/analytics/click-event-repository.ts:32-37 | Whatever duplicates, redeliveries, crashes and lost replies occur, the table has one row per event id at most, each with the click appended under that id, and a count never exceeds the distinct events appended. |
| PipelineSafety.CountIsProcessed | apps/api/src/analytics/click-event-repository.ts:156-162 | Until a retention purge, the count of a short code is the number of distinct events processed for it. |
| PipelineRetention.StepCarries | apps/api/src/workers/analytics-worker.ts:84-175 | An event that is pending nowhere, with no publisher and in no live copy, is never carried again. |
| PipelineRetention.InsertedAtMostOnceEver | apps/api/src/analytics/click-event-repository.ts:145-153 | Over a whole run, purges included, each event is inserted at most once when no purge deletes a click whose event is still carried. |
| PipelineRetention.PurgeUnderWayInsertsTwice | apps/api/src/analytics/click-event-repository.ts:145-153 | Without that hypothesis it fails: a concrete run inserts one event twice. |
| PipelineRetentionExact.CarriedReachesTable | apps/api/src/workers/analytics-worker.ts:154-155 | From every reachable state, whatever still carries an event that is not in the table can bring it there. |
| PipelineRetentionExact.PurgeIsHarmlessIff | apps/api/src/analytics/click-event-repository.ts:145-153 | The exact condition: in every reachable state whose earlier purges were harmless, no way on after a purge inserts an event twice if and only if the purge deletes no click whose event is still carried. |
| PipelineLimits.MarkedRowsStaySevenDays | apps/api/src/server.ts:77 | Over every run, a row that is marked published at some time is in the table for the seven days after it, whatever purges run. |
| PipelineLimits.ClicksStayNinetyDays | apps/api/src/server.ts:85 | Over every run, a stored click is in the table until ninety days after it happened, whatever purges run. |
| PipelineLimits.WorkersHoldAtMostFifty | apps/api/src/workers/analytics-worker.ts:74 | In every reachable state a worker holds at most fifty unsettled messages, however its flushes overlap. |
| PipelineLimits.CrashMeans | apps/api/src/workers/analytics-worker.ts:190-198 | A worker that loses its channel starts over; everything it held is back in the queue, flagged, nothing else moves, and exactly its inserts still under way may yet commit. |
| PipelineLimits.PurgesMean | apps/api/src/server.ts:70-95 | The purge steps are those of the repositories, with cutoffs at least seven and ninety days back. |
| PipelineDuplicates.SecondCopyIff | apps/api/src/outbox/outbox-repository.ts:25-30 | The exact condition for a duplicate: in every reachable state, a row has or can still get a second copy with the broker if and only if it has two, or is still unpublished, or lies on some publisher's channel; otherwise it keeps exactly one for good. |
| PipelineDuplicates.MarkedInTimeIsDeliveredOnce | apps/api/src/outbox/outbox-repository.ts:81-94 | If the batch a row was first claimed in is marked within the two seconds of its backoff, the row has exactly one copy with the broker, whatever happened in between and whatever happens afterwards. |
| PipelineDuplicates.SlowPublisherDeliversTwice | apps/api/src/outbox/outbox-repository.ts:25-30 | "Never double-deliver" is false: a concrete run of two publishers in which the broker accepts two copies of one row. |
| PipelineProgress.HealthyDecreases | apps/api/src/workers/publisher.ts:167-197 | Every step of a failure-free system that finds work decreases a lexicographic measure: any non-empty claim (also of rows a slow publisher still carries), any time passing while a row is not due, every publication, mark, delivery, flush, insert, settlement and inspection. |
| PipelineProgress.IdleKeepsMeasure | apps/api/src/workers/publisher.ts:167-197 | The other failure-free steps short of an append (an empty poll or flush, time passing while everything is due, both purges) leave the measure as it is. |
| PipelineProgress.HealthyRunDescends | apps/api/src/workers/publisher.ts:167-197 | Along every failure-free run without appends the measure shrinks if any step finds work and stays the same otherwise, so only finitely many steps can find work. |
| PipelineProgress.HealthyStepExists | apps/api/src/workers/publisher.ts:167-197 | Unless nothing is pending and the broker has no copy, some failure-free step that finds work is enabled. |
| PipelineProgress.HealthyDoomsNothing | apps/api/src/workers/analytics-worker.ts:123-132 | No failure-free step whatsoever sets a known event on its way to the dead letters. |
| PipelineProgress.HealthyRunInserts | apps/api/src/workers/analytics-worker.ts:84-133 | When a failure-free run comes to rest, whatever its timing, polls, purges and appends, every event appended before it that was not already doomed has been inserted. |
| PipelineProgress.ReachableStatesDrain | apps/api/src/outbox/outbox-repository.ts:64-92 | From every reachable state some finite healthy run brings the system to rest with all such events inserted. |
| Urls.FindFinds | apps/api/src/repositories/url.repository.ts:165-169 | A lookup finds the row with the code exactly when there is one. |
| Urls.CreateKeepsValid | apps/api/src/repositories/url.repository.ts:101-120 | Short codes stay unique whatever is created. |
| Urls.ClaimCodesAreUnclaimed | apps/api/src/repositories/url.repository.ts:320-327 | A claim returns the codes of exactly the rows it moves, each once. |
| Urls.UrlRepository.CreateUrl | apps/api/src/repositories/url.repository.ts:101-120 | Adds the active row with the columns given and the next id, or answers the conflict on the code, then on the alias, then the missing guest, with the rows unchanged; the id sequence moves on either way. |
| Urls.UrlRepository.FindCode | apps/api/src/repositories/url.repository.ts:165-169 | Answers the stored row with the code, or none exactly if there is none. |
| Urls.UrlRepository.UpdateUrl | apps/api/src/repositories/url.repository.ts:288-310 | Column by column: a target, expiry (also one cleared) or active flag given is what the user's row has afterwards, the others and its code, alias, owner and guest stay, and no other row changes; answers the stored row, or none if the user has none with the code. |
| Urls.UrlRepository.DeactivateUrl | apps/api/src/repositories/url.repository.ts:274-286 | The user's row with the code is inactive afterwards and otherwise as it was; no other row changes. |
| Urls.UrlRepository.ClaimGuestLinks | apps/api/src/repositories/url.repository.ts:320-327 | Exactly the guest's links without an owner become the user's and lose the guest, in no other column; their codes are returned, each once. |
| Urls.AuthRepository.MintGuest | apps/api/src/auth/auth.repository.ts:74-79 | Adds a guest that was not there. |
| Urls.AuthRepository.RemoveGuest | apps/api/src/auth/auth.repository.ts:87-89 | Deletes a guest, and answers an error and deletes nothing exactly if a link refers to it. |
| Ownership.OwnershipOverEveryRun | apps/api/src/services/url.service.ts:140-196 | Over every interleaving of two-step guest creates and two-step claims: no link has both a user and a guest, none created since the start has neither, no guest reference dangles, an owner never changes, and no code is handed out by two claims. |
| Ownership.OwnerComesFromClaim | apps/api/src/repositories/url.repository.ts:313-318 | A link without an owner gets one only from a claim of its own guest, which lists its code. |
| Ownership.RepeatedClaimIsEmpty | apps/api/src/services/url.service.ts:185-189 | Claiming again returns nothing, whatever happened in between, unless a link was inserted for the guest. |
| Ownership.RetiredAnchorIsEmptyForever | apps/api/src/services/url.service.ts:190-196 | Once its anchor is deleted, a guest never has anything to claim again, not even from creates that had already accepted the anchor. |
| Ownership.DeletionRefusedIff | apps/api/src/services/url.service.ts:185-196 | Whatever happens between a claim's two transactions, the foreign key refuses the deletion of the anchor if and only if a create committed a link of that guest in between which no other claim of the guest has moved since; the claimed links are the user's all the same. |
| Ownership.ClaimFailsAfterMoving | apps/api/src/services/url.service.ts:185-196 | "Idempotent" is not "never fails": a concrete run, from any state with the guest and a free code, in which the claim has moved the links and handed out their codes and its deletion then fails. |
| Uninterrupted.UninterruptedGuestCreate | apps/api/src/services/url.service.ts:140-183 | A guest create taken apart into its transactions does, when nothing comes in between, to the tables what the service's guest create does: check or replace the anchor, then try up to five codes, only a taken one being followed by the next. |
| Uninterrupted.UninterruptedCreate | apps/api/src/services/url.service.ts:80-134 | So does an account create, under an alias or with generated codes. |
| Uninterrupted.UninterruptedClaim | apps/api/src/services/url.service.ts:190-196 | So does a claim: the links move and their codes are recorded, then the anchor goes if nothing refers to it. |
| Uninterrupted.AtMostFiveInserts | apps/api/src/services/url.service.ts:157-158 | Every guest create makes at most five inserts, however it is interleaved with other requests. |
| UrlCache.Cache.Find | apps/api/src/cache/url-cache.ts:34-42 | A hit, with the stored entry, exactly while the key is live and Redis answers. |
| UrlCache.Cache.Store | apps/api/src/cache/url-cache.ts:44-51 | Positive entries live for the configured time, negative ones for 60 seconds; a failed write changes nothing. |
| UrlCache.Cache.Invalidate | apps/api/src/cache/url-cache.ts:53-59 | Removes the key, or nothing if Redis fails. |
| UrlService.ResolveFaithful | apps/api/src/services/url.service.ts:329-357 | A resolution answers like the database and stores only what will. |
| UrlService.CacheIsTransparent | apps/api/src/services/url.service.ts:302-311 | Over every sequence of completed operations whose invalidations take effect, every resolution answers exactly as without a cache, including the reason a link is gone for. |
| UrlService.FaithfulIsExact | apps/api/src/services/url.service.ts:302-311 | The exact condition for transparency: all runs whose invalidations take effect answer as without a cache if and only if every live entry answers like its row until it expires. |
| UrlService.FailedInvalidationHarmlessIff | apps/api/src/services/url.service.ts:205-213 | An update whose invalidation fails stays invisible on all later runs if and only if the code has no live key, or the old and the patched row answer alike until that key expires, which is decided at the present and at two expiry times. |
| UrlService.FailedDeactivationHarmlessIff | apps/api/src/services/url.service.ts:199-203 | For a deactivation: if and only if the code has no live key or the link was inactive already. |
| UrlService.FailedCreateHarmlessIff | apps/api/src/services/url.service.ts:90-101 | For a create under an alias: if and only if no earlier miss of the alias is still cached. |
| UrlService.DeactivatedLinkRedirects | apps/api/src/services/url.service.ts:199-203 | A concrete run from an empty system (create, resolve, deactivate with Redis down, resolve) that redirects a deactivated link. |
| UrlService.FailedInvalidationShows | apps/api/src/services/url.service.ts:199-203 | In every faithful world: if the invalidation of a deactivation fails, a live redirecting entry goes on redirecting. |
| UrlService.GeneratedOutcome | apps/api/src/services/url.service.ts:110-133 | The retry loop adds one row with the first free code and changes nothing else, or all codes were taken and no row is added. |
| UrlService.AccountOutcome | apps/api/src/services/url.service.ts:80-134 | An account's link belongs to the account; an alias becomes the code and is refused exactly if it is in use as a code or an alias. |
| UrlService.GuestOutcome | apps/api/src/services/url.service.ts:140-183 | A guest's link hangs on the anchor given if that is known, otherwise on a new one, which is then returned; an alias is refused. |
| UrlService.UpdateTakesEffect | apps/api/src/services/url.service.ts:205-213 | The first resolution after an invalidated update answers by the row as patched, whatever was cached: the new target if it is given, under the new or old expiry and active flag. |
| UrlService.UrlService.ResolveUrl | apps/api/src/services/url.service.ts:329-374 | A live key answers by its entry and is left alone; otherwise the stored row answers, inactive before expired before its target, or not found, and what is stored is the verdict for a minute or the row's columns for the configured time. |
| UrlService.UrlService.InsertWithGeneratedCode | apps/api/src/services/url.service.ts:110-133 | The retry loop: only a taken code is tried again, at most five times; the new code is invalidated. |
| UrlService.UrlService.CreateShort | apps/api/src/services/url.service.ts:80-134 | Account create: with an alias every conflict is reported on the alias, otherwise the retry loop. |
| UrlService.UrlService.CreateGuestShort | apps/api/src/services/url.service.ts:140-183 | Guest create: no aliases; an unknown or absent anchor is replaced and the replacement returned. |
| UrlService.UrlService.UpdateLink | apps/api/src/services/url.service.ts:205-213 | The patch is applied to the user's row column by column, and the key is removed exactly when a row was written and Redis answers. |
| UrlService.UrlService.DeactivateLink | apps/api/src/services/url.service.ts:199-203 | The user's row is inactive afterwards, and the key is removed exactly when a row was written and Redis answers. |
| UrlService.UrlService.ClaimGuest | apps/api/src/services/url.service.ts:190-196 | The guest's unowned links are the user's afterwards; the call answers their codes, or fails exactly if a link still refers to the guest. |
| Staleness.StalenessIsBounded | apps/api/src/services/url.service.ts:329-374 | Over every interleaving of lookups, reads, stores, writes and invalidations, every answer is the verdict, when given, of a row version current no earlier than TTL plus the read-to-store and hit-to-answer delays before; the TTL is the configured one for redirects, 60 s for missing and deactivated links, and none for uncached answers. |
| Staleness.InvalidationCanBeOvertaken | apps/api/src/cache/url-cache.ts:53-59 | "Never stale after an invalidation" is false: a run in which a reader stores a row it read before a write and its successful invalidation. |
| StalenessExact.InvalidationSettlesIff | apps/api/src/cache/url-cache.ts:53-59 | "Never stale after an invalidation", exactly: in every reachable state just after an invalidation, every answer until the next write is the current row's at the time if and only if no reader then under way holds a row or an entry that answers differently, now or at an expiry, within the time its delays and the lifetime of what it stores still allow. Looking at these moments is enough (`UrlCache.DifferIsSeen`). |
| StalenessExact.AnswersStayCurrentIff | apps/api/src/services/url.service.ts:329-374 | The same in every reachable state, where a live entry counts too. |
| Uninterrupted.UninterruptedHit | apps/api/src/services/url.service.ts:329-340 | A resolution taken apart into its commands does, when nothing comes in between, what the service's resolution does: with a live key and Redis up it answers by the entry and changes nothing. |
| Uninterrupted.UninterruptedMiss | apps/api/src/services/url.service.ts:340-357 | Otherwise it reads the row, answers by it and stores the same entry for the same time, or nothing if Redis is down. |
| Uninterrupted.UninterruptedUpdate | apps/api/src/services/url.service.ts:205-213 | The write and the invalidation of an update are those of the service. |
| SseStream.SplitResumes | apps/web/src/features/analytics/hooks/use-analytics-stream.ts:70-72 | Splitting at blank lines can be stopped at any character and resumed with the unfinished rest. |
| SseStream.ChunkingDoesNotMatter | apps/web/src/features/analytics/hooks/use-analytics-stream.ts:65-89 | However the stream is cut into chunks, the client does what it would do on the whole stream at once. |
| SseStream.NameOnFirstEventLine | apps/web/src/features/analytics/hooks/use-analytics-stream.ts:74-75 | The event name is what follows `event:` on the first line that begins so, trimmed; a frame without such a line has none. |
| SseStream.TrimDropsBlanks | apps/web/src/features/analytics/hooks/use-analytics-stream.ts:75 | Trimming takes the blanks off both ends and nothing else. |
| SseStream.FrameEventOfFrame | apps/web/src/features/analytics/hooks/use-analytics-stream.ts:74-75 | The parser reads back the event name the printer wrote, and no event in a ping. |
| SseStream.SplitOfPrint | apps/api/src/sse/connection-manager.ts:177-178 | What the server prints splits into exactly its frames. |
| SseStream.FrameLines | apps/api/src/sse/connection-manager.ts:177-178 | A frame has an event line with the name and a data line with the payload, in this order; a ping is one comment line. |
| SseStream.ClientReadsWhatServerSent | apps/web/src/features/analytics/hooks/use-analytics-stream.ts:63-89 | In any chunks, the client dispatches exactly the event names sent, in order, pings ignored, up to the first shutdown. |
| SseStream.ClientReadsWhatArrived | apps/web/src/features/analytics/hooks/use-analytics-stream.ts:63-89 | At any point of a stream, in any chunks, the client has dispatched exactly the events whose frames have arrived completely. |
| SseStream.ClientViewOfStream | apps/web/src/features/analytics/hooks/use-analytics-stream.ts:73-88 | The client dispatches every event up to the first shutdown, refreshes once per update, is connected after a greeting, and after a shutdown schedules one reconnect and reads no further. |
| SseStream.DelaysDouble | apps/web/src/features/analytics/hooks/use-analytics-stream.ts:27-34 | The delays of successive failures double up to 30 seconds. |
| SseStream.AnalyticsStream.OnChunk | apps/web/src/features/analytics/hooks/use-analytics-stream.ts:68-88 | One turn of the read loop, with the early return at a shutdown. |
| SseStream.AnalyticsStream.Reconnect | apps/web/src/features/analytics/hooks/use-analytics-stream.ts:27-34 | Schedules the next attempt and doubles the delay, unless cancelled. |
| SseStream.AnalyticsStream.OnEnd | apps/web/src/features/analytics/hooks/use-analytics-stream.ts:90-99 | The end of the stream or an error sets the status and schedules a reconnect unless cancelled. |
| SseRegistry.UnlinkKeeps | apps/api/src/sse/connection-manager.ts:120-141 | Removal keeps the two maps inverse and drops an emptied Set. |
| SseRegistry.LinkKeeps | apps/api/src/sse/connection-manager.ts:95-105 | Registration keeps the two maps inverse. |
| SseRegistry.SendUpToWrites | apps/api/src/sse/connection-manager.ts:158-160 | Deleting from a Set while iterating over it still reaches each other live connection once. |
| SseRegistry.RegistryOverEveryRun | apps/api/src/sse/connection-manager.ts:88-200 | After every run: a channel is subscribed exactly while it has a connection, its Set holds exactly its connections, all of them belong to the owner of the link, the limit holds, and the gauge is the map size plus what shutdowns dropped. |
| SseRegistry.BroadcastReaches | apps/api/src/sse/connection-manager.ts:147-167 | A resumed broadcast writes to live connections of its own code only: to all of them if its Set is still subscribed, to nobody if the Set was emptied meanwhile. |
| SseRegistry.ShutdownReaches | apps/api/src/sse/connection-manager.ts:189-200 | A shutdown is written to every connection that can be written, empties both maps and leaves the gauge. |
| SseRegistry.RunClears | apps/api/src/sse/sse-metrics.ts:10-20 | The connections dropped without counting the gauge down are exactly those that shutdowns met; no other step drops any that way. |
| SseRegistry.ClientOfLiveConnection | apps/api/src/sse/connection-manager.ts:173-183 | End to end: a client reading a live connection in any chunks has dispatched every event sent on it, and after a shutdown that too. |
| SseRegistry.ClientPartway | apps/api/src/sse/connection-manager.ts:173-183 | The same at any moment: a client that has read any part of what was written to it has dispatched exactly the events of the complete messages in that part. |
| SseRegistry.SseConnectionManager.AddConnection | apps/api/src/sse/connection-manager.ts:88-114 | At the limit it changes nothing and answers no id; otherwise the connection has the next id, is counted and has been sent the greeting with its payload, or is gone again if that could not be written. |
| SseRegistry.SseConnectionManager.RemoveConnection | apps/api/src/sse/connection-manager.ts:120-141 | The connection is gone and counted down, all others stay as they are; an unknown id does nothing. |
| SseRegistry.SseConnectionManager.HandleClick | apps/api/src/sse/connection-manager.ts:147-156 | Suspends a broadcast for the code exactly if somebody is connected to it. |
| SseRegistry.SseConnectionManager.ResumeClick | apps/api/src/sse/connection-manager.ts:157-166 | The statistics are written, once, to exactly the live connections of the code whose Set is still subscribed, and those that fail are removed under the iteration; without statistics nothing happens. |
| SseRegistry.SseConnectionManager.Ping | apps/api/src/sse/connection-manager.ts:66-74 | Every connection gets one ping, except those that cannot be written, which are removed; pings are not counted. |
| SseRegistry.SseConnectionManager.BroadcastShutdown | apps/api/src/sse/connection-manager.ts:189-200 | Every connection that can be written gets the shutdown event; both maps are emptied and the gauge left. |
| Like.EscapedPrefix | apps/api/src/repositories/url.repository.ts:33-35 | An escaped term followed by % matches exactly the strings that start with the term. |
| Like.SearchFindsSubstrings | apps/api/src/repositories/url.repository.ts:212-219 | The search pattern matches a value exactly when the term occurs in it up to case, for every term and value. |
| Like.UnescapedIsLiteralIff | apps/api/src/repositories/url.repository.ts:32-35 | Without escaping, a term searches for itself in every value if and only if it contains none of the three characters LIKE interprets. |
| Cursor.BytesOfSextets | apps/api/src/validators/url.validator.ts:63-65 | base64url decoding undoes encoding on all byte strings. |
| Cursor.SextetsOfGroup | apps/api/src/validators/url.validator.ts:63-65 | The encoding is that of section 5 of RFC 4648: the sextets of every group of three bytes are its 24 bits, most significant first, and a shorter group at the end is padded with zero bits. |
| Cursor.PrintSpells | apps/api/src/validators/url.validator.ts:63-65 | Each sextet is printed as its character of the URL-safe alphabet of that section. |
| Cursor.DecodeOfEncode | apps/api/src/validators/url.validator.ts:63-78 | A cursor decodes to its id exactly when the id is a positive safe integer, otherwise it is refused. |
| Cursor.CursorLength | apps/api/src/validators/url.validator.ts:63-65 | The cursor of a safe integer has at most 27 of the 200 characters the query accepts. |
| Cursor.CursorsAreDistinct | apps/api/src/validators/url.validator.ts:63-65 | Different ids have different cursors. |
| Cursor.AcceptedCursors | apps/api/src/validators/url.validator.ts:67-78 | Exactly the cursors spelling url: and the digits of a positive safe integer are accepted. |
| Pagination.SearchIsLiteral | apps/api/src/repositories/url.repository.ts:212-220 | A search finds exactly the rows whose code, target or alias contains the term literally; no term or an empty one filters nothing. |
| Pagination.SelectIsNewest | apps/api/src/repositories/url.repository.ts:253-256 | A page query returns exactly the newest matching rows below the cursor, in strictly descending order. |
| Pagination.PageSplits | apps/api/src/repositories/url.repository.ts:258-270 | A page is a full prefix of what is left, its cursor decodes to its last id, and no cursor means nothing is left. |
| Pagination.FollowingTheCursor | apps/api/src/repositories/url.repository.ts:198-201 | On a fixed table, following the cursor ends and yields the user's own links that contain the term, and no others, each once, in strictly descending order. |
| Pagination.WalkNeverRepeats | apps/api/src/repositories/url.repository.ts:209-271 | Whatever happens to the table between pages, no row is listed twice and the order is strict. |
| Pagination.WalkMissesNothing | apps/api/src/repositories/url.repository.ts:209-271 | A finished walk lists every link that was the user's and contained the term in every snapshot. |
| Pagination.WalkListsOnlyOwn | apps/api/src/repositories/url.repository.ts:209-271 | Whatever happens to the table, a walk lists only links that were the user's and contained the term in some snapshot. |
| Pagination.WalkIsBounded | apps/api/src/repositories/url.repository.ts:209-271 | A walk over a table that changes in any way has at most one page more than its first start divided by the limit. |
| Pagination.WalkEnds | apps/api/src/repositories/url.repository.ts:209-271 | So a walk that is carried on for long enough finishes. |
| Pagination.List | apps/api/src/repositories/url.repository.ts:209-271 | A page holds only links of the user below the cursor that contain the term, newest first; a wanted link that is left out is older than all of them and the page is full; there is a next cursor, of the last id, exactly when a wanted link is left out. |
| RateLimiter.Limiter.IncrWithTtl | apps/api/src/ratelimit/rate-limiter.ts:13-21 | The script: a live key counts one more and keeps its expiry, any other starts at one with the window ahead; it answers the count and the seconds left, to the nearest. |
| RateLimiter.Limiter.Handle | apps/api/src/ratelimit/rate-limiter.ts:56-85 | Lets through exactly up to the maximum, with the number remaining, rejects beyond it with the seconds left, and lets through when Redis fails. |
| RateLimiter.DeadlineNeverMoves | apps/api/src/ratelimit/rate-limiter.ts:13-21 | A live key always has the deadline its first request set; no later request moves it. |
| RateLimiter.TwoRequests | apps/api/src/ratelimit/rate-limiter.ts:43-46 | Windows are disjoint: two requests share a window and have different counts, or the later window starts after the earlier deadline. |
| RateLimiter.PerWindow | apps/api/src/ratelimit/rate-limiter.ts:75-84 | At most maxRequests are let through per window. |
| RateLimiter.LimiterBound | apps/api/src/ratelimit/rate-limiter.ts:51-86 | At most 2 * maxRequests - 1 are let through in any half-open interval as long as a window. |
| RateLimiter.LimiterBoundIsReached | apps/api/src/ratelimit/rate-limiter.ts:51-86 | That bound is reached. |
| Base62.DecodeOfEncode | apps/api/src/utils/base62.ts:13-27 | Decoding an encoded number gives it back, and the encoding has no superfluous leading zero. |
| Base62.RoundTripIffCanonical | apps/api/src/utils/base62.ts:61-79 | Encoding a decoded string gives it back exactly when it has no superfluous leading zero. |
| Base62.EncodeLength | apps/api/src/utils/base62.ts:8-12 | The code of n has the least k >= 1 characters with n < 62^k. |
| Base62.ValueIsPositional | apps/api/src/utils/base62.ts:61-79 | The value of a string is positional: what stands to the left counts 62 times as much for every digit to its right. |
| Base62.EncodeBase62 | apps/api/src/utils/base62.ts:13-27 | The loop computes the encoding of every safe integer and refuses everything else. |
| Base62.DecodeBase62 | apps/api/src/utils/base62.ts:61-79 | Succeeds exactly on non-empty alphabet strings worth at most 2^53 - 1; the prefix-by-prefix overflow test rejects nothing else. |
| Base62.FloorOfQuotientIsExact | apps/api/src/utils/base62.ts:24 | The floor of the rounded double quotient by 62 is exact integer division for every safe integer. |
| Base62.DecodeStepIsExact | apps/api/src/utils/base62.ts:71-72 | The safe-integer test on the rounded product and sum accepts exactly when the exact value is safe. |
| RandomCode.GenerateRandomCode | apps/api/src/utils/base62.ts:40-59 | The code is the first accepted bytes of the stream mod 62, however the stream is cut into buffers. |
| RandomCode.EveryCodeEquallyLikely | apps/api/src/utils/base62.ts:35-39 | Every code of length n comes from exactly 4^n of the accepted byte blocks of length n. |
| Aggregates.GroupsAddUp | apps/api/src/analytics/click-event-repository.ts:123-143 | Whatever order a GROUP BY answers in, its counts add up to the rows grouped. |
| Aggregates.BuildRecord | apps/api/src/analytics/click-event-repository.ts:140-142 | The loop that turns groups into an object. |
| Aggregates.BreakdownAddsUp | apps/api/src/analytics/click-event-repository.ts:140-142 | A breakdown object adds up to the rows grouped exactly when no row has the key __proto__; otherwise it is short by those rows. |
| Aggregates.BreakdownCounts | apps/api/src/analytics/click-event-repository.ts:140-142 | It holds the right count for every other key. |
| Aggregates.StatsAgree | apps/api/src/analytics/click-event-repository.ts:95-121 | On one table state the day buckets add up to the link's click count, and each breakdown does under the condition above. |
| Aggregates.GetStats | apps/api/src/analytics/click-event-repository.ts:95-121 | When the six queries see one table state: one bucket per day with clicks, with its number, adding up to the total, which is the click count; countries, devices, browsers and referrers each count that column, with "direct" for a missing referrer and "unknown" for the others, save the dropped key. |
| Aggregates.ListCountIsClickCount | apps/api/src/repositories/url.repository.ts:246-254 | The LEFT JOIN count of the list is the click count, zero for a link nobody clicked. |
| Aggregates.UserTotalIsSumOverLinks | apps/api/src/analytics/click-event-repository.ts:165-174 | The user's total is the sum of the click counts of the user's links. |
| Aggregates.UserTotalCountsOwnedClicks | apps/api/src/analytics/click-event-repository.ts:165-174 | As short codes are unique, it counts each click whose link the user owns once. |
| Aggregates.UserStatsAgree | apps/api/src/analytics/click-event-repository.ts:176-209 | Every user-level breakdown adds up to that total, under the same condition on keys. |
| Aggregates.SinceIsPart | apps/api/src/analytics/click-event-repository.ts:165-174 | A count since some time is over exactly the clicks at or after it, and never exceeds the total. |

## Left out

- HTTP routing, validation schemas, CORS, OpenAPI, logging, metrics rendering, readiness probes, configuration and
  deployment: input and output around the logic above.
- React components, query caching and the offline banner; of the stream hook, the fetch itself, its headers and the
  UTF-8 decoder. The stream is modelled as characters.
- Password hashing, sessions, user-agent parsing, GeoIP, URL parsing and anonymisation: functions of one input.
- Database, Redis and AMQP drivers, and the error-chain walkers that recognise a unique violation.
- The deprecated `createWithGeneratedCode`, which nothing calls.
- The top-value subqueries of the list (`apps/api/src/repositories/url.repository.ts:222-232`): ties make their
  answer depend on the database.
- The `updated_at` and `created_at` columns, and the length constraint on targets, which validation enforces first.
- Aggregates.GetStats: what its answer means is stated for queries that see one table state; the six queries of the
  code are not one snapshot, so writes in between can make them disagree.
- UrlService.CacheIsTransparent: is stated for completed operations one after another; for overlapping ones the
  bound of `Staleness` and the exact condition of `StalenessExact` are what holds.
- UrlService.UrlService.CreateGuestShort: the create and its anchor test run in one piece here; module `Ownership`
  takes them apart.
- RandomCode.GenerateRandomCode: takes the random buffers as input and fails when they run out, where the code draws
  further ones; that enough bytes are accepted with probability one is not stated.
- Cursor.AcceptedCursors: models the decoder as skipping every character outside both base64 alphabets; other
  leniencies of the platform's decoder on malformed input are not modelled.
- SseRegistry.SseConnectionManager.AddConnection: connection ids are the counter only, without the timestamp the
  code appends to it.
- Base62.FloorOfQuotientIsExact: rounding is modelled as some value within half a spacing of the quotient, exact on
  safe integers, rather than as IEEE 754 bits.
- The pause lengths of the publisher's retry loop: a publisher may take its next step at any time.
