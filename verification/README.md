# OmniSync: a verified model

OmniSync ingests work events from GitHub, Telegram, Jira, mail and object stores into one
database, and hands them on through a transactional outbox. What makes it hard is that several
tables and several processes must agree over whole runs: the versioned event store, the change
feed that consumers poll, the publisher that fills a vector index, the dead-letter queue, and the
connectors with their cursors. This project models those parts in Dafny and proves what they keep.

| files | part of the system |
|---|---|
| `Schema`, `Events`, `History`, `Audit`, `Interleaving` | `upsert_events_bulk`: events, versions and outbox rows in one transaction |
| `Keyset`, `ChangeFeed`, `Listing` | cursor pagination over a growing table; the replica a consumer builds |
| `Handover` | what upserts hand on to consumers and to the publisher, in terms of what was submitted |
| `Publisher`, `PublisherBound`, `TiedQueue`, `DistinctRivals`, `Workers`, `DeliveryLog` | the outbox publisher, how long a row can wait, many workers with crashes, what a row says of its deliveries |
| `Replaying`, `Redelivery`, `Indexing` | the vector index against the published rows and the histories |
| `Backoff`, `DeadLetters`, `DeadLetterRuns`, `DeadLetterSends`, `DeadLetterWait`, `DeadLetterLog` | the dead-letter queue |
| `Webhook` | GitHub deliveries |
| `FileSync`, `SyncRefinement`, `MissedObjects`, `SameHistories` | the incremental file sync and its cursor |
| `Telegram`, `TelegramStream`, `TelegramRuns` | the Telegram poll and its offset |
| `RawPayloads`, `StorageUrls`, `PayloadTrail` | raw payload storage, and the way back from an event to its source |
| `Jira` | the paging loop of the issue search |
| `Base64`, `TextFields`, `IsoTime`, `Pagination`, `CursorFormat`, `Digits` | the cursor codec |
| `Basics`, `Sequences`, `Arithmetic` | shared types and facts |

Code that changes tables or loops is a class or a method, proved against a function of the old
state; the lemmas then prove things about that function over all runs. What the columns of rows, points, payloads
and texts hold is said once more apart from those functions, in the columns themselves and in terms of
what came in (`Handover`, `DeliveryLog`, `DeadLetterLog`, `PayloadTrail`, `CursorFormat`). A transaction that is
rolled back restores the copies its method took at the start. Events, versions and deliveries are
maps and sets because their tables have unique keys; the outbox and the dead letters are sequences
in the order of insertion.

What a statement takes from outside is a parameter: UUIDs, creation times, clock readings, what a
remote service answers, and whether a call fails. Assumptions, always written as preconditions:

- Transactions are serial, except in `Workers` (the publisher) and `Interleaving` (two upserts).
- UUIDs are fresh. The clock is monotone: outbox rows of a later transaction have strictly later
  created_at than all committed ones. The feed needs less of it, only that new rows come later in
  (created_at, id) order; `GrowthKeepsPrefixIff` and `FeedWalkIff` say what happens without it.
- The batch sizes and attempt limits are at least 1 and constant over a run; for the wait of a dead
  letter the delays are positive, too.

Rollback is part of the model: a transaction may fail after its effects outside the database, and then
index points, broker tasks and stored objects stay. Only the bounds on how long an outbox row waits
count the runs that commit; a run that is rolled back leaves the rows as they were.

## Where the code does less than one might expect

- `fetch_pending` orders by creation time only (src/outbox/service.py:36-45), so rows of equal age
  come in any order and the bound `MAX * (p / B + 1)` for the row with `p` others before it is not
  a property of the code. It holds for a row whose pending predecessors have distinct ages
  (`FifoBound`); for `p` untried rows of one age `TiedFifoIff` says when it holds. What holds in any
  table is that a row is passed over only for full batches of distinct rivals
  (`SettledUnlessDelayable`), and among rows of one age, whatever their attempts, that is exact
  (`SettledByIff`).
- A failed outbox row can be retried after a newer row of its event was published, and then puts the
  older content back in the index (`RetryRestoresOldContent`). A run that is rolled back after some
  deliveries leaves their points in the index although its rows are not published
  (`CrashLeavesPoint`). The index equals the replay of the published rows exactly as long as every
  delivery is harmless (`IndexReplaysIff`): in a run that commits, a failure is harmless unless it was
  applied, and a success unless its row was overtaken; in a run that is rolled back, only what was not
  applied is; and anything is harmless that the index shows already. What rolled-back runs leave is
  gone after the next run in which everything is applied, if no two pending rows are of one age
  (`RedeliveryRepairs`). Runs without failures are the simplest case (`IndexRefinesFeedThroughout`);
  `IndexSound` is what holds in every run.
- Two upserts for one event that both read before either writes leave the history exact if and only
  if they submit the same content or the first changes nothing (`InterleavedIff`; failing inputs in
  `InterleavingLoses`), which is why the history theorem is about serial calls.
- docs/data-lineage.md shows a retrying dead letter leaving the queue when its retry succeeds. In
  the code an entry is resolved exactly when it is itself replayed by hand and that commits
  (`OnlyReplayResolves`); `DispatchedNotResolved` is an entry that was dispatched and is still there.
  Left alone and due, it is dispatched again in its turn (`DispatchedInTurn`) until its attempts are
  spent. A dispatch that the broker refuses, and a scan that is rolled back, leave the entries where
  they were in the line, so the turn of the others is counted in committed scans where the broker
  takes everything.
- The attempt limit counts committed dispatches. A scan that is rolled back has sent its tasks and
  counts nothing, so more tasks than that can be sent (`LostScanSendsAgain`); `SendsPerEntry` and
  `SendsWithinBudget` say how many more.
- README.md of the repository says each change emits an outbox row. The code writes one for every
  upserted event, changed or not (`ResubmitChangesNoHistory`).
- Incremental file sync can miss an object whose last-modified time lies at or behind the stored
  cursor (`LateObjectIsMissed`). `IncrementalRefinesFullIff` says exactly when it does not matter.
- The storage URL is taken apart by text replacement; `LocateIff` says for which buckets and keys
  that finds the object again, and `LostUrls` names two for which it does not.
- The Jira search stops at the total a page reports and at an empty page, so a missing or low total,
  or an empty page before the end, cuts it short (`CutShort`); `CollectsAllIff` says exactly when.
- The Telegram client drops updates that fail validation, and the offset then acknowledges them, so
  they are never ingested (`MalformedIsLost`). What is ingested exactly once are the sound updates
  (`IngestedIsAcknowledged`). A message id that comes again with another text makes a new version or,
  within one batch, is dropped; `AcknowledgedIsStored` says when every post is stored as it came.

## Model

| member | source | states |
|---|---|---|
| Events.FirstOccurrences | src/events/service.py:58-67 | deduplication keeps every natural key once |
| Events.FirstOccurrenceIsFirst | src/events/service.py:58-67 | the event kept for a key is the first one submitted |
| Events.BulkRefinesSingle | src/events/service.py:58-187 | reading all rows first and writing them all later leaves the same events, histories and outbox as upserting the events one at a time |
| Events.EventStore.UpsertEventsBulk | src/events/service.py:47-195 | the call equals one-by-one upserts of the first occurrences, and returns the current row of each, in that order |
| Events.EventStore.UpsertEvent | src/events/service.py:36-44 | a single upsert is one such step, and returns the event's row |
| Events.EventStore.Deduplicate | src/events/service.py:58-67 | the loop computes the first occurrences |
| Events.EventStore.PrepareRows | src/events/service.py:76-126 | target versions come from the rows before the call, and versions about to be overwritten are kept |
| Events.EventStore.InsertOnConflict | src/events/service.py:128-144 | existing rows keep id and creation time, all other columns are replaced, other keys are untouched |
| Events.EventStore.SnapshotCurrent | src/events/service.py:157-181 | the version each event now has is kept, unless it already was |
| Events.EventStore.EnqueueAll | src/events/service.py:183-187 | one outbox row per event, in order, after the existing ones |
| Events.EventStore.EnqueueEvent | src/outbox/service.py:13-33 | appends a pending, untried row with the event's id, source, external id, type, content, version and schema version |
| Events.OldVersionKept | src/events/service.py:76-105 | from any store: a change of content leaves the version before it readable under its own number, with the content it had unless that was kept already, and the event takes the next number |
| Handover.OutboxTellsSubmissions | src/outbox/service.py:13-33 | after any upserts the outbox has one row per submission, in order, with the columns submitted, the id of the event's first submission and the version reached, pending and untried |
| Handover.UpsertsEnqueue | src/outbox/models.py:18-30 | upserts append a pending, untried row without error for each item |
| Handover.UpsertsFeedPublisher | src/events/service.py:183-187 | under a monotone clock those are rows that the publisher and its workers take for enqueued |
| History.HistoryTheorem | src/events/service.py:58-187 | from an empty store, after any run: an event exists exactly when its key was submitted, its versions are exactly 1..version with the submitted contents less consecutive repeats, and the outbox has one row per submission with the version reached |
| History.ConsistentStep | src/events/service.py:47-195 | one upsert keeps all of that, for the key it names and for every other key |
| History.FeedCoversHistory | src/events/service.py:81-105 | an event's outbox versions start at 1 and grow by 0 or 1; with repeats dropped they are its history |
| History.ResubmitChangesNoHistory | src/events/service.py:157-187 | resubmitting a batch, from any store, adds outbox rows but changes no version, no history and no column but the update time |
| Audit.RowShowsLast | src/events/service.py:107-144 | after any run an event shows, in every column, what was last submitted for its key, under the id and creation time of its first submission |
| Audit.VersionsAttributed | src/events/service.py:157-181 | after any run, version `v` of an event has the content, schema version, raw payload and author of the call that brought that content |
| Sequences.DestutterHasNoRepeats | src/events/service.py:81-83 | the contents kept have no two equal neighbours |
| Interleaving.InterleavedIff | src/events/service.py:76-144 | two calls for an event that both read before either writes leave the store as two calls in a row would, and its versions exactly the contents submitted, if and only if the contents agree or the first is the one already there |
| Interleaving.ApartIsSerial | src/events/service.py:76-187 | interleaved calls for different events leave the store as calls in a row |
| Interleaving.InterleavingLoses | src/events/service.py:81-83 | three failing interleavings: two first submissions, two changes, and a change with a resubmission of the old content |
| Interleaving.SerialHalves | src/events/service.py:76-187 | the two halves run without interruption are an ordinary upsert |
| Keyset.OrderByAscends | src/outbox/service.py:58 | when positions differ, ORDER BY sorts strictly by the time, then by the id |
| Keyset.OrderByContents | src/outbox/service.py:58 | ORDER BY loses and repeats no row |
| Keyset.ReadPageIsNextSlice | src/agent/router.py:67-71 | after `n` rows, a page is the next slice of the ordered table, and more is reported exactly when rows remain |
| Keyset.GrowthKeepsPrefixIff | src/outbox/service.py:58-66 | what a reader has seen stays a prefix exactly when every inserted row lies past its cursor |
| ChangeFeed.PollExtendsPrefix | src/agent/router.py:67-76 | a poll extends what was read by the next slice; the cursor then points at its end, and an empty page keeps it |
| ChangeFeed.PageInTimeOrder | src/outbox/service.py:58-68 | from any cursor, a page ascends by created_at, then id, and lies past the cursor; the next cursor is that of its last row |
| ChangeFeed.UnreadIsLater | src/agent/router.py:67-71 | every row past the cursor that a page leaves out is later than its last row in the same terms, and more is reported |
| ChangeFeed.ClockedWalk | src/outbox/service.py:58-68 | under a monotone clock every reader has read a beginning of the feed after every poll, by created_at, then id |
| ChangeFeed.LaterByClock | src/outbox/models.py:28-30 | the positions that the feed theorems ask for follow from a monotone clock and distinct ids |
| ChangeFeed.StreamRound | src/agent/router.py:91-105 | the streaming loop sends the rows a poll would return and ends at the same position |
| ChangeFeed.FeedWalkIff | src/agent/router.py:67-76 | for any limits and any growth, every poll leaves exactly a prefix of the ordered feed if and only if no row is added at or behind the cursor |
| ChangeFeed.OfOrderBy | src/outbox/service.py:58-68 | sorting the feed keeps the order of each event's rows |
| ChangeFeed.ReplicaReplaysPrefix | src/agent/router.py:67-76 | in every interleaving of upserts, publisher runs and polls, the replica is the replay of the feed up to the cursor, and store and feed stay consistent |
| ChangeFeed.DrainedReplicaConverges | src/agent/router.py:67-76 | once a poll reports nothing more, the replica equals the events table on source, external id, type, content, version and schema version |
| ChangeFeed.FullReplayMirrors | src/events/service.py:183-187 | replaying the whole feed gives exactly the current events |
| Handover.DrainedReplicaTells | src/agent/router.py:67-76 | in every interleaving, the drained replica has for each submitted key the source, external id, type, content and schema version last submitted, the version number, and the id of the first submission; and nothing else |
| Listing.ListedCorrect | src/events/service.py:203-214 | the filters keep every matching row, at distinct positions |
| Listing.PageNewestFirst | src/events/service.py:203-243 | a page is newest first by timestamp, then id; its events pass each filter and come after the cursor; the next cursor is the timestamp and id of its last event, if more remains |
| Listing.LeftForLater | src/events/service.py:216-227 | a matching event after the cursor is on the page, or older than its last one, or as old with a smaller id |
| Listing.WalkReturnsOnce | src/events/service.py:203-243 | whatever others change between pages, a matching event left alone is returned exactly once by a completed walk |
| Listing.WalkStaysPast | src/events/service.py:216-221 | a walk never returns a row at or before its cursor |
| Listing.FixedWalk | src/events/service.py:223-243 | on an unchanged table the pages from any place add up to the rest of the listing, on ceil(rest / limit) pages |
| Listing.WholeWalk | src/events/service.py:203-243 | a walk over an unchanged table returns, newest first by timestamp, then id, exactly the events that pass each filter |
| Listing.PagesForIsCeiling | src/events/service.py:223-231 | the page count is the ceiling of the quotient |
| Publisher.OutboxPublisher.MarkPublished | src/outbox/service.py:71-74 | marks one row published and counts the attempt |
| Publisher.OutboxPublisher.MarkFailed | src/outbox/service.py:77-81 | counts the attempt, keeps the cut error, and gives up at the limit |
| Publisher.OutboxPublisher.PublishOutbox | src/outbox/tasks.py:34-50 | a run delivers and marks every row of its batch, a failure does not stop it, and it counts the published ones |
| Publisher.ProcessedAt | src/outbox/tasks.py:39-48 | every row of the batch is marked once, by its own outcome; no other row changes |
| Publisher.DeliveredShown | src/search/vector.py:44-76 | after a run the index shows, for each event, the last row of the batch that it applied: id, source, type, and at most 1000 characters of content |
| Publisher.CountAckedIs | src/outbox/tasks.py:34-50 | the number published is that of the deliveries that succeeded |
| DeliveryLog.RowSaysDeliveries | src/outbox/service.py:71-87 | over any run of any workers with crashes, a row counts its committed deliveries, has at most 1000 characters of the last error, is published with the time of its success, which is its last delivery, and dead when the last failed at the limit |
| PublisherBound.PendingBound | src/outbox/service.py:36-45 | while a row is pending, every run uses up one of the runs it has left |
| PublisherBound.PublishedOrDead | src/outbox/service.py:36-45 | whatever fails, is enqueued, or comes first among equals: published or dead after `MAX * p / B + MAX` runs |
| PublisherBound.FifoBound | src/outbox/service.py:36-45 | a row whose pending predecessors have distinct ages and whose pending successors are younger is published or dead after `MAX * (p / B + 1)` runs, whatever the ages of later rows |
| PublisherBound.FrontFinishes | src/outbox/tasks.py:39-48 | a row with fewer than a batch of rivals is tried in every run |
| Arithmetic.QuotientIsDivision | src/outbox/service.py:37 | the quotient of the bounds is integer division |
| DistinctRivals.PendingOnlyIfDelayable | src/outbox/service.py:36-45 | in any table, a row pending after `n` runs has rivals with attempts for as many full batches of distinct rows as it was passed over |
| DistinctRivals.SettledUnlessDelayable | src/outbox/service.py:36-45 | so in any table it is published or dead by the first number of runs that its rivals and its own attempts cannot fill |
| DistinctRivals.StaysPendingIff | src/outbox/service.py:38-44 | among rows of one age with any attempts, some `n` runs leave the row pending exactly when its rivals and its own attempts can fill them |
| DistinctRivals.SettledByIff | src/outbox/service.py:38-44 | among rows of one age that number of runs is the exact bound |
| TiedQueue.AdversaryDelays | src/outbox/service.py:38-44 | the general bound is reached: one run fewer can leave a row pending |
| TiedQueue.TiedFifoIff | src/outbox/service.py:38-44 | for `p` untried rows of one age, the sharper bound holds in all runs exactly when `p < B` or `(p mod B) * MAX < B` |
| Workers.ProtocolSafe | src/outbox/service.py:36-45 | over any run of any workers, deliveries and crashes: held batches are disjoint, pending rows have attempts left, dead rows none, published rows between 1 and MAX and were delivered, no row is lost, and published and dead rows never change |
| Workers.CommitMarks | src/outbox/tasks.py:37-48 | a commit marks exactly the rows it held |
| Workers.DeliverKeepsPoints | src/search/vector.py:44-76 | every index point comes from a delivered row, also before the commit |
| Replaying.DeliveryReplaysIff | src/outbox/tasks.py:39-48 | one delivery keeps the index equal to the replay of the published rows exactly when it is harmless: an accepted row that no published row of its event follows, a failure that was not applied, or a point that the index shows already |
| Replaying.ReplaysBatchIff | src/outbox/tasks.py:37-48 | the same after every delivery of a batch |
| Replaying.ReplaysUnmarkedIff | src/outbox/tasks.py:37-48 | in a run that is rolled back, the index stays the replay after every delivery exactly when whatever was applied shows already |
| Replaying.IndexReplaysIff | src/outbox/tasks.py:17-48 | over any runs of one worker, committed or rolled back anywhere, with any failures and enqueues, the index equals the replay after every delivery if and only if every delivery is harmless |
| Redelivery.TakenAgain | src/outbox/service.py:36-45 | if no two pending rows are of one age, the batch after a rolled-back run takes all its rows again |
| Redelivery.RedeliveryRepairs | src/outbox/tasks.py:37-48 | then, however many runs were rolled back and wherever, a run whose deliveries are all applied leaves the index that it would have left without them |
| Indexing.IndexRefinesFeed | src/outbox/tasks.py:17-48 | in particular a failure-free run takes the index from one replay to the next, and publishes each event's rows in order |
| Indexing.IndexRefinesFeedThroughout | src/outbox/tasks.py:17-48 | a corollary for any number of failure-free runs with anything enqueued between them |
| Indexing.IndexRefinesFeedDespiteCrashes | src/outbox/tasks.py:37-48 | so a failure-free run after any number of rolled-back ones takes the index to the replay of the published rows |
| Indexing.DrainedIndex | src/search/vector.py:44-76 | when all is published, the index shows every event's id, source, type and current content, up to 1000 characters |
| Indexing.IndexSound | src/search/vector.py:44-76 | in every run of any workers, each index point shows the id, source, type and cut content of one submission for its event, and the cut of a version that the event's history holds |
| Indexing.RetryRestoresOldContent | src/outbox/tasks.py:39-48 | a failing input: a late retry puts older content back |
| Indexing.RetryIsHarmful | src/outbox/tasks.py:39-48 | that retry is the delivery that is not harmless: its row was overtaken and the index shows something else |
| Indexing.CrashLeavesPoint | src/outbox/tasks.py:37-48 | a failing input: a run that crashes after a delivery, harmless had it committed, leaves a point although no row is published |
| Indexing.PublishingKeepsFeed | src/outbox/tasks.py:39-48 | publishing changes nothing that the change feed shows |
| Backoff.KneeSplits | src/dlq/service.py:24-25 | delays below the cap are exactly those before the knee |
| Backoff.TotalClosedForm | src/dlq/service.py:17-26 | the first `n` delays add up to `base * (2^k - 1)` up to the knee `k`, and `(n - k) * cap` after it |
| DeadLetters.NewestActive | src/dlq/service.py:62-76 | the newest active entry of an operation, or none if there is none |
| DeadLetters.DeadLetterQueue.RecordFailure | src/dlq/service.py:45-116 | the entry returned is the active one of the operation, or a new one if there is none; it has the payload given, at most 2000 characters of the error, and the correlation id unless that is missing or empty; an active entry keeps its attempts and schedule, and no other entry changes |
| DeadLetters.DeadLetterQueue.MarkRetryScheduled | src/dlq/service.py:143-162 | counts the attempt and schedules the next, or retires the entry at the limit |
| DeadLetters.DeadLetterQueue.ProcessDueRetries | src/dlq/tasks.py:33-68 | every due entry the broker accepts is rescheduled, refused ones are untouched, and the accepted ones are counted |
| DeadLetters.DeadLetterQueue.RetryFailedEvents | src/dlq/tasks.py:26-29 | a scan whose commit fails leaves the entries as they were, although its tasks were sent |
| DeadLetters.DeadLetterQueue.ReplayFailedEvent | src/dlq/router.py:28-50 | unknown ids, broker errors and a commit that fails after the task was sent change nothing; otherwise the entry is resolved, whatever its status |
| DeadLetterLog.EntrySaysPast | src/dlq/service.py:45-162 | over every run, through scans, lost scans and replays: an entry has the payload and error of the last failure recorded on it, the id and time of the first, one attempt for each committed dispatch and replay, and the times of the last of each |
| DeadLetterLog.PastDispatches | src/dlq/tasks.py:41-57 | those dispatches are the ones that the attempt limit counts |
| DeadLetterRuns.InvariantHolds | src/dlq/service.py:60-105 | over every run, with scans and replays that commit or are rolled back: one active entry per operation; active means attempts left and scheduled its backoff after the last attempt; exhausted means none left; attempts equal committed automatic dispatches, at most MAX, until a manual replay |
| DeadLetterRuns.InvariantStep | src/dlq/service.py:143-162 | every operation keeps that, keeps all entries, and makes no inactive entry active |
| DeadLetterRuns.NeverActiveAgain | src/dlq/service.py:180-183 | from any moment of a run on, no entry is lost or becomes active again |
| DeadLetterRuns.ExhaustedOnlyAfterBackoff | src/dlq/service.py:119-162 | an entry not replayed is exhausted exactly when it had MAX committed dispatches, and not before its recording time plus all delays in closed form |
| DeadLetterRuns.OnlyReplayResolves | src/dlq/router.py:40-43 | over every run an entry is resolved if and only if it was itself replayed by hand after it was opened and that replay committed |
| DeadLetterRuns.ScanSpendsBudget | src/dlq/tasks.py:41-57 | a committed scan lowers the remaining attempts of all active entries by exactly the dispatches it made |
| DeadLetterRuns.DispatchesWithinBudget | src/dlq/tasks.py:41-57 | all committed automatic dispatches of a run stay within MAX for each entry opened |
| DeadLetterSends.SendsPerEntry | src/dlq/tasks.py:26-57 | over every run, scans send an entry's task once for each committed dispatch, at most MAX times, and at most once more in each scan that was rolled back |
| DeadLetterSends.SendsWithinBudget | src/dlq/tasks.py:26-57 | all tasks sent by scans are the committed dispatches and those of rolled-back scans: at most MAX for each entry opened and a batch for each rolled-back scan |
| DeadLetterSends.LostScanSendsAgain | src/dlq/tasks.py:26-57 | a failing input: with one attempt and one entry, a rolled-back scan and a committed one send the task twice |
| DeadLetterSends.DispatchedNotResolved | src/dlq/service.py:143-162 | a failing input: an entry whose task was sent is still in the queue, scheduled again |
| DeadLetterWait.DispatchedInTurn | src/dlq/service.py:119-140 | an entry that is due, with `p` others due before it, is dispatched or replayed within `p / B + 1` committed scans in which the broker takes everything, whatever else happens or is rolled back in between |
| Webhook.WebhookEndpoint.GithubWebhook | src/github/router.py:63-137 | the delivery id and its events are committed together or not at all; a known id is answered as a duplicate |
| Webhook.ExactlyOnce | src/github/router.py:63-101 | for any deliveries and failures the store equals applying only the first successful delivery of each id, in order |
| Webhook.ItemsAre | src/github/router.py:85-97 | a delivery upserts its commits in order, then its pull request, each key once, in the name of its correlation id |
| Webhook.DeliveryIs | src/github/router.py:63-137 | after any others, a delivery is answered as a duplicate exactly when an earlier one of its id committed; otherwise it takes effect and goes on record unless it raises before the commit |
| Webhook.OnRecordIff | src/github/router.py:77-78 | an id is on record exactly when a delivery of it committed |
| Webhook.OnePerId | src/github/router.py:64-75 | no id takes effect twice, and every id that succeeded takes effect |
| FileSync.ConnectorSync.ListObjects | src/filestore/service.py:35-69 | lists, over all pages, what is not known to be at or behind the cursor |
| FileSync.ListedIff | src/filestore/service.py:57-60 | exactly the objects whose last-modified time is missing or after the cursor are listed |
| FileSync.ConnectorSync.NormalizeAll | src/integrations/sync.py:36-44 | normalizes every item that has a key and finds the latest timestamp |
| FileSync.ConnectorSync.RunConnectorSync | src/integrations/sync.py:27-78 | events and cursor are committed together or not at all; the cursor becomes the latest ingested timestamp |
| FileSync.SyncedIs | src/integrations/sync.py:46-55 | a committed sync upserts what it fetched in the name of its correlation id, and its cursor is the latest timestamp of that; any other changes nothing |
| SameHistories.HistoriesAgreeIff | src/events/service.py:76-181 | two runs leave the same contents, versions and histories exactly when their submissions agree, less consecutive repeats |
| SyncRefinement.IncrementalRefinesFullIff | src/integrations/sync.py:31-55 | over any run with failures, syncing incrementally leaves the same histories as fetching everything, at every moment, exactly when each skipped object shows what its event already has |
| SyncRefinement.ChangesPastCursorSuffice | src/filestore/service.py:57-68 | that is so if whatever changed since the last sync has a last-modified time past the cursor; then the cursor never passes an object that was not ingested |
| SyncRefinement.RunIsUpserts | src/integrations/sync.py:46-55 | the store after a run is the upserts of its committed syncs |
| MissedObjects.LateObjectIsMissed | src/filestore/service.py:57-60 | a failing input: an object uploaded after a sync but dated at its cursor is never fetched |
| MissedObjects.DistinctSupplyIsFresh | src/events/service.py:109 | runs whose UUIDs are never drawn twice submit fresh ones |
| Telegram.TelegramSync.SyncTelegramMessages | src/telegram/tasks.py:47-104 | events and offset are committed together or not at all |
| Telegram.SyncedIs | src/telegram/tasks.py:53-79 | a committed sync upserts what it parsed in the name of its correlation id, and its offset is one past the largest id it saw; any other changes nothing |
| Telegram.TelegramSync.ParseAll | src/telegram/tasks.py:57-69 | parses the messages that have text; the offset counts all updates |
| Telegram.GetUpdates | src/telegram/service.py:69-74 | keeps the updates that validate, in order |
| TelegramStream.OffsetParts | src/telegram/tasks.py:53-55 | an offset right behind an update parts the stream into acknowledged and unread |
| TelegramRuns.IngestedIsAcknowledged | src/telegram/tasks.py:53-79 | in any run with failures and malformed updates, the posts submitted are exactly those of the sound updates before the offset, each once and in order |
| TelegramRuns.AcknowledgedIsStored | src/telegram/tasks.py:71-79 | the events are exactly those that these posts name, and every post is stored at version 1 if and only if posts of one message id have one content |
| TelegramRuns.ParsedTells | src/telegram/utils.py:9-53 | each message with text gives one event with its id, its text behind the chat's title or id, its author, and its date or else the sync's time |
| TelegramRuns.RowsShowPosts | src/telegram/tasks.py:57-79 | in any run each event's row has those columns of a message that the offset acknowledges |
| TelegramRuns.MalformedIsLost | src/telegram/service.py:69-74 | a failing input: a malformed update is acknowledged, not read again, and nothing is ingested |
| StorageUrls.WithoutIff | src/raw_payloads/storage.py:46 | text replacement leaves a text alone exactly when the pattern does not occur |
| StorageUrls.LocateIff | src/raw_payloads/storage.py:41-48 | bucket and key are found again exactly when the bucket has no slash and the endpoint with its slash does not occur in the rest |
| StorageUrls.LostUrls | src/raw_payloads/storage.py:46-48 | failing inputs: a bucket with a slash, and a key that contains the endpoint |
| RawPayloads.RawPayloadStore.SaveRawPayload | src/raw_payloads/service.py:20-81 | a known payload changes nothing and its row is returned; a new one is stored in the row or offloaded |
| RawPayloads.RawPayloadStore.LoadPayloadContent | src/raw_payloads/service.py:89-102 | returns the body from wherever it is, and nothing when it cannot be read |
| RawPayloads.CoercedIs | src/raw_payloads/service.py:44-48 | the JSON form has no timestamps, leaves what has none alone, turns a timestamp into its text, and keeps the shape of containers |
| RawPayloads.NewRowIs | src/raw_payloads/service.py:50-72 | a new payload's row has its source, correlation id and digest, and its body, or, above the threshold and if the put succeeds, the URL of the object that has it |
| RawPayloads.SavedSound | src/raw_payloads/service.py:50-72 | each row keeps its body in exactly one place where loading finds it, one row per source and hash, and older rows still load the same |
| RawPayloads.SaveThenLoad | src/raw_payloads/service.py:26-102 | loading the id returned gives the JSON form of the payload, whatever its size and whatever the put did |
| RawPayloads.SavedForGood | src/raw_payloads/service.py:26-102 | and still does at the end of any run |
| RawPayloads.SameRowIff | src/raw_payloads/service.py:28-38 | two saves share a row exactly when source and JSON form agree |
| RawPayloads.AlwaysAnswered | src/raw_payloads/service.py:35-38 | every save has an id to return |
| PayloadTrail.StepKeeps | src/integrations/sync.py:36-60 | a sync, committed or rolled back after any of its saves, keeps every raw payload loadable and unchanged |
| PayloadTrail.EventsLeadBack | src/integrations/sync.py:36-55 | after any run of syncs, every event's row has the columns of a listed object, and it and every version it keeps name a payload that loads the JSON form of the listing entry of an object with that key and content |
| PayloadTrail.FetchedTells | src/filestore/service.py:104-122 | what a sync submits for an object, in every column: the bucket as author, the key and size in the content, and its last-modified time or else the sync's |
| Jira.SearchIssues | src/jira/service.py:64-78 | the loop terminates and collects the pages up to an empty one or the reported total |
| Jira.CollectsAllIff | src/jira/service.py:68-75 | for any page sizes the whole list is returned in order, without repeats, exactly when no page before the end is empty or understates the total |
| Jira.WholeResult | src/jira/service.py:64-78 | with true totals and no empty page before the end, a search that does not fail returns the whole list |
| Jira.CutShort | src/jira/service.py:72-75 | two failing inputs: a server that reports no total, and one that answers an empty page midway, are read for one issue of two |
| Base64.DecodeEncode | src/pagination.py:17-24 | section 5 of RFC 4648: decoding undoes encoding for all bytes |
| IsoTime.IsoBack | src/pagination.py:18-24 | ISO text gives back every time with an offset, to the microsecond |
| Pagination.ObjectBack | src/pagination.py:18-23 | the JSON object gives back its two texts |
| Pagination.CursorRoundTrip | src/pagination.py:17-24 | a cursor decodes to the timestamp and id it was made from |
| Pagination.CursorIsUrlSafe | src/pagination.py:17-19 | a cursor uses only the URL-safe alphabet and padding, in groups of four |
| CursorFormat.CursorIs | src/pagination.py:17-19 | a cursor is base 64 of the bytes of the JSON object with the ISO text of the time and the text of the id |
| CursorFormat.IsoIs | src/pagination.py:18 | the ISO text is year, month, day, hour, minute, second in fixed digits with their separators, then fraction and offset |
| CursorFormat.TailIs | src/pagination.py:18 | a fraction is a point and six digits, and left out when zero |
| CursorFormat.OffsetIs | src/pagination.py:18 | an offset is its sign, hours and minutes, and seconds and microseconds only if there are any |
| CursorFormat.UuidIs | src/pagination.py:18 | an id is eight, four, four, four and twelve hexadecimal digits |
| CursorFormat.FixedIs | src/pagination.py:18 | digits in lower case that stand for the number |
| CursorFormat.EncodeIs | src/pagination.py:19 | section 4 of RFC 4648: three bytes as four letters of the URL-safe alphabet, most significant first, padded at the end |
| Digits.SignedIs | src/telegram/utils.py:44-45 | a number's text has its sign and decimal digits without leading zeros |

## Left out

- HTTP, authentication, webhook signatures, rate limits, metrics, logging, health checks, dashboards: no state that could go wrong.
- Embedding vectors and search ranking: the index is a map from event id to the stored payload, an idempotent upsert. Hashing the event id to a point id is assumed injective.
- `event_versions` ids, their changed_at, `aggregate_type`, the received_at of payloads and the sync_logs rows: written, never read by the modelled code.
- Status updates of webhook deliveries after the commit: made on a session that is not committed again.
- `mark_replay_failed`: nothing calls it. `list_failed`, `get_event`, `get_watermark`: plain queries.
- SQL itself: queries are functions of the tables, unique constraints are maps; a batch that `fetch_pending` or `fetch_due_retries` may return is any that satisfies the query, ties included.
- Locks of the dead-letter scan: scans are serial, because the rows of `FOR UPDATE SKIP LOCKED` are treated in `Workers` for the outbox.
- Clocks: one reading per statement that stores it; the created_at a new dead letter gets when it is flushed is taken to be the `now` its first delay counts from.
- DeadLetterRuns.ExhaustedOnlyAfterBackoff: gives the earliest moment, not a latest one; the wait of a due entry is counted in scans (`DispatchedInTurn`), because nothing in the code bounds when they happen.
- TiedQueue.TiedFifoIff: untried rows of one age; for any attempts see `DistinctRivals.SettledByIff`. For tables that mix ages `SettledUnlessDelayable` and `FifoBound` are bounds, not exact ones, because older rivals also have to be taken first.
- GitHub polling, mail and Jira syncs end to end: mail fetches only the last 100 ids by date, so nothing is promised to be complete; parsing of their payloads into events is field mapping.
- Telegram message ids are unique only within a chat, but the external id leaves out the chat: messages that collide are versions of one event in the model as in the code.
- TelegramRuns.IngestedIsAcknowledged: updates come in ascending order, malformed ones have an id too, and none expires before it is read; the API's limit per answer is any number.
- RawPayloads.SaveThenLoad: the digest is injective, the keys of objects that are put are distinct, and the object store can be read; a failing read is in `LoadPayloadContent`.
- How a Telegram author's name is put together from first, last and user name: a message carries the result.
- Payload ids of Telegram updates are parameters: they are saved as in `PayloadTrail`, which is about the file sync.
- Deleting raw payloads: what happens to references is decided by the database.
- Pagination.CursorRoundTrip: decoding is modelled for texts of the form that encoding writes; base64 with stray characters, other JSON layouts, other ISO and UUID spellings count as undecodable, and `fold` is not part of a time with a fixed offset.
- Reconnecting to the event stream with the id of the last message: the client's own doing.
- `_extract_text` and the JQL text of the Jira connector: easy members.
