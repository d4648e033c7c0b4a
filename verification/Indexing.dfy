/**
 What the vector index holds: without failures the newest published row of each event; in any
 run some version of the event that the history keeps.
 */
module Indexing {
  import opened Basics
  import opened Sequences
  import opened Keyset
  import opened Schema
  import opened Events
  import opened History
  import opened Publisher
  import opened Redelivery
  import opened Replaying
  import Audit
  import Bound = PublisherBound
  import Feed = ChangeFeed
  import Handover
  import Workers

  // ---- Runs without failures --------------------------------------------------------------

  /** Successive upserts of one event are created at strictly later times. */
  ghost predicate EventsAge(rows: seq<OutboxRow>) {
    forall i, j :: 0 <= i < j < |rows| && rows[i].change.eventId == rows[j].change.eventId ==>
      rows[i].pos.ts < rows[j].pos.ts
  }

  /** Of each event, a beginning is published and the rest is pending. */
  ghost predicate PublishedInOrder(rows: seq<OutboxRow>) {
    && (forall i :: 0 <= i < |rows| ==> rows[i].status != Dead)
    && forall i, j :: 0 <= i < j < |rows| && rows[i].change.eventId == rows[j].change.eventId &&
                      rows[j].status == Published ==>
         rows[i].status == Published
  }

  ghost predicate AllAcked(outcomes: seq<Outcome>) {
    forall p :: 0 <= p < |outcomes| ==> outcomes[p].Acked?
  }

  /** The rows after the first `n` deliveries of a batch. */
  function Midway(rows: seq<OutboxRow>, batch: seq<nat>, outcomes: seq<Outcome>, n: nat, max: nat)
    : seq<OutboxRow>
    requires n <= |batch| == |outcomes| && forall p :: 0 <= p < |batch| ==> batch[p] < |rows|
  {
    Processed(rows, batch[..n], outcomes[..n], max)
  }

  /** The state of the rows after `n` deliveries, without naming the outcomes. */
  ghost predicate Delivered(rows: seq<OutboxRow>, batch: seq<nat>, mid: seq<OutboxRow>, n: nat) {
    && |mid| == |rows| && n <= |batch|
    && (forall p :: 0 <= p < |batch| ==> batch[p] < |rows|)
    && (forall p :: 0 <= p < n ==> mid[batch[p]].status == Published)
    && (forall p :: n <= p < |batch| ==> mid[batch[p]] == rows[batch[p]])
    && (forall i :: 0 <= i < |rows| && i !in batch ==> mid[i] == rows[i])
    && (forall i :: 0 <= i < |rows| ==> mid[i].pos == rows[i].pos && mid[i].change == rows[i].change)
  }

  lemma {:induction false} MidwayAt(rows: seq<OutboxRow>, batch: seq<nat>, outcomes: seq<Outcome>, n: nat, max: nat)
    requires n <= |batch| == |outcomes| && forall p :: 0 <= p < |batch| ==> batch[p] < |rows|
    requires NoRepeats(batch) && AllAcked(outcomes)
    ensures Delivered(rows, batch, Midway(rows, batch, outcomes, n, max), n)
  {
    ProcessedAt(rows, batch[..n], outcomes[..n], max);
    ProcessedKeepsChanges(rows, batch[..n], outcomes[..n], max);
    var mid := Midway(rows, batch, outcomes, n, max);
    forall p | 0 <= p < n ensures mid[batch[p]].status == Published {
      assert mid[batch[..n][p]] == Marked(rows[batch[p]], outcomes[..n][p], max);
    }
  }

  /** Oldest first within the batch, and the oldest pending rows in it: order within an event is kept. */
  lemma {:induction false} MidwayInOrder(
    rows: seq<OutboxRow>, batch: seq<nat>, outcomes: seq<Outcome>, n: nat, limit: nat, max: nat)
    requires IsBatch(rows, {}, limit, batch) && n <= |batch| == |outcomes| && AllAcked(outcomes)
    requires forall p :: 0 <= p < |batch| ==> batch[p] < |rows|
    requires EventsAge(rows) && PublishedInOrder(rows)
    ensures PublishedInOrder(Midway(rows, batch, outcomes, n, max))
    ensures EventsAge(Midway(rows, batch, outcomes, n, max))
  {
    var mid := Midway(rows, batch, outcomes, n, max);
    MidwayAt(rows, batch, outcomes, n, max);
    forall i | 0 <= i < |mid| ensures mid[i].status != Dead {
      NotDead(rows, batch, mid, n, i);
    }
    forall i, j | 0 <= i < j < |mid| && mid[i].change.eventId == mid[j].change.eventId && mid[j].status == Published
      ensures mid[i].status == Published
    {
      OlderPublished(rows, batch, mid, n, limit, i, j);
    }
  }

  lemma {:induction false} NotDead(rows: seq<OutboxRow>, batch: seq<nat>, mid: seq<OutboxRow>, n: nat, i: nat)
    requires Delivered(rows, batch, mid, n) && i < |rows| && PublishedInOrder(rows)
    ensures mid[i].status != Dead
  {
    if i in batch {
      var p :| 0 <= p < |batch| && batch[p] == i;
      assert mid[batch[p]].status == Published || mid[batch[p]] == rows[i];
    }
  }

  /** A row that is no longer pending is in no batch. */
  lemma {:induction false} NotTaken(rows: seq<OutboxRow>, batch: seq<nat>, limit: nat, i: nat)
    requires IsBatch(rows, {}, limit, batch) && i < |rows| && rows[i].status != Pending
    ensures i !in batch
  {
    forall p | 0 <= p < |batch| ensures batch[p] != i {
      assert Eligible(rows, {}, batch[p]);
    }
  }

  /** A pending row older than a row of the batch is in the batch before it. */
  lemma {:induction false} OlderTakenFirst(rows: seq<OutboxRow>, batch: seq<nat>, limit: nat, i: nat, q: nat)
    requires IsBatch(rows, {}, limit, batch) && i < |rows| && rows[i].status == Pending
    requires q < |batch| && batch[q] < |rows| && rows[i].pos.ts < rows[batch[q]].pos.ts
    ensures exists p :: 0 <= p < q && batch[p] == i
  {
    assert Eligible(rows, {}, i);
    var p :| 0 <= p < |batch| && batch[p] == i;
  }

  lemma {:induction false} OlderPublished(
    rows: seq<OutboxRow>, batch: seq<nat>, mid: seq<OutboxRow>, n: nat, limit: nat, i: nat, j: nat)
    requires Delivered(rows, batch, mid, n) && IsBatch(rows, {}, limit, batch)
    requires EventsAge(rows) && PublishedInOrder(rows)
    requires i < j < |rows| && mid[i].change.eventId == mid[j].change.eventId && mid[j].status == Published
    ensures mid[i].status == Published
  {
    assert rows[i].pos.ts < rows[j].pos.ts;
    if rows[i].status == Published {
      NotTaken(rows, batch, limit, i);
    } else {
      assert j in batch;
      var q :| 0 <= q < |batch| && batch[q] == j;
      assert q < n;
      OlderTakenFirst(rows, batch, limit, i, q);
    }
  }

  /** Without failures nothing is overtaken. */
  lemma {:induction false} NothingOvertaken(
    rows: seq<OutboxRow>, batch: seq<nat>, outcomes: seq<Outcome>, n: nat, limit: nat, max: nat)
    requires IsBatch(rows, {}, limit, batch) && n <= |batch| == |outcomes| && AllAcked(outcomes)
    requires forall p :: 0 <= p < |batch| ==> batch[p] < |rows|
    requires EventsAge(rows) && PublishedInOrder(rows)
    ensures AllHarmless(rows, batch[..n], outcomes[..n], max)
  {
    if n > 0 {
      NothingOvertaken(rows, batch, outcomes, n - 1, limit, max);
      NextInOrder(rows, batch, outcomes, n - 1, limit, max);
      NextHarmless(rows, batch, outcomes, n - 1, max);
    }
  }

  lemma {:induction false} NextHarmless(
    rows: seq<OutboxRow>, batch: seq<nat>, outcomes: seq<Outcome>, n: nat, max: nat)
    requires n < |batch| == |outcomes| && InTable(rows, batch) && AllHarmless(rows, batch[..n], outcomes[..n], max)
    requires Harmless(Midway(rows, batch, outcomes, n, max), batch[n], outcomes[n])
    ensures AllHarmless(rows, batch[..n + 1], outcomes[..n + 1], max)
  {
    assert batch[..n + 1] == batch[..n] + [batch[n]] && outcomes[..n + 1] == outcomes[..n] + [outcomes[n]];
    AllHarmlessAppend(rows, batch[..n], outcomes[..n], batch[n], outcomes[n], max);
  }

  lemma {:induction false} NextInOrder(
    rows: seq<OutboxRow>, batch: seq<nat>, outcomes: seq<Outcome>, n: nat, limit: nat, max: nat)
    requires IsBatch(rows, {}, limit, batch) && n < |batch| == |outcomes| && AllAcked(outcomes)
    requires forall p :: 0 <= p < |batch| ==> batch[p] < |rows|
    requires EventsAge(rows) && PublishedInOrder(rows)
    ensures Harmless(Midway(rows, batch, outcomes, n, max), batch[n], outcomes[n])
  {
    var mid, x := Midway(rows, batch, outcomes, n, max), batch[n];
    MidwayAt(rows, batch, outcomes, n, max);
    MidwayInOrder(rows, batch, outcomes, n, limit, max);
    assert Eligible(rows, {}, batch[n]);
    assert mid[x].status == Pending;
  }

  ghost predicate IndexCurrent(rows: seq<OutboxRow>, index: map<Uuid, Point>) {
    EventsAge(rows) && PublishedInOrder(rows) && index == Replayed(rows)
  }

  /**
   A failure-free run of the single worker keeps the index equal to the replay of the
   published rows, and each event's published rows a beginning of its feed.
   */
  lemma {:induction false} IndexRefinesFeed(
    rows: seq<OutboxRow>, index: map<Uuid, Point>, run: Bound.Run, l: Limits)
    requires IndexCurrent(rows, index) && Bound.LegalRun(rows, run, l) && AllAcked(run.outcomes)
    requires EventsAge(Bound.AfterRun(rows, run, l))
    ensures IndexCurrent(Bound.AfterRun(rows, run, l), IndexedAll(index, rows, run.batch, run.outcomes))
  {
    BatchInTable(rows, run, l);
    WholeBatch(rows, run.batch, run.outcomes, l.batchSize, l.maxAttempts);
    PendingKeepsOrder(Processed(rows, run.batch, run.outcomes, l.maxAttempts), run.added);
    ReplayedPending(Processed(rows, run.batch, run.outcomes, l.maxAttempts), run.added);
  }

  lemma {:induction false} WholeBatch(
    rows: seq<OutboxRow>, batch: seq<nat>, outcomes: seq<Outcome>, limit: nat, max: nat)
    requires IsBatch(rows, {}, limit, batch) && |batch| == |outcomes| && AllAcked(outcomes)
    requires forall p :: 0 <= p < |batch| ==> batch[p] < |rows|
    requires EventsAge(rows) && PublishedInOrder(rows)
    ensures PublishedInOrder(Processed(rows, batch, outcomes, max))
    ensures IndexedAll(Replayed(rows), rows, batch, outcomes) == Replayed(Processed(rows, batch, outcomes, max))
  {
    assert batch[..|batch|] == batch && outcomes[..|batch|] == outcomes;
    MidwayInOrder(rows, batch, outcomes, |batch|, limit, max);
    NothingOvertaken(rows, batch, outcomes, |batch|, limit, max);
    BatchPending(rows, batch, limit);
    ReplaysBatchIff(Replayed(rows), rows, batch, outcomes, max);
  }

  lemma {:induction false} PendingKeepsOrder(rows: seq<OutboxRow>, added: seq<OutboxRow>)
    requires PublishedInOrder(rows) && forall a :: 0 <= a < |added| ==> added[a].status == Pending
    ensures PublishedInOrder(rows + added)
  {
    forall j | |rows| <= j < |rows + added| ensures (rows + added)[j].status == Pending {
      assert (rows + added)[j] == added[j - |rows|];
    }
  }

  ghost predicate NoFailures(runs: seq<Bound.Run>) {
    forall i :: 0 <= i < |runs| ==> AllAcked(runs[i].outcomes)
  }

  ghost function IndexAfter(index: map<Uuid, Point>, rows: seq<OutboxRow>, runs: seq<Bound.Run>, l: Limits)
    : map<Uuid, Point>
    requires Bound.LegalRuns(rows, runs, l)
    decreases |runs|
  {
    if runs == [] then index
    else
      BatchInTable(rows, runs[0], l);
      IndexAfter(IndexedAll(index, rows, runs[0].batch, runs[0].outcomes),
                 Bound.AfterRun(rows, runs[0], l), runs[1..], l)
  }

  lemma {:induction false} EventsAgeBeforeRun(rows: seq<OutboxRow>, run: Bound.Run, l: Limits)
    requires Bound.LegalRun(rows, run, l) && EventsAge(Bound.AfterRun(rows, run, l))
    ensures EventsAge(rows)
  {
    var next := Bound.AfterRun(rows, run, l);
    BatchInTable(rows, run, l);
    ProcessedKeepsChanges(rows, run.batch, run.outcomes, l.maxAttempts);
    forall i | 0 <= i < |rows| ensures next[i].pos == rows[i].pos && next[i].change == rows[i].change {
    }
  }

  lemma {:induction false} EventsAgeBefore(rows: seq<OutboxRow>, runs: seq<Bound.Run>, l: Limits)
    requires Bound.LegalRuns(rows, runs, l) && EventsAge(Bound.AfterRuns(rows, runs, l))
    ensures EventsAge(rows)
    decreases |runs|
  {
    if runs != [] {
      EventsAgeBefore(Bound.AfterRun(rows, runs[0], l), runs[1..], l);
      EventsAgeBeforeRun(rows, runs[0], l);
    }
  }

  /** The same over any number of failure-free runs, whatever is enqueued in between. */
  lemma {:induction false} IndexRefinesFeedThroughout(
    rows: seq<OutboxRow>, index: map<Uuid, Point>, runs: seq<Bound.Run>, l: Limits)
    requires IndexCurrent(rows, index) && Bound.LegalRuns(rows, runs, l) && NoFailures(runs)
    requires EventsAge(Bound.AfterRuns(rows, runs, l))
    ensures IndexCurrent(Bound.AfterRuns(rows, runs, l), IndexAfter(index, rows, runs, l))
    decreases |runs|
  {
    if runs != [] {
      var next := Bound.AfterRun(rows, runs[0], l);
      EventsAgeBefore(next, runs[1..], l);
      IndexRefinesFeed(rows, index, runs[0], l);
      BatchInTable(rows, runs[0], l);
      IndexRefinesFeedThroughout(next, IndexedAll(index, rows, runs[0].batch, runs[0].outcomes), runs[1..], l);
    }
  }

  lemma {:induction false} TriesKeepOrder(rows: seq<OutboxRow>, tries: seq<Attempt>, l: Limits)
    requires LegalAttempts(rows, tries, l) && AllRolledBack(tries) && PublishedInOrder(rows)
    ensures PublishedInOrder(AfterAttempts(rows, tries, l))
    decreases |tries|
  {
    if tries != [] {
      PendingKeepsOrder(rows, tries[0].added);
      TriesKeepOrder(rows + tries[0].added, tries[1..], l);
    }
  }

  /**
   Crashes in between do no lasting harm: after runs that were rolled back anywhere, a failure-free
   run leaves the index equal to the replay, if no two pending rows are of the same age.
   */
  lemma {:induction false} IndexRefinesFeedDespiteCrashes(
    rows: seq<OutboxRow>, tries: seq<Attempt>, run: Bound.Run, l: Limits)
    requires LegalAttempts(rows, tries, l) && AllRolledBack(tries) && PublishedInOrder(rows)
    requires Bound.LegalRun(AfterAttempts(rows, tries, l), run, l) && AllAcked(run.outcomes)
    requires AgesDiffer(AfterAttempts(rows, tries, l))
    requires EventsAge(Bound.AfterRun(AfterAttempts(rows, tries, l), run, l))
    ensures var after, index := AfterAttempts(rows, tries, l), IndexAfterAttempts(Replayed(rows), rows, tries, l);
            && InTable(after, run.batch)
            && IndexCurrent(Bound.AfterRun(after, run, l), IndexedAll(index, after, run.batch, run.outcomes))
  {
    var after := AfterAttempts(rows, tries, l);
    TriesKeepOrder(rows, tries, l);
    EventsAgeBeforeRun(after, run, l);
    RedeliveryRepairs(rows, tries, run.batch, run.outcomes, l);
    IndexRefinesFeed(after, Replayed(after), run, l);
  }

  /** Once all is published, the index shows every event's source, type and content, cut to 1000 characters. */
  lemma {:induction false} DrainedIndex(db: Store, submitted: seq<Item>, index: map<Uuid, Point>, k: Key)
    requires Consistent(db, submitted) && IndexCurrent(db.outbox, index)
    requires forall i :: 0 <= i < |db.outbox| ==> db.outbox[i].status == Published
    requires k in db.events
    ensures var ev := db.events[k];
            && ev.id in index
            && var point := index[ev.id];
            && point.eventId == ev.id && point.source == ev.source && point.eventType == ev.eventType
            && point.content == if |ev.content| <= 1000 then ev.content else ev.content[..1000]
  {
    assert Recorded(db, k, ContentsFor(k, submitted));
    ReplayedLast(db.outbox, db.events[k].id);
  }

  ghost predicate PointsToNewest(index: map<Uuid, Point>, id: Uuid, rows: seq<OutboxRow>) {
    rows != [] ==> id in index && index[id] == PointOf(rows[|rows| - 1].change)
  }

  lemma {:induction false} ReplayedLast(rows: seq<OutboxRow>, id: Uuid)
    requires forall i :: 0 <= i < |rows| ==> rows[i].status == Published
    ensures PointsToNewest(Replayed(rows), id, RowsOf(id, rows))
  {
    if rows != [] {
      var init, last := rows[..|rows| - 1], rows[|rows| - 1];
      assert rows == init + [last];
      ReplayedLast(init, id);
      RowsOfAppend(id, init, last);
      ReplayedAppend(init, last);
    }
  }

  // ---- Any run ----------------------------------------------------------------------------

  lemma {:induction false} RowsOfHolds(id: Uuid, outbox: seq<OutboxRow>, i: nat) returns (j: nat)
    requires i < |outbox| && outbox[i].change.eventId == id
    ensures j < |RowsOf(id, outbox)| && RowsOf(id, outbox)[j] == outbox[i]
  {
    var n := |outbox| - 1;
    if i == n {
      j := |RowsOf(id, outbox)| - 1;
    } else {
      j := RowsOfHolds(id, outbox[..n], i);
    }
  }

  lemma {:induction false} NumbersAt(rows: seq<OutboxRow>, j: nat)
    requires j < |rows|
    ensures Numbers(rows)[j] == Numbered(rows[j].change.version, rows[j].change.content)
  {
    if j < |rows| - 1 {
      NumbersAt(rows[..|rows| - 1], j);
    }
  }

  /** Each submission's version number points at its own content. */
  lemma {:induction false} VersionedAt(submitted: seq<string>, j: nat)
    requires j < |submitted|
    ensures var entry := Versioned(submitted)[j];
            1 <= entry.version <= |Destutter(submitted)| && Destutter(submitted)[entry.version - 1] == entry.content
  {
    var n := |submitted| - 1;
    if j < n {
      VersionedAt(submitted[..n], j);
      DestutterPrefix(submitted, n);
    }
  }

  /** The point shows the cut content of a version that the history holds. */
  ghost predicate ShowsVersion(versions: map<VersionKey, Snapshot>, point: Point, version: int) {
    && VersionKey(point.eventId, version) in versions
    && point.content == Cut(versions[VersionKey(point.eventId, version)].content)
  }

  ghost predicate ShowsSome(versions: map<VersionKey, Snapshot>, point: Point) {
    exists version :: ShowsVersion(versions, point, version)
  }

  lemma {:induction false} RowTellsVersion(rows: seq<OutboxRow>, ev: Event, submitted: seq<string>, j: nat)
    requires FeedTells(rows, ev, submitted) && j < |rows|
    ensures var c := rows[j].change;
            1 <= c.version <= |Destutter(submitted)| && Destutter(submitted)[c.version - 1] == c.content
  {
    NumbersAt(rows, j);
    VersionedAt(submitted, j);
  }

  lemma {:induction false} RowShowsVersion(db: Store, submitted: seq<Item>, i: nat)
    requires Consistent(db, submitted) && Feed.Owned(db) && i < |db.outbox|
    ensures ShowsVersion(db.versions, PointOf(db.outbox[i].change), db.outbox[i].change.version)
  {
    var change := db.outbox[i].change;
    var k := Key(change.source, change.externalId);
    var ev := db.events[k];
    assert Recorded(db, k, ContentsFor(k, submitted));
    var j := RowsOfHolds(ev.id, db.outbox, i);
    RowTellsVersion(RowsOf(ev.id, db.outbox), ev, ContentsFor(k, submitted), j);
  }

  /**
   In every run, with any workers, failures and crashes, each point of the index shows the cut
   content of a version that the history of its event holds.
   */
  lemma {:induction false} IndexShowsKeptVersion(
    db: Store, submitted: seq<Item>, c: Workers.Cluster, l: Limits, id: Uuid)
    requires Consistent(db, submitted) && Feed.Owned(db)
    requires Workers.Inv(c, l) && Feed.SameFeed(c.rows, db.outbox) && id in c.index
    ensures c.index[id].eventId == id
    ensures ShowsSome(db.versions, c.index[id])
  {
    var i: nat :| Workers.FromRow(c, id, i);
    SameChange(c.rows, db.outbox, i);
    RowShowsVersion(db, submitted, i);
  }

  /** The point shows, column by column, what submission `i` said, under the id of its event. */
  ghost predicate ShowsSubmission(point: Point, items: seq<Item>, i: nat) {
    && i < |items|
    && var d := items[i].data;
    && var own := Audit.ItemsOf(Key(d.source, d.externalId), items[..i + 1]);
    && own != [] && point.eventId == own[0].eventId
    && point.source == d.source && point.eventType == d.eventType
    && point.content == if |d.content| <= 1000 then d.content else d.content[..1000]
  }

  lemma {:induction false} IndexShowsSubmission(
    items: seq<Item>, c: Workers.Cluster, l: Limits, id: Uuid)
    requires FreshItems(items)
    requires Workers.Inv(c, l) && Feed.SameFeed(c.rows, UpsertAll(EMPTY, items).outbox) && id in c.index
    ensures exists i :: ShowsSubmission(c.index[id], items, i)
  {
    var i: nat :| Workers.FromRow(c, id, i);
    SameChange(c.rows, UpsertAll(EMPTY, items).outbox, i);
    Handover.OutboxTellsSubmissions(items);
    assert Handover.RowTells(UpsertAll(EMPTY, items).outbox[i], items, i);
    assert ShowsSubmission(c.index[id], items, i);
  }

  lemma {:induction false} SameChange(a: seq<OutboxRow>, b: seq<OutboxRow>, i: nat)
    requires Feed.SameFeed(a, b) && i < |a|
    ensures i < |b| && a[i].change == b[i].change
  {
    assert |Feed.Feed(a)| == |Feed.Feed(b)|;
    assert Feed.Feed(a)[i] == Feed.Feed(b)[i];
  }

  /** End to end: whatever was upserted, and however the workers' run went. */
  lemma {:induction false} IndexSound(items: seq<Item>, actions: seq<Workers.Action>, l: Limits)
    requires FreshItems(items) && l.maxAttempts >= 1 && Workers.Legal(Workers.EMPTY, actions, l)
    requires Feed.SameFeed(Workers.Run(Workers.EMPTY, actions, l).rows, UpsertAll(EMPTY, items).outbox)
    ensures var index := Workers.Run(Workers.EMPTY, actions, l).index;
            forall id :: id in index ==>
              && index[id].eventId == id
              && ShowsSome(UpsertAll(EMPTY, items).versions, index[id])
              && exists i :: ShowsSubmission(index[id], items, i)
  {
    Workers.EmptySound(l);
    Workers.ProtocolSafe(Workers.EMPTY, actions, l);
    StoreSound(items);
    var c, db := Workers.Run(Workers.EMPTY, actions, l), UpsertAll(EMPTY, items);
    forall id | id in c.index
      ensures c.index[id].eventId == id && ShowsSome(db.versions, c.index[id])
      ensures exists i :: ShowsSubmission(c.index[id], items, i)
    {
      IndexShowsKeptVersion(db, items, c, l, id);
      IndexShowsSubmission(items, c, l, id);
    }
  }

  lemma {:induction false} StoreSound(items: seq<Item>)
    requires FreshItems(items)
    ensures Consistent(UpsertAll(EMPTY, items), items) && Feed.Owned(UpsertAll(EMPTY, items))
  {
    HistoryTheorem([]);
    assert [] + items == items;
    Feed.UpsertAllKeepsRecords(EMPTY, [], items);
  }

  /** A committed run changes nothing that the change feed shows. */
  lemma {:induction false} PublishingKeepsFeed(
    rows: seq<OutboxRow>, batch: seq<nat>, outcomes: seq<Outcome>, max: nat)
    requires |batch| == |outcomes| && forall p :: 0 <= p < |batch| ==> batch[p] < |rows|
    ensures Feed.SameFeed(Processed(rows, batch, outcomes, max), rows)
  {
    ProcessedKeepsChanges(rows, batch, outcomes, max);
    assert Feed.Feed(Processed(rows, batch, outcomes, max)) == Feed.Feed(rows);
  }

  // ---- A failed row can bring old content back --------------------------------------------

  function Told(version: nat, status: Status, attempts: nat, error: Option<string>, at: Option<Time>): OutboxRow {
    var content := if version == 1 then "a" else "b";
    var change := Change(7, "jira", "A-1", "issue", content, version, 1);
    OutboxRow(Pos(version, version), change, status, attempts, error, at)
  }

  /** Two versions of one event, both waiting. */
  const WAITING := [Told(1, Pending, 0, None, None), Told(2, Pending, 0, None, None)]

  /** The older one failed, the newer one was published. */
  const OVERTAKEN := [Told(1, Pending, 1, Some(""), None), Told(2, Published, 1, None, Some(3))]

  /** Marking both rows of a table by hand. */
  lemma {:induction false} BothProcessed(rows: seq<OutboxRow>, a: Outcome, b: Outcome, max: nat)
    requires |rows| == 2
    ensures Processed(rows, [0, 1], [a, b], max) == [Marked(rows[0], a, max), Marked(rows[1], b, max)]
    ensures IndexedAll(map[], rows, [0, 1], [a, b]) ==
            Indexed(Indexed(map[], rows[0].change, a), rows[1].change, b)
  {
    var batch: seq<nat>, first: seq<nat>, outcomes := [0, 1], [0], [a, b];
    assert batch[..1] == first && outcomes[..1] == [a];
    assert first[..0] == [] && [a][..0] == [];
    assert Processed(rows, first, [a], max) == rows[0 := Marked(rows[0], a, max)];
    OneIndexed(map[], rows, a);
  }

  lemma {:induction false} OneIndexed(index: map<Uuid, Point>, rows: seq<OutboxRow>, o: Outcome)
    requires |rows| == 2
    ensures IndexedAll(index, rows, [0], [o]) == Indexed(index, rows[0].change, o)
  {
    var batch: seq<nat> := [0];
    assert batch[..0] == [] && [o][..0] == [];
  }

  lemma {:induction false} BothTaken()
    ensures IsBatch(WAITING, {}, 100, [0, 1]) && IsBatch(OVERTAKEN, {}, 100, [0])
  {
    assert Eligible(WAITING, {}, 0) && Eligible(WAITING, {}, 1);
    assert Eligible(OVERTAKEN, {}, 0) && !Eligible(OVERTAKEN, {}, 1);
  }

  lemma {:induction false} OvertakenReplay()
    ensures Replayed(OVERTAKEN) == map[7 := PointOf(OVERTAKEN[1].change)]
    ensures PublishedBehind(OVERTAKEN, 0, 1)
  {
    var first := OVERTAKEN[..1];
    assert first == [OVERTAKEN[0]] && first[..0] == [];
    assert Replayed(first) == map[];
  }

  /** The retry is a harmful delivery: the row was overtaken, and the index shows something else. */
  lemma {:induction false} RetryIsHarmful()
    ensures Overtaken(OVERTAKEN, 0) && !Harmless(OVERTAKEN, 0, Acked(4))
  {
    OvertakenReplay();
    assert PointOf(OVERTAKEN[0].change).content == "a" && PointOf(OVERTAKEN[1].change).content == "b";
  }

  /**
   What a harmful delivery does: version 1 fails, version 2 publishes, and the retry of version
   1 then overwrites it in the index.
   */
  lemma {:induction false} RetryRestoresOldContent()
    ensures IsBatch(WAITING, {}, 100, [0, 1])
    ensures Processed(WAITING, [0, 1], [Unacked(false, ""), Acked(3)], 10) == OVERTAKEN
    ensures IsBatch(OVERTAKEN, {}, 100, [0])
    ensures var index := IndexedAll(map[], WAITING, [0, 1], [Unacked(false, ""), Acked(3)]);
            && 7 in index && index[7].content == "b"
            && var later := IndexedAll(index, OVERTAKEN, [0], [Acked(4)]);
               7 in later && later[7].content == "a"
  {
    BothTaken();
    BothProcessed(WAITING, Unacked(false, ""), Acked(3), 10);
    OneIndexed(IndexedAll(map[], WAITING, [0, 1], [Unacked(false, ""), Acked(3)]), OVERTAKEN, Acked(4));
  }

  /** A run that crashes after its first delivery. */
  const CRASHED := RolledBack([0, 1], [Acked(3)], [])

  /**
   The delivery would have been harmless had its run committed; rolled back, it leaves a point in
   the index although no row is published.
   */
  lemma {:induction false} CrashLeavesPoint()
    ensures LegalAttempts(WAITING, [CRASHED], Limits(100, 10))
    ensures AllHarmless(WAITING, [0], [Acked(3)], 10) && !HarmlessRuns(WAITING, [CRASHED], Limits(100, 10))
    ensures AfterAttempts(WAITING, [CRASHED], Limits(100, 10)) == WAITING && Replayed(WAITING) == map[]
    ensures 7 in IndexAfterAttempts(map[], WAITING, [CRASHED], Limits(100, 10))
  {
    BothTaken();
    OneIndexed(map[], WAITING, Acked(3));
    var batch: seq<nat>, first: seq<nat>, l := [0, 1], [0], Limits(100, 10);
    assert batch[..1] == first && WAITING + [] == WAITING && [CRASHED][1..] == [];
    WaitingReplay();
    assert Applied(Ends(CRASHED)[0]) && !Shows(Replayed(WAITING), WAITING[first[0]].change);
  }

  lemma {:induction false} WaitingReplay()
    ensures Replayed(WAITING) == map[]
    ensures AllHarmless(WAITING, [0], [Acked(3)], 10)
  {
    var first, batch: seq<nat> := WAITING[..1], [0];
    assert first == [WAITING[0]] && first[..0] == [] && Replayed(first) == map[];
    assert batch[..0] == [] && [Acked(3)][..0] == [];
    assert forall j :: !PublishedBehind(WAITING, 0, j);
  }
}
