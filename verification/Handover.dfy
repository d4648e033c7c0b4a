/**
 What upserts hand on, column by column: to the consumers of the feed, and to the publisher of the
 outbox.  Everything is said in terms of what was submitted.
 */
module Handover {
  import opened Basics
  import opened Sequences
  import opened Schema
  import opened Events
  import opened History
  import Audit
  import Bound = PublisherBound
  import Feed = ChangeFeed
  import Publisher
  import Workers

  /** The columns of the last of some submissions for an event, under the id of the first. */
  ghost predicate Tells(c: Change, own: seq<Item>, version: int)
    requires own != []
  {
    var first, last := own[0], own[|own| - 1].data;
    && c.eventId == first.eventId
    && c.source == last.source && c.externalId == last.externalId
    && c.eventType == last.eventType && c.content == last.content
    && c.schemaVersion == last.schemaVersion
    && c.version == version
  }

  /** The versions an event has after some submissions. */
  function VersionsOf(k: Key, items: seq<Item>): nat {
    |Destutter(ContentsFor(k, items))|
  }

  // ---- The outbox -------------------------------------------------------------------------

  /** Row `i` of the outbox tells what its event had become with submission `i`, and is untried. */
  ghost predicate RowTells(row: OutboxRow, items: seq<Item>, i: nat)
    requires i < |items|
  {
    var k := Key(items[i].data.source, items[i].data.externalId);
    var own := Audit.ItemsOf(k, items[..i + 1]);
    && own != [] && own[|own| - 1] == items[i]
    && Tells(row.change, own, VersionsOf(k, items[..i + 1]))
    && row.pos == items[i].pos && row.status == Pending && row.attempts == 0
    && row.lastError == None && row.publishedAt == None
  }

  lemma {:induction false} LastRowTells(init: seq<Item>, item: Item)
    requires FreshItems(init + [item])
    ensures var items := init + [item];
            var rows := UpsertAll(EMPTY, items).outbox;
            rows != [] && RowTells(rows[|rows| - 1], items, |init|)
  {
    var items, k := init + [item], item.NaturalKey();
    assert items[..|init| + 1] == items && items[..|init|] == init;
    Audit.RowShowsLast(items, k);
    Audit.RecordedSoFar(items, k);
    UpsertAllAppend(EMPTY, init, item);
  }

  ghost predicate AllTell(rows: seq<OutboxRow>, items: seq<Item>) {
    |rows| == |items| && forall i :: 0 <= i < |items| ==> RowTells(rows[i], items, i)
  }

  lemma {:induction false} OneMoreTells(init: seq<Item>, item: Item, rows: seq<OutboxRow>, row: OutboxRow)
    requires AllTell(rows, init) && RowTells(row, init + [item], |init|)
    ensures AllTell(rows + [row], init + [item])
  {
    forall i | 0 <= i < |init| ensures RowTells(rows[i], init + [item], i) {
      assert RowTells(rows[i], init, i);
      assert init[..i + 1] == (init + [item])[..i + 1];
    }
  }

  /** After any upserts the outbox has one row for each submission, in order. */
  lemma {:induction false} OutboxTellsSubmissions(items: seq<Item>)
    requires FreshItems(items)
    ensures AllTell(UpsertAll(EMPTY, items).outbox, items)
  {
    if items != [] {
      var init, last := items[..|items| - 1], items[|items| - 1];
      assert items == init + [last];
      OutboxTellsSubmissions(init);
      LastRowTells(init, last);
      UpsertAllAppend(EMPTY, init, last);
      var db := UpsertAll(EMPTY, init);
      OneMoreTells(init, last, db.outbox, OutboxRowFor(Upserted(db.events, last), last.pos));
    }
  }

  // ---- The publisher ----------------------------------------------------------------------

  function Added(db: Store, items: seq<Item>): seq<OutboxRow>
    requires |UpsertAll(db, items).outbox| >= |db.outbox|
  {
    UpsertAll(db, items).outbox[|db.outbox|..]
  }

  /** Upserts append to the outbox, a pending and untried row for each item, at its position. */
  lemma {:induction false} UpsertsEnqueue(db: Store, items: seq<Item>)
    ensures var rows := UpsertAll(db, items).outbox;
            && |rows| == |db.outbox| + |items| && rows[..|db.outbox|] == db.outbox
            && forall i :: 0 <= i < |items| ==>
                 var row := rows[|db.outbox| + i];
                 && row.pos == items[i].pos && row.status == Pending && row.attempts == 0
                 && row.lastError == None && row.publishedAt == None
  {
    if items != [] {
      var init := items[..|items| - 1];
      UpsertsEnqueue(db, init);
      assert UpsertAll(db, items).outbox[..|db.outbox|] == UpsertAll(db, init).outbox[..|db.outbox|];
    }
  }

  ghost predicate FreshRows(added: seq<OutboxRow>, items: seq<Item>) {
    && |added| == |items|
    && forall i :: 0 <= i < |items| ==>
         added[i].pos == items[i].pos && added[i].status == Pending && added[i].attempts == 0
  }

  lemma {:induction false} AddedRows(db: Store, items: seq<Item>)
    ensures |UpsertAll(db, items).outbox| >= |db.outbox|
    ensures UpsertAll(db, items).outbox == db.outbox + Added(db, items)
    ensures FreshRows(Added(db, items), items)
  {
    UpsertsEnqueue(db, items);
    var rows, n := UpsertAll(db, items).outbox, |db.outbox|;
    assert rows == rows[..n] + rows[n..];
    forall i | 0 <= i < |items| ensures rows[n..][i] == rows[n + i] {
    }
  }

  lemma {:induction false} FreshRowsEnqueued(rows: seq<OutboxRow>, added: seq<OutboxRow>, items: seq<Item>)
    requires FreshRows(added, items)
    requires forall i, j :: 0 <= i < |rows| && 0 <= j < |items| ==> rows[i].pos.ts < items[j].pos.ts
    ensures Bound.Enqueued(rows, added)
  {
  }

  /** So, under a monotone clock, they are what the publisher and its workers take for enqueued. */
  lemma {:induction false} UpsertsFeedPublisher(db: Store, items: seq<Item>, c: Workers.Cluster, l: Publisher.Limits)
    requires forall i, j :: 0 <= i < |db.outbox| && 0 <= j < |items| ==> db.outbox[i].pos.ts < items[j].pos.ts
    ensures |UpsertAll(db, items).outbox| >= |db.outbox|
    ensures UpsertAll(db, items).outbox == db.outbox + Added(db, items)
    ensures Bound.Enqueued(db.outbox, Added(db, items))
    ensures Workers.Enabled(c, Workers.Enqueue(Added(db, items)), l)
  {
    AddedRows(db, items);
    FreshRowsEnqueued(db.outbox, Added(db, items), items);
  }

  // ---- The consumers ----------------------------------------------------------------------

  lemma {:induction false} SameEvents(a: Store, b: Store, items: seq<Item>)
    requires a.events == b.events
    ensures UpsertAll(a, items).events == UpsertAll(b, items).events
  {
    if items != [] {
      SameEvents(a, b, items[..|items| - 1]);
    }
  }

  /** Publisher runs and polls in between leave the events table as the upserts made it. */
  lemma {:induction false} EventsOfRun(steps: seq<Feed.Step>)
    ensures Feed.Run(steps).db.events == UpsertAll(EMPTY, Feed.Run(steps).submitted).events
  {
    if steps != [] {
      var init, last := steps[..|steps| - 1], steps[|steps| - 1];
      EventsOfRun(init);
      if last.Upsert? {
        var s := Feed.Run(init);
        SameEvents(s.db, UpsertAll(EMPTY, s.submitted), last.items);
        UpsertAllConcat(EMPTY, s.submitted, last.items);
      }
    }
  }

  /** For each submitted key, and for no other event, the replica tells what was last submitted. */
  ghost predicate ReplicaTells(replica: map<Uuid, Change>, submitted: seq<Item>) {
    && (forall k :: Audit.ItemsOf(k, submitted) != [] ==>
          var own := Audit.ItemsOf(k, submitted);
          && own[0].eventId in replica
          && Tells(replica[own[0].eventId], own, VersionsOf(k, submitted)))
    && forall id :: id in replica ==>
         var own := Audit.ItemsOf(Key(replica[id].source, replica[id].externalId), submitted);
         own != [] && own[0].eventId == id
  }

  lemma {:induction false} MirrorTells(replica: map<Uuid, Change>, db: Store, submitted: seq<Item>)
    requires Feed.Mirrors(replica, db.events) && Consistent(db, submitted)
    requires db.events == UpsertAll(EMPTY, submitted).events
    ensures ReplicaTells(replica, submitted)
  {
    forall k | Audit.ItemsOf(k, submitted) != []
      ensures var own := Audit.ItemsOf(k, submitted);
              own[0].eventId in replica && Tells(replica[own[0].eventId], own, VersionsOf(k, submitted))
    {
      Audit.RowShowsLast(submitted, k);
      assert Recorded(db, k, ContentsFor(k, submitted));
    }
    forall id | id in replica
      ensures var own := Audit.ItemsOf(Key(replica[id].source, replica[id].externalId), submitted);
              own != [] && own[0].eventId == id
    {
      Audit.RowShowsLast(submitted, Key(replica[id].source, replica[id].externalId));
    }
  }

  /**
   Whatever the interleaving, once a poll reports that nothing remains, the consumer's replica has
   for each event the source, external id, type, content and schema version last submitted, its
   version number, and the id of its first submission; and nothing else.
   */
  lemma {:induction false} DrainedReplicaTells(steps: seq<Feed.Step>, limit: nat)
    requires Feed.Legal(steps) && limit >= 1
    ensures var s := Feed.Run(steps);
            !Feed.PollChanges(Feed.Feed(s.db.outbox), s.cursor, limit).hasMore ==>
              ReplicaTells(Feed.Next(s, Feed.Poll(limit)).replica, s.submitted)
  {
    var s := Feed.Run(steps);
    Feed.DrainedReplicaConverges(steps, limit);
    Feed.ReplicaReplaysPrefix(steps);
    EventsOfRun(steps);
    if !Feed.PollChanges(Feed.Feed(s.db.outbox), s.cursor, limit).hasMore {
      MirrorTells(Feed.Next(s, Feed.Poll(limit)).replica, s.db, s.submitted);
    }
  }
}
