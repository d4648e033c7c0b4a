/** What the columns of events and versions say besides contents: who wrote them, and when. */
module Audit {
  import opened Basics
  import opened Sequences
  import opened Schema
  import opened Events
  import opened History

  // ---- The current row --------------------------------------------------------------------

  /** The items of one key, in order. */
  function ItemsOf(k: Key, items: seq<Item>): (r: seq<Item>)
    ensures forall i :: 0 <= i < |r| ==> r[i].NaturalKey() == k
  {
    if items == [] then []
    else
      var init, last := ItemsOf(k, items[..|items| - 1]), items[|items| - 1];
      if last.NaturalKey() == k then init + [last] else init
  }

  lemma {:induction false} OwnItemsSubmitted(k: Key, items: seq<Item>, item: Item)
    requires item in ItemsOf(k, items)
    ensures item in items
  {
    if item in ItemsOf(k, items[..|items| - 1]) {
      OwnItemsSubmitted(k, items[..|items| - 1], item);
    }
  }

  /** Identity and creation time are from the first item, everything else from the last. */
  ghost predicate ShowsFirstAndLast(ev: Event, first: Item, last: Item) {
    && ev.id == first.eventId && ev.createdAt == first.now && ev.updatedAt == last.now
    && ev.source == last.data.source && ev.externalId == last.data.externalId
    && ev.authorId == last.data.authorId && ev.authorName == last.data.authorName
    && ev.content == last.data.content && ev.eventType == last.data.eventType
    && ev.timestamp == last.data.timestamp && ev.rawPayloadId == last.data.rawPayloadId
    && ev.schemaVersion == last.data.schemaVersion
  }

  /** After any run, an event shows all that was last submitted for its key, under its first id. */
  lemma {:induction false} RowShowsLast(items: seq<Item>, k: Key)
    ensures var db, own := UpsertAll(EMPTY, items), ItemsOf(k, items);
            && (k in db.events <==> own != [])
            && (own != [] ==> ShowsFirstAndLast(db.events[k], own[0], own[|own| - 1]))
  {
    if items != [] {
      RowShowsLast(items[..|items| - 1], k);
    }
  }

  // ---- The versions -----------------------------------------------------------------------

  predicate NewContent(contents: seq<string>, x: string) {
    contents == [] || contents[|contents| - 1] != x
  }

  /** The items that brought a new content: the first of each run of equal contents. */
  function Starts(k: Key, items: seq<Item>): seq<Item> {
    if items == [] then []
    else
      var init, last := items[..|items| - 1], items[|items| - 1];
      if last.NaturalKey() == k && NewContent(ContentsFor(k, init), last.data.content)
      then Starts(k, init) + [last]
      else Starts(k, init)
  }

  function SnapshotFrom(item: Item): Snapshot {
    Snapshot(item.data.content, item.data.schemaVersion, item.data.rawPayloadId, item.changedBy)
  }

  /** Version `v` is the snapshot that `item` took. */
  ghost predicate TakenAt(versions: map<VersionKey, Snapshot>, id: Uuid, v: int, item: Item) {
    VersionKey(id, v) in versions && versions[VersionKey(id, v)] == SnapshotFrom(item)
  }

  ghost predicate TakenBy(versions: map<VersionKey, Snapshot>, id: Uuid, starts: seq<Item>) {
    forall i :: 0 <= i < |starts| ==> TakenAt(versions, id, i + 1, starts[i])
  }

  /** An upsert touches no version kept so far. */
  lemma {:induction false} KeepsVersions(db: Store, item: Item, vk: VersionKey)
    requires vk in db.versions
    ensures vk in UpsertOne(db, item).versions && UpsertOne(db, item).versions[vk] == db.versions[vk]
  {
  }

  lemma {:induction false} KeepsTakenBy(db: Store, item: Item, id: Uuid, starts: seq<Item>)
    requires TakenBy(db.versions, id, starts)
    ensures TakenBy(UpsertOne(db, item).versions, id, starts)
  {
    forall i | 0 <= i < |starts| ensures TakenAt(UpsertOne(db, item).versions, id, i + 1, starts[i]) {
      assert TakenAt(db.versions, id, i + 1, starts[i]);
      KeepsVersions(db, item, VersionKey(id, i + 1));
    }
  }

  /** A new content is kept as the next version, in the name of the call that brought it. */
  lemma {:induction false} StartIsKept(db: Store, item: Item, submitted: seq<string>, drawn: set<Uuid>)
    requires Recorded(db, item.NaturalKey(), submitted) && NewContent(submitted, item.data.content)
    requires item.eventId !in drawn && forall vk :: vk in db.versions ==> vk.eventId in drawn
    ensures var next := UpsertOne(db, item);
            var ev := next.events[item.NaturalKey()];
            && ev.version == |Destutter(submitted)| + 1
            && VersionOf(ev) in next.versions && next.versions[VersionOf(ev)] == SnapshotFrom(item)
  {
    if submitted != [] {
      var ev := db.events[item.NaturalKey()];
      assert VersionsAre(db.versions, ev, Destutter(submitted));
      assert VersionKey(ev.id, ev.version) in db.versions;
      assert VersionKey(ev.id, ev.version + 1) !in db.versions;
    }
  }

  lemma {:induction false} ContentsForAppend(k: Key, items: seq<Item>, item: Item)
    ensures ContentsFor(k, items + [item]) ==
            if item.NaturalKey() == k then ContentsFor(k, items) + [item.data.content] else ContentsFor(k, items)
  {
    assert (items + [item])[..|items|] == items;
    assert ContentsFor(k, items) + [] == ContentsFor(k, items);
  }

  lemma {:induction false} StartsAppend(k: Key, items: seq<Item>, item: Item)
    ensures Starts(k, items + [item]) ==
            if item.NaturalKey() == k && NewContent(ContentsFor(k, items), item.data.content)
            then Starts(k, items) + [item] else Starts(k, items)
  {
    assert (items + [item])[..|items|] == items;
  }

  lemma {:induction false} OneMoreStart(k: Key, items: seq<Item>, item: Item)
    requires |Starts(k, items)| == |Destutter(ContentsFor(k, items))|
    ensures |Starts(k, items + [item])| == |Destutter(ContentsFor(k, items + [item]))|
  {
    StartsAppend(k, items, item);
    ContentsForAppend(k, items, item);
    DestutterAppend(ContentsFor(k, items), item.data.content);
  }

  /** As many starts as versions. */
  lemma {:induction false} StartsCount(k: Key, items: seq<Item>)
    ensures |Starts(k, items)| == |Destutter(ContentsFor(k, items))|
  {
    if items != [] {
      var init, last := items[..|items| - 1], items[|items| - 1];
      assert items == init + [last];
      StartsCount(k, init);
      OneMoreStart(k, init, last);
    }
  }

  lemma {:induction false} IdStays(db: Store, item: Item, k: Key)
    requires k in db.events
    ensures k in UpsertOne(db, item).events && UpsertOne(db, item).events[k].id == db.events[k].id
  {
  }

  ghost predicate Attributed(db: Store, k: Key, starts: seq<Item>) {
    k in db.events ==>
      db.events[k].version == |starts| && TakenBy(db.versions, db.events[k].id, starts)
  }

  lemma {:induction false} AttributedStart(
    db: Store, item: Item, submitted: seq<string>, starts: seq<Item>, drawn: set<Uuid>)
    requires Recorded(db, item.NaturalKey(), submitted) && NewContent(submitted, item.data.content)
    requires item.eventId !in drawn && forall vk :: vk in db.versions ==> vk.eventId in drawn
    requires Attributed(db, item.NaturalKey(), starts) && |starts| == |Destutter(submitted)|
    ensures Attributed(UpsertOne(db, item), item.NaturalKey(), starts + [item])
  {
    var k, next := item.NaturalKey(), UpsertOne(db, item);
    var id := next.events[k].id;
    StartIsKept(db, item, submitted, drawn);
    if k in db.events {
      KeepsTakenBy(db, item, id, starts);
    }
    forall i | 0 <= i < |starts + [item]| ensures TakenAt(next.versions, id, i + 1, (starts + [item])[i]) {
      if i < |starts| {
        assert TakenAt(next.versions, id, i + 1, starts[i]);
      }
    }
  }

  /** Nothing else changes the versions of a key, or its version number. */
  lemma {:induction false} AttributedOther(db: Store, item: Item, k: Key, submitted: seq<string>, starts: seq<Item>)
    requires Recorded(db, k, submitted) && Attributed(db, k, starts)
    requires item.NaturalKey() == k ==> !NewContent(submitted, item.data.content)
    ensures Attributed(UpsertOne(db, item), k, starts)
  {
    if k in db.events {
      IdStays(db, item, k);
      KeepsTakenBy(db, item, db.events[k].id, starts);
    }
  }

  /**
   The audit trail.  After any run, an event's `v`-th version was taken from the call that brought
   that content: it has its content, schema version, raw payload and author.
   */
  lemma {:induction false} VersionsAttributed(items: seq<Item>, k: Key)
    requires FreshItems(items)
    ensures Attributed(UpsertAll(EMPTY, items), k, Starts(k, items))
  {
    if items != [] {
      var init, last := items[..|items| - 1], items[|items| - 1];
      assert items == init + [last];
      assert last.eventId !in DrawnIds(init);
      VersionsAttributed(init, k);
      RecordedSoFar(init, k);
      StartsCount(k, init);
      if last.NaturalKey() == k && NewContent(ContentsFor(k, init), last.data.content) {
        AttributedStart(UpsertAll(EMPTY, init), last, ContentsFor(k, init), Starts(k, init), DrawnIds(init));
      } else {
        AttributedOther(UpsertAll(EMPTY, init), last, k, ContentsFor(k, init), Starts(k, init));
      }
    }
  }

  lemma {:induction false} RecordedSoFar(items: seq<Item>, k: Key)
    requires FreshItems(items)
    ensures var db := UpsertAll(EMPTY, items);
            && Recorded(db, k, ContentsFor(k, items))
            && forall vk :: vk in db.versions ==> vk.eventId in DrawnIds(items)
  {
    HistoryTheorem(items);
  }
}
