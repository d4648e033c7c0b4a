/**
 What the event store remembers over a whole run: the versions of an event are the contents
 submitted for it with consecutive repeats removed, and the outbox tells the same story.
 */
module History {
  import opened Basics
  import opened Sequences
  import opened Schema
  import opened Events

  /** The contents submitted for a key, in order. */
  function ContentsFor(k: Key, items: seq<Item>): seq<string> {
    if items == [] then []
    else
      var last := items[|items| - 1];
      ContentsFor(k, items[..|items| - 1]) +
      (if last.NaturalKey() == k then [last.data.content] else [])
  }

  /** The outbox rows of one event, in the order they were written. */
  function RowsOf(id: Uuid, outbox: seq<OutboxRow>): (r: seq<OutboxRow>)
    ensures forall i :: 0 <= i < |r| ==> r[i].change.eventId == id && r[i] in outbox
  {
    if outbox == [] then []
    else
      var last := outbox[|outbox| - 1];
      RowsOf(id, outbox[..|outbox| - 1]) + (if last.change.eventId == id then [last] else [])
  }

  lemma {:induction false} RowsOfAppend(id: Uuid, outbox: seq<OutboxRow>, row: OutboxRow)
    ensures RowsOf(id, outbox + [row]) ==
            if row.change.eventId == id then RowsOf(id, outbox) + [row] else RowsOf(id, outbox)
  {
    assert (outbox + [row])[..|outbox|] == outbox;
  }

  /** UUIDs are fresh: no two items draw the same one. */
  ghost predicate FreshItems(items: seq<Item>) {
    forall i, j :: 0 <= i < j < |items| ==> items[i].eventId != items[j].eventId
  }

  function DrawnIds(items: seq<Item>): set<Uuid> {
    set item | item in items :: item.eventId
  }

  /** Every id in the three tables was drawn by an item. */
  ghost predicate IdsDrawn(db: Store, items: seq<Item>) {
    && (forall k :: k in db.events ==> db.events[k].id in DrawnIds(items))
    && (forall vk :: vk in db.versions ==> vk.eventId in DrawnIds(items))
    && (forall i :: 0 <= i < |db.outbox| ==> db.outbox[i].change.eventId in DrawnIds(items))
  }

  /** The versions kept for `ev` are 1 to its own, with the given contents. */
  ghost predicate VersionsAre(versions: map<VersionKey, Snapshot>, ev: Event, contents: seq<string>) {
    && ev.version == |contents|
    && (forall v :: VersionKey(ev.id, v) in versions <==> 1 <= v <= ev.version)
    && (forall v :: 1 <= v <= ev.version ==> versions[VersionKey(ev.id, v)].content == contents[v - 1])
  }

  datatype Numbered = Numbered(version: int, content: string)

  function Numbers(rows: seq<OutboxRow>): (r: seq<Numbered>)
    ensures |r| == |rows|
  {
    if rows == [] then []
    else
      var last := rows[|rows| - 1].change;
      Numbers(rows[..|rows| - 1]) + [Numbered(last.version, last.content)]
  }

  /** Each submitted content with the number of distinct runs of contents up to it. */
  function Versioned(submitted: seq<string>): (r: seq<Numbered>)
    ensures |r| == |submitted|
    ensures submitted != [] ==>
              r[|r| - 1] == Numbered(|Destutter(submitted)|, submitted[|submitted| - 1])
  {
    if submitted == [] then []
    else
      Versioned(submitted[..|submitted| - 1]) +
      [Numbered(|Destutter(submitted)|, submitted[|submitted| - 1])]
  }

  /** One outbox row per submission, with the version it left the event at; the last is current. */
  ghost predicate FeedTells(rows: seq<OutboxRow>, ev: Event, submitted: seq<string>) {
    && Numbers(rows) == Versioned(submitted)
    && rows != []
    && rows[|rows| - 1].change == ChangeOf(ev)
  }

  /** The state of one key, given everything submitted for it. */
  ghost predicate Recorded(db: Store, k: Key, submitted: seq<string>) {
    if submitted == [] then k !in db.events
    else
      && k in db.events
      && var ev := db.events[k];
      && ev.content == submitted[|submitted| - 1]
      && VersionsAre(db.versions, ev, Destutter(submitted))
      && FeedTells(RowsOf(ev.id, db.outbox), ev, submitted)
  }

  ghost predicate Consistent(db: Store, items: seq<Item>) {
    && Constraints(db)
    && IdsDrawn(db, items)
    && forall k :: Recorded(db, k, ContentsFor(k, items))
  }

  lemma {:induction false} DrawnIdsAppend(items: seq<Item>, item: Item)
    ensures DrawnIds(items + [item]) == DrawnIds(items) + {item.eventId}
  {
    assert forall x :: x in items + [item] <==> x in items || x == item;
    assert item in items + [item];
  }

  lemma {:induction false} RowsOfUndrawn(id: Uuid, outbox: seq<OutboxRow>)
    requires forall i :: 0 <= i < |outbox| ==> outbox[i].change.eventId != id
    ensures RowsOf(id, outbox) == []
  {
    if outbox != [] {
      RowsOfUndrawn(id, outbox[..|outbox| - 1]);
    }
  }

  lemma {:induction false} VersionedAppend(submitted: seq<string>, x: string)
    ensures Versioned(submitted + [x]) == Versioned(submitted) + [Numbered(|Destutter(submitted + [x])|, x)]
  {
    assert (submitted + [x])[..|submitted|] == submitted;
  }

  lemma {:induction false} NumbersAppend(rows: seq<OutboxRow>, row: OutboxRow)
    ensures Numbers(rows + [row]) == Numbers(rows) + [Numbered(row.change.version, row.change.content)]
  {
    assert (rows + [row])[..|rows|] == rows;
  }

  lemma {:induction false} UpsertExtendsVersions(db: Store, item: Item, submitted: seq<string>)
    requires Recorded(db, item.NaturalKey(), submitted)
    requires submitted == [] ==> forall vk :: vk in db.versions ==> vk.eventId != item.eventId
    ensures VersionsAre(UpsertOne(db, item).versions, Upserted(db.events, item),
                        Destutter(submitted + [item.data.content]))
  {
    DestutterAppend(submitted, item.data.content);
  }

  lemma {:induction false} UpsertExtendsFeed(db: Store, item: Item, submitted: seq<string>)
    requires Recorded(db, item.NaturalKey(), submitted)
    requires submitted == [] ==>
               forall i :: 0 <= i < |db.outbox| ==> db.outbox[i].change.eventId != item.eventId
    requires Upserted(db.events, item).version == |Destutter(submitted + [item.data.content])|
    ensures var ev := Upserted(db.events, item);
            FeedTells(RowsOf(ev.id, UpsertOne(db, item).outbox), ev, submitted + [item.data.content])
  {
    var ev := Upserted(db.events, item);
    var row := OutboxRowFor(ev, item.pos);
    RowsOfAppend(ev.id, db.outbox, row);
    NumbersAppend(RowsOf(ev.id, db.outbox), row);
    VersionedAppend(submitted, item.data.content);
    if submitted == [] {
      RowsOfUndrawn(ev.id, db.outbox);
    }
  }

  /** The key an item names gains one submission. */
  lemma {:induction false} UpsertRecordsKey(db: Store, item: Item, submitted: seq<string>, drawn: set<Uuid>)
    requires Recorded(db, item.NaturalKey(), submitted) && item.eventId !in drawn
    requires forall vk :: vk in db.versions ==> vk.eventId in drawn
    requires forall i :: 0 <= i < |db.outbox| ==> db.outbox[i].change.eventId in drawn
    ensures Recorded(UpsertOne(db, item), item.NaturalKey(), submitted + [item.data.content])
  {
    UpsertExtendsVersions(db, item, submitted);
    UpsertExtendsFeed(db, item, submitted);
  }

  lemma {:induction false} KeepsOtherVersions(
    db: Store, item: Item, id: Uuid, ev: Event, contents: seq<string>)
    requires VersionsAre(db.versions, ev, contents) && ev.id == id
    requires Upserted(db.events, item).id != id
    requires item.NaturalKey() in db.events ==> db.events[item.NaturalKey()].id != id
    ensures VersionsAre(UpsertOne(db, item).versions, ev, contents)
  {
  }

  lemma {:induction false} KeepsOtherRows(db: Store, item: Item, id: Uuid)
    requires Upserted(db.events, item).id != id
    ensures RowsOf(id, UpsertOne(db, item).outbox) == RowsOf(id, db.outbox)
  {
    RowsOfAppend(id, db.outbox, OutboxRowFor(Upserted(db.events, item), item.pos));
  }

  /** Every other key is left alone. */
  lemma {:induction false} UpsertKeepsOtherKeys(db: Store, item: Item, k: Key, submitted: seq<string>, drawn: set<Uuid>)
    requires Constraints(db) && Recorded(db, k, submitted) && k != item.NaturalKey()
    requires item.eventId !in drawn
    requires forall l :: l in db.events ==> db.events[l].id in drawn
    ensures Recorded(UpsertOne(db, item), k, submitted)
  {
    if k in db.events {
      KeepsOtherVersions(db, item, db.events[k].id, db.events[k], Destutter(submitted));
      KeepsOtherRows(db, item, db.events[k].id);
    }
  }

  lemma {:induction false} UpsertKeepsConstraints(db: Store, item: Item, items: seq<Item>)
    requires Constraints(db) && IdsDrawn(db, items) && item.eventId !in DrawnIds(items)
    ensures Constraints(UpsertOne(db, item)) && IdsDrawn(UpsertOne(db, item), items + [item])
  {
    DrawnIdsAppend(items, item);
  }

  lemma {:induction false} ConsistentStep(db: Store, items: seq<Item>, item: Item)
    requires Consistent(db, items) && item.eventId !in DrawnIds(items)
    ensures Consistent(UpsertOne(db, item), items + [item])
  {
    UpsertKeepsConstraints(db, item, items);
    assert (items + [item])[..|items|] == items;
    forall k ensures Recorded(UpsertOne(db, item), k, ContentsFor(k, items + [item])) {
      var submitted := ContentsFor(k, items);
      assert Recorded(db, k, submitted);
      if k == item.NaturalKey() {
        UpsertRecordsKey(db, item, submitted, DrawnIds(items));
      } else {
        UpsertKeepsOtherKeys(db, item, k, submitted, DrawnIds(items));
        assert submitted + [] == submitted;
      }
    }
  }

  /**
   The history theorem.  From an empty store, after any run: an event exists exactly when its
   key was submitted, its content is the last one submitted, its versions are exactly
   1..version with the submitted contents less consecutive repeats, and the outbox holds one
   row per submission carrying the version reached.
   */
  lemma {:induction false} HistoryTheorem(items: seq<Item>)
    requires FreshItems(items)
    ensures Consistent(UpsertAll(EMPTY, items), items)
  {
    if items != [] {
      var init, last := items[..|items| - 1], items[|items| - 1];
      HistoryTheorem(init);
      assert items == init + [last];
      assert last.eventId !in DrawnIds(init);
      ConsistentStep(UpsertAll(EMPTY, init), init, last);
    }
  }

  // ---- The feed of one event --------------------------------------------------------------

  /** `get_event_history`: the kept versions in ascending order. */
  function HistoryOf(db: Store, ev: Event): (r: seq<Numbered>)
    requires ev.version >= 0
    requires forall v :: 1 <= v <= ev.version ==> VersionKey(ev.id, v) in db.versions
  {
    seq(ev.version, i requires 0 <= i < ev.version =>
      Numbered(i + 1, db.versions[VersionKey(ev.id, i + 1)].content))
  }

  function Enumerate(contents: seq<string>): (r: seq<Numbered>)
    ensures |r| == |contents|
  {
    seq(|contents|, i requires 0 <= i < |contents| => Numbered(i + 1, contents[i]))
  }

  lemma {:induction false} VersionedDestutter(submitted: seq<string>)
    ensures Destutter(Versioned(submitted)) == Enumerate(Destutter(submitted))
  {
    if submitted != [] {
      var init, x := submitted[..|submitted| - 1], submitted[|submitted| - 1];
      assert submitted == init + [x];
      VersionedDestutter(init);
      OneMoreVersioned(init, x);
    }
  }

  lemma {:induction false} OneMoreVersioned(init: seq<string>, x: string)
    requires Destutter(Versioned(init)) == Enumerate(Destutter(init))
    ensures Destutter(Versioned(init + [x])) == Enumerate(Destutter(init + [x]))
  {
    VersionedAppend(init, x);
    DestutterAppend(init, x);
    RunOfSameVersion(Versioned(init), init, x);
  }

  /** A repeat keeps both the version and the content; anything else starts the next version. */
  lemma {:induction false} RunOfSameVersion(numbers: seq<Numbered>, init: seq<string>, x: string)
    requires numbers == Versioned(init) && Destutter(numbers) == Enumerate(Destutter(init))
    ensures init != [] && init[|init| - 1] == x ==>
              Destutter(numbers + [Numbered(|Destutter(init)|, x)]) == Enumerate(Destutter(init))
    ensures init == [] || init[|init| - 1] != x ==>
              Destutter(numbers + [Numbered(|Destutter(init)| + 1, x)]) == Enumerate(Destutter(init) + [x])
  {
    DestutterAppend(numbers, Numbered(|Destutter(init)|, x));
    DestutterAppend(numbers, Numbered(|Destutter(init)| + 1, x));
    EnumerateAppend(Destutter(init), x);
  }

  lemma {:induction false} EnumerateAppend(contents: seq<string>, x: string)
    ensures Enumerate(contents + [x]) == Enumerate(contents) + [Numbered(|contents| + 1, x)]
  {
  }

  /** Versions start at 1 and each row repeats the last version or adds one to it. */
  ghost predicate StepsByOne(rows: seq<Numbered>) {
    && (rows != [] ==> rows[0].version == 1)
    && forall j :: 0 < j < |rows| ==>
         rows[j - 1].version <= rows[j].version <= rows[j - 1].version + 1
  }

  lemma {:induction false} VersionedStepsByOne(submitted: seq<string>)
    ensures StepsByOne(Versioned(submitted))
  {
    if submitted != [] {
      var init, x := submitted[..|submitted| - 1], submitted[|submitted| - 1];
      assert submitted == init + [x];
      VersionedStepsByOne(init);
      DestutterAppend(init, x);
    }
  }

  /**
   The feed covers the history: an event's rows start at version 1 and grow by 0 or 1 each,
   and with repeats dropped they are exactly the versions kept.
   */
  lemma {:induction false} FeedCoversHistory(db: Store, items: seq<Item>, k: Key)
    requires Consistent(db, items) && k in db.events
    ensures var ev := db.events[k];
            && ev.version >= 1
            && (forall v :: 1 <= v <= ev.version ==> VersionKey(ev.id, v) in db.versions)
            && Destutter(Numbers(RowsOf(ev.id, db.outbox))) == HistoryOf(db, ev)
            && StepsByOne(Numbers(RowsOf(ev.id, db.outbox)))
  {
    var submitted := ContentsFor(k, items);
    assert Recorded(db, k, submitted);
    VersionedDestutter(submitted);
    VersionedStepsByOne(submitted);
    HistoryIs(db, db.events[k], Destutter(submitted));
  }

  lemma {:induction false} HistoryIs(db: Store, ev: Event, contents: seq<string>)
    requires VersionsAre(db.versions, ev, contents)
    ensures forall v :: 1 <= v <= ev.version ==> VersionKey(ev.id, v) in db.versions
    ensures HistoryOf(db, ev) == Enumerate(contents)
  {
    assert forall v :: 1 <= v <= ev.version ==> VersionKey(ev.id, v) in db.versions;
    forall i | 0 <= i < |contents| ensures HistoryOf(db, ev)[i] == Enumerate(contents)[i] {
      assert VersionKey(ev.id, i + 1) in db.versions;
    }
  }

  // ---- Resubmission -----------------------------------------------------------------------

  lemma {:induction false} NewVersionsPresent(
    events: map<Key, Event>, versions: map<VersionKey, Snapshot>, items: seq<Item>, i: nat)
    requires i < |items|
    ensures VersionOf(Upserted(events, items[i])) in AllNewKept(events, versions, items)
  {
    if i < |items| - 1 {
      NewVersionsPresent(events, versions, items[..|items| - 1], i);
    }
  }

  /** Nothing to snapshot when no content changes and every version is already kept. */
  lemma {:induction false} NothingToKeep(
    events: map<Key, Event>, versions: map<VersionKey, Snapshot>, items: seq<Item>)
    requires forall i :: 0 <= i < |items| ==>
               && !ContentChanges(events, items[i])
               && VersionOf(Upserted(events, items[i])) in versions
    ensures AllNewKept(events, versions, items) == versions
    ensures AllOldKept(events, versions, items) == versions
  {
    if items != [] {
      NothingToKeep(events, versions, items[..|items| - 1]);
    }
  }

  lemma {:induction false} EnqueuedOnePerItem(events: map<Key, Event>, items: seq<Item>)
    ensures |Enqueued(events, items)| == |items|
  {
    if items != [] {
      EnqueuedOnePerItem(events, items[..|items| - 1]);
    }
  }

  /**
   Resubmitting a batch, from any store: the versions kept and the rows are unchanged except
   for the update time, while the outbox gains one row per event.
   */
  lemma {:induction false} ResubmitChangesNoHistory(db: Store, items: seq<Item>, again: seq<Item>)
    requires DistinctKeys(items) && DistinctTargets(db.events, items)
    requires |again| == |items| && forall i :: 0 <= i < |items| ==> again[i].data == items[i].data
    requires DistinctTargets(UpsertAll(db, items).events, again)
    ensures var once, twice := UpsertAll(db, items), UpsertAll(UpsertAll(db, items), again);
            && twice.versions == once.versions
            && twice.events.Keys == once.events.Keys
            && (forall k :: k in once.events ==>
                  twice.events[k].(updatedAt := once.events[k].updatedAt) == once.events[k])
            && |twice.outbox| == |once.outbox| + |items|
            && twice.outbox[..|once.outbox|] == once.outbox
  {
    var once := UpsertAll(db, items);
    BulkRefinesSingle(db, items);
    BulkRefinesSingle(once, again);
    forall i | 0 <= i < |again|
      ensures !ContentChanges(once.events, again[i])
      ensures VersionOf(Upserted(once.events, again[i])) in once.versions
    {
      MergedAt(db.events, items, items[i].NaturalKey());
      NewVersionsPresent(db.events, AllOldKept(db.events, db.versions, items), items, i);
    }
    NothingToKeep(once.events, once.versions, again);
    EnqueuedOnePerItem(once.events, again);
    forall k
      ensures k in once.events <==> k in Merged(once.events, again)
      ensures k in once.events ==>
                Merged(once.events, again)[k].(updatedAt := once.events[k].updatedAt) == once.events[k]
    {
      MergedAt(once.events, again, k);
      MergedAt(db.events, items, k);
      if i :| 0 <= i < |again| && again[i].NaturalKey() == k {
        assert items[i].NaturalKey() == k;
      }
    }
  }
}
