/**
 The versioned event store: one upsert call writes `normalized_events`, `event_versions` and
 `outbox_events` in a single transaction.
 */
module Events {
  import opened Basics
  import opened Keyset
  import opened Schema

  /** The three tables as one value. */
  datatype Store = Store(
    events: map<Key, Event>,
    versions: map<VersionKey, Snapshot>,
    outbox: seq<OutboxRow>)

  const EMPTY := Store(map[], map[], [])

  /** One event to upsert, with the values its statements draw: a UUID, an outbox position, the time. */
  datatype Item = Item(data: EventCreate, eventId: Uuid, pos: Pos, now: Time, changedBy: Option<string>)
  {
    function NaturalKey(): Key { data.NaturalKey() }
  }

  // ---- One event --------------------------------------------------------------------------

  /** The row offered to INSERT for an event: its version grows exactly when the content differs. */
  function RowFor(events: map<Key, Event>, item: Item): Event {
    var d := item.data;
    var version :=
      if d.NaturalKey() !in events then 1
      else
        var existing := events[d.NaturalKey()];
        if existing.content != d.content then existing.version + 1 else existing.version;
    Event(item.eventId, d.source, d.externalId, d.authorId, d.authorName, d.content, d.eventType,
          d.timestamp, d.rawPayloadId, d.schemaVersion, version, item.now, item.now)
  }

  /** ON CONFLICT DO UPDATE: an existing row keeps its id and creation time. */
  function Resolve(events: map<Key, Event>, row: Event): Event {
    if row.NaturalKey() in events then
      events[row.NaturalKey()].(
        authorId := row.authorId,
        authorName := row.authorName,
        content := row.content,
        eventType := row.eventType,
        timestamp := row.timestamp,
        rawPayloadId := row.rawPayloadId,
        schemaVersion := row.schemaVersion,
        version := row.version,
        updatedAt := row.updatedAt)
    else row
  }

  function Upserted(events: map<Key, Event>, item: Item): Event {
    Resolve(events, RowFor(events, item))
  }

  function SnapshotOf(ev: Event, changedBy: Option<string>): Snapshot {
    Snapshot(ev.content, ev.schemaVersion, ev.rawPayloadId, changedBy)
  }

  function VersionOf(ev: Event): VersionKey {
    VersionKey(ev.id, ev.version)
  }

  function AddIfAbsent(versions: map<VersionKey, Snapshot>, ev: Event, changedBy: Option<string>)
    : map<VersionKey, Snapshot>
  {
    if VersionOf(ev) in versions then versions
    else versions[VersionOf(ev) := SnapshotOf(ev, changedBy)]
  }

  predicate ContentChanges(events: map<Key, Event>, item: Item) {
    && item.NaturalKey() in events
    && events[item.NaturalKey()].content != item.data.content
  }

  /** The version about to be overwritten is kept, in case it predates versioning. */
  function KeepOld(events: map<Key, Event>, versions: map<VersionKey, Snapshot>, item: Item)
    : map<VersionKey, Snapshot>
  {
    if ContentChanges(events, item)
    then AddIfAbsent(versions, events[item.NaturalKey()], item.changedBy)
    else versions
  }

  function OutboxRowFor(ev: Event, pos: Pos): OutboxRow {
    OutboxRow(pos, ChangeOf(ev), Pending, 0, None, None)
  }

  /** `upsert_event`: the effect of upserting a single event. */
  function UpsertOne(db: Store, item: Item): Store {
    var ev := Upserted(db.events, item);
    Store(
      db.events[item.NaturalKey() := ev],
      AddIfAbsent(KeepOld(db.events, db.versions, item), ev, item.changedBy),
      db.outbox + [OutboxRowFor(ev, item.pos)])
  }

  /**
   From any store: when the content changes, the version before it stays readable under its own
   number, with the content it had unless that was kept already, and the event takes the next.
   */
  lemma {:induction false} OldVersionKept(db: Store, item: Item)
    requires item.NaturalKey() in db.events && db.events[item.NaturalKey()].content != item.data.content
    ensures var before, now := db.events[item.NaturalKey()], UpsertOne(db, item);
            var vk := VersionKey(before.id, before.version);
            && vk in now.versions
            && (if vk in db.versions then now.versions[vk] == db.versions[vk]
                else now.versions[vk] ==
                     Snapshot(before.content, before.schemaVersion, before.rawPayloadId, item.changedBy))
            && item.NaturalKey() in now.events
            && now.events[item.NaturalKey()].id == before.id
            && now.events[item.NaturalKey()].version == before.version + 1
  {
  }

  /** Upserting the items one call at a time. */
  function UpsertAll(db: Store, items: seq<Item>): Store {
    if items == [] then db
    else UpsertOne(UpsertAll(db, items[..|items| - 1]), items[|items| - 1])
  }

  lemma {:induction false} UpsertAllAppend(db: Store, items: seq<Item>, item: Item)
    ensures UpsertAll(db, items + [item]) == UpsertOne(UpsertAll(db, items), item)
  {
    assert (items + [item])[..|items|] == items;
  }

  lemma {:induction false} UpsertAllConcat(db: Store, a: seq<Item>, b: seq<Item>)
    ensures UpsertAll(db, a + b) == UpsertAll(UpsertAll(db, a), b)
    decreases |b|
  {
    if b == [] {
      assert a + b == a;
    } else {
      assert (a + b)[..|a + b| - 1] == a + b[..|b| - 1];
      UpsertAllConcat(db, a, b[..|b| - 1]);
    }
  }

  // ---- One call ---------------------------------------------------------------------------

  function KeysOf(batch: seq<EventCreate>): set<Key> {
    set e | e in batch :: e.NaturalKey()
  }

  lemma {:induction false} KeysOfAppend(batch: seq<EventCreate>, e: EventCreate)
    ensures KeysOf(batch + [e]) == KeysOf(batch) + {e.NaturalKey()}
  {
    assert forall x :: x in batch + [e] <==> x in batch || x == e;
    assert e in batch + [e];
  }

  /** The first event of each natural key, in order. */
  function FirstOccurrences(batch: seq<EventCreate>): (r: seq<EventCreate>)
    ensures |r| <= |batch|
    ensures KeysOf(r) == KeysOf(batch)
    ensures forall i, j :: 0 <= i < j < |r| ==> r[i].NaturalKey() != r[j].NaturalKey()
  {
    if batch == [] then []
    else
      var init, last := batch[..|batch| - 1], batch[|batch| - 1];
      var firsts := FirstOccurrences(init);
      KeysOfAppend(init, last);
      KeysOfAppend(firsts, last);
      assert batch == init + [last];
      assert forall i :: 0 <= i < |firsts| ==> firsts[i].NaturalKey() in KeysOf(firsts);
      if last.NaturalKey() in KeysOf(init) then firsts else firsts + [last]
  }

  lemma {:induction false} FirstOccurrenceIsFirst(batch: seq<EventCreate>, i: nat)
    requires i < |batch|
    requires forall j :: 0 <= j < i ==> batch[j].NaturalKey() != batch[i].NaturalKey()
    ensures batch[i] in FirstOccurrences(batch)
  {
    var init, last := batch[..|batch| - 1], batch[|batch| - 1];
    if i < |init| {
      FirstOccurrenceIsFirst(init, i);
    }
  }

  lemma {:induction false} FirstsSubmitted(batch: seq<EventCreate>, e: EventCreate)
    requires e in FirstOccurrences(batch)
    ensures e in batch
  {
    if e in FirstOccurrences(batch[..|batch| - 1]) {
      FirstsSubmitted(batch[..|batch| - 1], e);
    }
  }

  /** The items of one call: the events kept, each with its own UUID and outbox position. */
  function ItemsFor(deduped: seq<EventCreate>, ids: seq<Uuid>, positions: seq<Pos>, now: Time,
                    changedBy: Option<string>): (r: seq<Item>)
    requires |ids| >= |deduped| && |positions| >= |deduped|
    ensures |r| == |deduped|
    ensures forall i :: 0 <= i < |r| ==> r[i] == Item(deduped[i], ids[i], positions[i], now, changedBy)
  {
    seq(|deduped|, i requires 0 <= i < |deduped| => Item(deduped[i], ids[i], positions[i], now, changedBy))
  }

  /** What the constraints of the three tables guarantee. */
  ghost predicate Constraints(db: Store) {
    && (forall k :: k in db.events ==> db.events[k].NaturalKey() == k)
    && (forall k, l :: k in db.events && l in db.events && k != l ==> db.events[k].id != db.events[l].id)
  }

  /** UUIDs that no row uses yet. */
  ghost predicate FreshIds(db: Store, ids: seq<Uuid>) {
    && (forall i, j :: 0 <= i < j < |ids| ==> ids[i] != ids[j])
    && (forall i, k :: 0 <= i < |ids| && k in db.events ==> ids[i] != db.events[k].id)
  }

  ghost predicate DistinctKeys(items: seq<Item>) {
    forall i, j :: 0 <= i < j < |items| ==> items[i].NaturalKey() != items[j].NaturalKey()
  }

  // The bulk statements read every old row first, so all their effects are functions of the
  // table as it was before the call.

  function Merged(events: map<Key, Event>, items: seq<Item>): map<Key, Event> {
    if items == [] then events
    else
      var last := items[|items| - 1];
      Merged(events, items[..|items| - 1])[last.NaturalKey() := Upserted(events, last)]
  }

  function AllOldKept(events: map<Key, Event>, versions: map<VersionKey, Snapshot>, items: seq<Item>)
    : map<VersionKey, Snapshot>
  {
    if items == [] then versions
    else KeepOld(events, AllOldKept(events, versions, items[..|items| - 1]), items[|items| - 1])
  }

  function AllNewKept(events: map<Key, Event>, versions: map<VersionKey, Snapshot>, items: seq<Item>)
    : map<VersionKey, Snapshot>
  {
    if items == [] then versions
    else
      var last := items[|items| - 1];
      AddIfAbsent(AllNewKept(events, versions, items[..|items| - 1]), Upserted(events, last), last.changedBy)
  }

  function Enqueued(events: map<Key, Event>, items: seq<Item>): seq<OutboxRow> {
    if items == [] then []
    else
      var last := items[|items| - 1];
      Enqueued(events, items[..|items| - 1]) + [OutboxRowFor(Upserted(events, last), last.pos)]
  }

  lemma {:induction false} MergedAt(events: map<Key, Event>, items: seq<Item>, k: Key)
    requires DistinctKeys(items)
    ensures (forall i :: 0 <= i < |items| ==> items[i].NaturalKey() != k) ==>
              (k in Merged(events, items) <==> k in events) &&
              (k in events ==> Merged(events, items)[k] == events[k])
    ensures forall i :: 0 <= i < |items| && items[i].NaturalKey() == k ==>
              k in Merged(events, items) && Merged(events, items)[k] == Upserted(events, items[i])
  {
    if items != [] {
      MergedAt(events, items[..|items| - 1], k);
    }
  }

  /** Distinct keys mean distinct event ids, so the snapshots of two items never collide. */
  ghost predicate DistinctTargets(events: map<Key, Event>, items: seq<Item>) {
    forall i, j :: 0 <= i < j < |items| ==>
      Upserted(events, items[i]).id != Upserted(events, items[j]).id
  }

  lemma {:induction false} KeepOldCommutes(
    events: map<Key, Event>, versions: map<VersionKey, Snapshot>, items: seq<Item>, other: Item)
    requires forall i :: 0 <= i < |items| ==>
               Upserted(events, items[i]).id != Upserted(events, other).id
    ensures AllNewKept(events, KeepOld(events, versions, other), items) ==
            KeepOld(events, AllNewKept(events, versions, items), other)
  {
    if items != [] {
      KeepOldCommutes(events, versions, items[..|items| - 1], other);
    }
  }

  /** Reading all rows first and writing them all later equals upserting one event at a time. */
  lemma {:induction false} BulkRefinesSingle(db: Store, items: seq<Item>)
    requires DistinctKeys(items) && DistinctTargets(db.events, items)
    ensures UpsertAll(db, items) ==
            Store(Merged(db.events, items),
                  AllNewKept(db.events, AllOldKept(db.events, db.versions, items), items),
                  db.outbox + Enqueued(db.events, items))
  {
    if items != [] {
      var init, last := items[..|items| - 1], items[|items| - 1];
      BulkRefinesSingle(db, init);
      MergedAt(db.events, init, last.NaturalKey());
      OneMore(db, Merged(db.events, init), AllNewKept(db.events, AllOldKept(db.events, db.versions, init), init),
              db.outbox + Enqueued(db.events, init), last);
      KeepOldCommutes(db.events, AllOldKept(db.events, db.versions, init), init, last);
      var row := [OutboxRowFor(Upserted(db.events, last), last.pos)];
      assert db.outbox + Enqueued(db.events, init) + row == db.outbox + (Enqueued(db.events, init) + row);
    }
  }

  /** A table that agrees on the item's key gives the same row and snapshots. */
  lemma {:induction false} OneMore(db: Store, events: map<Key, Event>, versions: map<VersionKey, Snapshot>,
                outbox: seq<OutboxRow>, item: Item)
    requires item.NaturalKey() in events <==> item.NaturalKey() in db.events
    requires item.NaturalKey() in events ==> events[item.NaturalKey()] == db.events[item.NaturalKey()]
    ensures UpsertOne(Store(events, versions, outbox), item) ==
            Store(events[item.NaturalKey() := Upserted(db.events, item)],
                  AddIfAbsent(KeepOld(db.events, versions, item), Upserted(db.events, item), item.changedBy),
                  outbox + [OutboxRowFor(Upserted(db.events, item), item.pos)])
  {
  }

  lemma {:induction false} FreshTargetsDistinct(db: Store, items: seq<Item>, ids: seq<Uuid>)
    requires Constraints(db) && FreshIds(db, ids) && DistinctKeys(items)
    requires |items| <= |ids| && forall i :: 0 <= i < |items| ==> items[i].eventId == ids[i]
    ensures DistinctTargets(db.events, items)
  {
  }

  lemma {:induction false} FirstOfOne(e: EventCreate)
    ensures FirstOccurrences([e]) == [e]
  {
    assert [e][..0] == [];
    assert KeysOf([]) == {};
  }

  lemma {:induction false} SingleItem(
    db: Store, e: EventCreate, id: Uuid, pos: Pos, now: Time, changedBy: Option<string>)
    ensures var items := ItemsFor(FirstOccurrences([e]), [id], [pos], now, changedBy);
            items == [Item(e, id, pos, now, changedBy)] && UpsertAll(db, items) == UpsertOne(db, items[0])
  {
    FirstOfOne(e);
    UpsertAllAppend(db, [], Item(e, id, pos, now, changedBy));
    assert [] + [Item(e, id, pos, now, changedBy)] == [Item(e, id, pos, now, changedBy)];
  }

  class EventStore {
    var events: map<Key, Event>
    var versions: map<VersionKey, Snapshot>
    var outbox: seq<OutboxRow>

    ghost function State(): Store
      reads this
    {
      Store(events, versions, outbox)
    }

    constructor ()
      ensures State() == EMPTY
    {
      events, versions, outbox := map[], map[], [];
    }

    /** `upsert_events_bulk`. */
    method UpsertEventsBulk(batch: seq<EventCreate>, changedBy: Option<string>, now: Time,
                            ids: seq<Uuid>, positions: seq<Pos>)
      returns (results: seq<Event>)
      requires |ids| >= |batch| && |positions| >= |batch|
      requires Constraints(State()) && FreshIds(State(), ids)
      modifies this
      ensures var items := ItemsFor(FirstOccurrences(batch), ids, positions, now, changedBy);
              && State() == UpsertAll(old(State()), items)
              && |results| == |items|
              && forall i :: 0 <= i < |items| ==>
                   items[i].NaturalKey() in events && results[i] == events[items[i].NaturalKey()]
    {
      if batch == [] {
        return [];
      }
      var deduped := Deduplicate(batch);
      ghost var db := State();
      ghost var items := ItemsFor(deduped, ids, positions, now, changedBy);
      FreshTargetsDistinct(db, items, ids);
      BulkRefinesSingle(db, items);

      var rows := PrepareRows(deduped, changedBy, now, ids, items);
      InsertOnConflict(rows, items);
      SnapshotCurrent(deduped, changedBy, db.events, items);
      EnqueueAll(deduped, positions, db.events, items);

      results := Reload(deduped, db.events, items);
    }

    /** `upsert_event`: the bulk call on one event. */
    method UpsertEvent(e: EventCreate, changedBy: Option<string>, now: Time, id: Uuid, pos: Pos)
      returns (result: Event)
      requires Constraints(State()) && FreshIds(State(), [id])
      modifies this
      ensures State() == UpsertOne(old(State()), Item(e, id, pos, now, changedBy))
      ensures e.NaturalKey() in events && result == events[e.NaturalKey()]
    {
      SingleItem(State(), e, id, pos, now, changedBy);
      var results := UpsertEventsBulk([e], changedBy, now, [id], [pos]);
      result := results[0];
    }

    /** The rows as they are after the call, one per event kept. */
    method Reload(deduped: seq<EventCreate>, ghost before: map<Key, Event>, ghost items: seq<Item>)
      returns (results: seq<Event>)
      requires |deduped| == |items| && DistinctKeys(items) && events == Merged(before, items)
      requires forall i :: 0 <= i < |items| ==> items[i].data == deduped[i]
      ensures |results| == |items|
      ensures forall i :: 0 <= i < |items| ==>
                items[i].NaturalKey() in events && results[i] == events[items[i].NaturalKey()]
    {
      results := [];
      for i := 0 to |deduped|
        invariant |results| == i
        invariant forall j :: 0 <= j < i ==>
                    items[j].NaturalKey() in events && results[j] == events[items[j].NaturalKey()]
      {
        MergedAt(before, items, items[i].NaturalKey());
        if deduped[i].NaturalKey() in events {
          results := results + [events[deduped[i].NaturalKey()]];
        }
      }
    }

    /** A single INSERT cannot target a conflict key twice, so later repeats are dropped. */
    method Deduplicate(batch: seq<EventCreate>) returns (deduped: seq<EventCreate>)
      ensures deduped == FirstOccurrences(batch)
    {
      deduped := [];
      var seen: set<Key> := {};
      for i := 0 to |batch|
        invariant deduped == FirstOccurrences(batch[..i])
        invariant seen == KeysOf(batch[..i])
      {
        assert batch[..i + 1] == batch[..i] + [batch[i]];
        KeysOfAppend(batch[..i], batch[i]);
        if batch[i].NaturalKey() !in seen {
          seen := seen + {batch[i].NaturalKey()};
          deduped := deduped + [batch[i]];
        }
      }
      assert batch[..|batch|] == batch;
    }

    /** Computes each target version and snapshots the versions about to be overwritten. */
    method PrepareRows(deduped: seq<EventCreate>, changedBy: Option<string>, now: Time,
                       ids: seq<Uuid>, ghost items: seq<Item>)
      returns (rows: seq<Event>)
      requires |items| == |deduped| <= |ids|
      requires forall i :: 0 <= i < |items| ==>
                 items[i] == Item(deduped[i], ids[i], items[i].pos, now, changedBy)
      modifies this`versions
      ensures versions == AllOldKept(events, old(versions), items)
      ensures |rows| == |items|
      ensures forall i :: 0 <= i < |items| ==> rows[i] == RowFor(events, items[i])
    {
      rows := [];
      for i := 0 to |deduped|
        invariant versions == AllOldKept(events, old(versions), items[..i])
        invariant |rows| == i
        invariant forall j :: 0 <= j < i ==> rows[j] == RowFor(events, items[j])
      {
        var e := deduped[i];
        var version := 1;
        assert items[..i + 1][..i] == items[..i];
        if e.NaturalKey() in events {
          var existing := events[e.NaturalKey()];
          var contentChanged := existing.content != e.content;
          version := if contentChanged then existing.version + 1 else existing.version;
          if contentChanged && VersionOf(existing) !in versions {
            versions := versions[VersionOf(existing) := SnapshotOf(existing, changedBy)];
          }
        }
        rows := rows + [Event(ids[i], e.source, e.externalId, e.authorId, e.authorName, e.content,
                              e.eventType, e.timestamp, e.rawPayloadId, e.schemaVersion, version, now, now)];
      }
      assert items[..|items|] == items;
    }

    /** INSERT ... ON CONFLICT (source, external_id) DO UPDATE. */
    method InsertOnConflict(rows: seq<Event>, ghost items: seq<Item>)
      requires |rows| == |items| && DistinctKeys(items)
      requires forall i :: 0 <= i < |items| ==> rows[i] == RowFor(events, items[i])
      modifies this`events
      ensures events == Merged(old(events), items)
    {
      for i := 0 to |rows|
        invariant events == Merged(old(events), items[..i])
      {
        assert items[..i + 1][..i] == items[..i];
        MergedAt(old(events), items[..i], items[i].NaturalKey());
        var row := rows[i];
        var key := row.NaturalKey();
        if key in events {
          var existing := events[key];
          events := events[key := Event(
            existing.id, existing.source, existing.externalId, row.authorId, row.authorName,
            row.content, row.eventType, row.timestamp, row.rawPayloadId, row.schemaVersion,
            row.version, existing.createdAt, row.updatedAt)];
        } else {
          events := events[key := row];
        }
      }
      assert items[..|items|] == items;
    }

    /** Snapshots the current version of every reloaded event. */
    method SnapshotCurrent(deduped: seq<EventCreate>, changedBy: Option<string>,
                           ghost before: map<Key, Event>, ghost items: seq<Item>)
      requires |deduped| == |items| && DistinctKeys(items) && events == Merged(before, items)
      requires forall i :: 0 <= i < |items| ==>
                 items[i].data == deduped[i] && items[i].changedBy == changedBy
      modifies this`versions
      ensures versions == AllNewKept(before, old(versions), items)
    {
      for i := 0 to |deduped|
        invariant versions == AllNewKept(before, old(versions), items[..i])
      {
        assert items[..i + 1][..i] == items[..i];
        MergedAt(before, items, items[i].NaturalKey());
        if deduped[i].NaturalKey() in events {
          var ev := events[deduped[i].NaturalKey()];
          if VersionOf(ev) !in versions {
            versions := versions[VersionOf(ev) := SnapshotOf(ev, changedBy)];
          }
        }
      }
      assert items[..|items|] == items;
    }

    method EnqueueAll(deduped: seq<EventCreate>, positions: seq<Pos>,
                      ghost before: map<Key, Event>, ghost items: seq<Item>)
      requires |deduped| == |items| <= |positions| && DistinctKeys(items) && events == Merged(before, items)
      requires forall i :: 0 <= i < |items| ==>
                 items[i].data == deduped[i] && items[i].pos == positions[i]
      modifies this`outbox
      ensures outbox == old(outbox) + Enqueued(before, items)
    {
      for i := 0 to |deduped|
        invariant outbox == old(outbox) + Enqueued(before, items[..i])
      {
        assert items[..i + 1][..i] == items[..i];
        MergedAt(before, items, items[i].NaturalKey());
        if deduped[i].NaturalKey() in events {
          EnqueueEvent(events[deduped[i].NaturalKey()], positions[i]);
        }
      }
      assert items[..|items|] == items;
    }

    /** `enqueue_event`: appends to the outbox within the caller's transaction. */
    method EnqueueEvent(ev: Event, pos: Pos)
      modifies this`outbox
      ensures outbox == old(outbox) + [OutboxRowFor(ev, pos)]
      ensures var row := outbox[|outbox| - 1];
              && row.pos == pos && row.status == Pending && row.attempts == 0
              && row.lastError == None && row.publishedAt == None
              && row.change.eventId == ev.id && row.change.source == ev.source
              && row.change.externalId == ev.externalId && row.change.eventType == ev.eventType
              && row.change.content == ev.content && row.change.version == ev.version
              && row.change.schemaVersion == ev.schemaVersion
    {
      outbox := outbox + [OutboxRow(pos, ChangeOf(ev), Pending, 0, None, None)];
    }
  }
}
