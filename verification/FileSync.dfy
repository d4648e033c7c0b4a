/**
 The incremental sync of a file store: list what changed since the cursor, upsert it, and
 advance the cursor, all in one transaction.
 */
module FileSync {
  import opened Basics
  import opened Keyset
  import opened Schema
  import opened Events
  import opened Digits

  const SOURCE := "filestore"
  const CONTENT_SCHEMA_VERSION := 1

  datatype Object = Object(key: string, size: nat, etag: string, lastModified: Option<Time>)

  // ---- Listing ----------------------------------------------------------------------------

  /** Listed again: anything not known to be at or behind the cursor. */
  predicate Offered(o: Object, since: Option<Time>) {
    since.None? || o.lastModified.None? || o.lastModified.value > since.value
  }

  function Listed(objects: seq<Object>, since: Option<Time>): (r: seq<Object>)
    ensures |r| <= |objects|
  {
    if objects == [] then []
    else
      var last := objects[|objects| - 1];
      Listed(objects[..|objects| - 1], since) + (if Offered(last, since) then [last] else [])
  }

  /** Just the objects whose last-modified time is not known to be at or before the cursor. */
  lemma {:induction false} ListedIff(objects: seq<Object>, since: Option<Time>, o: Object)
    ensures o in Listed(objects, since) <==>
            && o in objects
            && (since.None? || o.lastModified.None? || since.value < o.lastModified.value)
  {
    if objects != [] {
      ListedIff(objects[..|objects| - 1], since, o);
      assert objects == objects[..|objects| - 1] + [objects[|objects| - 1]];
    }
  }

  function Flatten(pages: seq<seq<Object>>): seq<Object> {
    if pages == [] then [] else Flatten(pages[..|pages| - 1]) + pages[|pages| - 1]
  }

  lemma {:induction false} ListedAppend(objects: seq<Object>, o: Object, since: Option<Time>)
    ensures Listed(objects + [o], since) ==
            if Offered(o, since) then Listed(objects, since) + [o] else Listed(objects, since)
  {
    assert (objects + [o])[..|objects|] == objects;
  }

  lemma {:induction false} ListedNext(before: seq<Object>, page: seq<Object>, j: nat, since: Option<Time>)
    requires j < |page|
    ensures Listed(before + page[..j + 1], since) ==
            if Offered(page[j], since) then Listed(before + page[..j], since) + [page[j]]
            else Listed(before + page[..j], since)
  {
    assert before + page[..j + 1] == before + page[..j] + [page[j]];
    ListedAppend(before + page[..j], page[j], since);
  }

  lemma {:induction false} FlattenNext(pages: seq<seq<Object>>, i: nat)
    requires i < |pages|
    ensures Flatten(pages[..i + 1]) == Flatten(pages[..i]) + pages[i][..|pages[i]|]
  {
    assert pages[..i + 1][..i] == pages[..i];
    assert pages[i][..|pages[i]|] == pages[i];
  }

  // ---- Normalizing ------------------------------------------------------------------------

  function ExternalId(bucket: string, key: string): string {
    "filestore-" + bucket + "-" + key
  }

  function ContentOf(o: Object): string {
    "File: " + o.key + " (" + Decimal(o.size) + " bytes)"
  }

  function KeyOf(bucket: string, o: Object): Key {
    Key(SOURCE, ExternalId(bucket, o.key))
  }

  /** `normalize`: an object without a key gives no event. */
  function Normalize(bucket: string, o: Object, rawPayloadId: Uuid, now: Time): Option<EventCreate> {
    if o.key == "" then None
    else
      Some(EventCreate(SOURCE, ExternalId(bucket, o.key), bucket, bucket, ContentOf(o), "file",
                       if o.lastModified.Some? then o.lastModified.value else now,
                       Some(rawPayloadId), CONTENT_SCHEMA_VERSION))
  }

  // ---- One sync ---------------------------------------------------------------------------

  /** How it ends: the fetch raises, it raises before the commit, or it commits. */
  datatype Fate = FetchFailed | Failed(upserted: bool) | Committed

  /** The pages of the bucket at the time, and the values that the sync draws. */
  datatype Poll = Poll(
    pages: seq<seq<Object>>, fate: Fate, correlationId: string, now: Time,
    rawPayloadId: Object -> Uuid, ids: seq<Uuid>, positions: seq<Pos>)
  {
    function Objects(): seq<Object> { Flatten(pages) }

    ghost predicate Supplied() {
      |ids| >= |Objects()| && |positions| >= |Objects()|
    }
  }

  function Normalized(bucket: string, objects: seq<Object>, p: Poll): (r: seq<EventCreate>)
    ensures |r| <= |objects|
  {
    if objects == [] then []
    else
      var last := objects[|objects| - 1];
      var e := Normalize(bucket, last, p.rawPayloadId(last), p.now);
      Normalized(bucket, objects[..|objects| - 1], p) + (if e.Some? then [e.value] else [])
  }

  lemma {:induction false} NormalizedAppend(bucket: string, objects: seq<Object>, o: Object, p: Poll)
    ensures Normalized(bucket, objects + [o], p) ==
            var e := Normalize(bucket, o, p.rawPayloadId(o), p.now);
            if e.Some? then Normalized(bucket, objects, p) + [e.value] else Normalized(bucket, objects, p)
  {
    assert (objects + [o])[..|objects|] == objects;
  }

  /** The latest timestamp of a batch. */
  function Latest(batch: seq<EventCreate>): (r: Option<Time>)
    ensures r.None? <==> batch == []
    ensures r.Some? ==> forall i :: 0 <= i < |batch| ==> batch[i].timestamp <= r.value
    ensures r.Some? ==> exists i :: 0 <= i < |batch| && batch[i].timestamp == r.value
  {
    if batch == [] then None
    else
      var init, ts := Latest(batch[..|batch| - 1]), batch[|batch| - 1].timestamp;
      if init.None? || ts > init.value then Some(ts) else init
  }

  /** The events a sync submits when it lists everything past `since`. */
  function Fetched(bucket: string, p: Poll, since: Option<Time>): (r: seq<EventCreate>)
    ensures |r| <= |p.Objects()|
  {
    Normalized(bucket, Listed(p.Objects(), since), p)
  }

  function ItemsOf(bucket: string, p: Poll, since: Option<Time>): seq<Item>
    requires p.Supplied()
  {
    ItemsFor(FirstOccurrences(Fetched(bucket, p, since)), p.ids, p.positions, p.now, Some(p.correlationId))
  }

  /** The committed store and the committed cursor. */
  datatype State = State(db: Store, cursor: Option<Time>)

  function Synced(bucket: string, s: State, p: Poll, since: Option<Time>): State
    requires p.Supplied()
  {
    if p.fate != Committed then s
    else
      var latest := Latest(Fetched(bucket, p, since));
      State(UpsertAll(s.db, ItemsOf(bucket, p, since)), if latest.Some? then latest else s.cursor)
  }

  /**
   A committed sync upserts what it fetched, in the name of its correlation id, and its cursor is the
   latest timestamp among that, or stays if nothing was fetched; any other sync changes nothing.
   */
  lemma {:induction false} SyncedIs(bucket: string, s: State, p: Poll, since: Option<Time>)
    requires p.Supplied()
    ensures p.fate != Committed ==> Synced(bucket, s, p, since) == s
    ensures p.fate == Committed ==>
              var fetched, after := Fetched(bucket, p, since), Synced(bucket, s, p, since);
              var items := ItemsOf(bucket, p, since);
              && after.db == UpsertAll(s.db, items)
              && (forall i :: 0 <= i < |items| ==>
                    items[i].data in fetched && items[i].now == p.now && items[i].changedBy == Some(p.correlationId))
              && (if fetched == [] then after.cursor == s.cursor
                  else
                    && after.cursor.Some?
                    && (exists i :: 0 <= i < |fetched| && fetched[i].timestamp == after.cursor.value)
                    && forall i :: 0 <= i < |fetched| ==> fetched[i].timestamp <= after.cursor.value)
  {
    if p.fate == Committed {
      var fetched := Fetched(bucket, p, since);
      forall e | e in FirstOccurrences(fetched) ensures e in fetched {
        FirstsSubmitted(fetched, e);
      }
    }
  }

  class ConnectorSync {
    const bucket: string
    const store: EventStore
    var cursor: Option<Time>

    ghost function Current(): State
      reads this, store
    {
      State(store.State(), cursor)
    }

    constructor (bucket: string, store: EventStore)
      ensures this.bucket == bucket && this.store == store && cursor == None
    {
      this.bucket, this.store, cursor := bucket, store, None;
    }

    /** `list_objects`. */
    method ListObjects(pages: seq<seq<Object>>, since: Option<Time>) returns (objects: seq<Object>)
      ensures objects == Listed(Flatten(pages), since)
    {
      objects := [];
      for i := 0 to |pages|
        invariant objects == Listed(Flatten(pages[..i]), since)
      {
        var page := pages[i];
        ghost var listed := Flatten(pages[..i]);
        assert listed + page[..0] == listed;
        for j := 0 to |page|
          invariant objects == Listed(listed + page[..j], since)
        {
          ListedNext(listed, page, j, since);
          var lastModified := page[j].lastModified;
          if since.Some? && lastModified.Some? && lastModified.value <= since.value {
            continue;
          }
          objects := objects + [page[j]];
        }
        FlattenNext(pages, i);
      }
      assert pages[..|pages|] == pages;
    }

    method NormalizeAll(rawItems: seq<Object>, p: Poll) returns (batch: seq<EventCreate>, maxTs: Option<Time>)
      ensures batch == Normalized(bucket, rawItems, p) && maxTs == Latest(batch)
    {
      batch, maxTs := [], None;
      for i := 0 to |rawItems|
        invariant batch == Normalized(bucket, rawItems[..i], p) && maxTs == Latest(batch)
      {
        NormalizedAppend(bucket, rawItems[..i], rawItems[i], p);
        assert rawItems[..i + 1] == rawItems[..i] + [rawItems[i]];
        var raw := rawItems[i];
        var e := Normalize(bucket, raw, p.rawPayloadId(raw), p.now);
        if e.Some? {
          assert (batch + [e.value])[..|batch|] == batch;
          batch := batch + [e.value];
          if maxTs.None? || e.value.timestamp > maxTs.value {
            maxTs := Some(e.value.timestamp);
          }
        }
      }
      assert rawItems[..|rawItems|] == rawItems;
    }

    /** `run_connector_sync`: events and cursor are committed together or not at all. */
    method RunConnectorSync(p: Poll) returns (created: Option<nat>)
      requires p.Supplied() && Constraints(store.State()) && FreshIds(store.State(), p.ids)
      modifies this`cursor, store
      ensures Current() == Synced(bucket, old(Current()), p, old(cursor))
      ensures created == if p.fate == Committed then Some(|ItemsOf(bucket, p, old(cursor))|) else None
    {
      var cursorBefore, eventsBefore, versionsBefore, outboxBefore :=
        cursor, store.events, store.versions, store.outbox;
      if p.fate == FetchFailed {
        return None;
      }
      var rawItems := ListObjects(p.pages, cursor);
      var batch, maxTs := NormalizeAll(rawItems, p);
      var results: seq<Event> := [];
      if batch != [] && p.fate != Failed(false) {
        results := store.UpsertEventsBulk(batch, Some(p.correlationId), p.now, p.ids, p.positions);
      }
      if maxTs.Some? {
        cursor := maxTs;
      }
      if p.fate != Committed {
        cursor := cursorBefore;
        store.events, store.versions, store.outbox := eventsBefore, versionsBefore, outboxBefore;
        return None;
      }
      return Some(|results|);
    }
  }
}
