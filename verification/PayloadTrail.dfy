/**
 From an event of the file sync back to its source: every version that is kept names a raw payload,
 and loading that gives the listing entry of the object whose content the version has.
 */
module PayloadTrail {
  import opened Basics
  import opened Digits
  import opened Schema
  import opened Events
  import opened History
  import opened Audit
  import opened FileSync
  import P = RawPayloads
  import S = SyncRefinement

  const OPERATION := "filestore_poll"

  /** An object as it is listed; its time becomes text only in the JSON form. */
  function RawItem(o: Object): P.Value {
    P.Fields(map[
      "key" := P.Text(o.key),
      "size" := P.Number(o.size),
      "etag" := P.Text(o.etag),
      "last_modified" := if o.lastModified.Some? then P.Timestamp(o.lastModified.value) else P.Null])
  }

  // ---- Several saves ----------------------------------------------------------------------

  ghost function SavedAll(raw: P.Db, saves: seq<P.Save>, c: P.Codec, g: P.Settings): P.Db {
    if saves == [] then raw
    else P.Saved(SavedAll(raw, saves[..|saves| - 1], c, g), saves[|saves| - 1], c, g)
  }

  ghost predicate LegalSaves(raw: P.Db, saves: seq<P.Save>, c: P.Codec, g: P.Settings) {
    saves != [] ==>
      && LegalSaves(raw, saves[..|saves| - 1], c, g)
      && P.Legal(SavedAll(raw, saves[..|saves| - 1], c, g), saves[|saves| - 1], c, g)
  }

  lemma {:induction false} KeepsOn(a: P.Db, b: P.Db, d: P.Db, g: P.Settings)
    requires P.Keeps(a, b, g) && P.Keeps(b, d, g)
    ensures P.Keeps(a, d, g)
  {
  }

  lemma {:induction false} SavesKeep(raw: P.Db, saves: seq<P.Save>, c: P.Codec, g: P.Settings)
    requires P.Sound(raw, c, g) && LegalSaves(raw, saves, c, g)
    ensures P.Sound(SavedAll(raw, saves, c, g), c, g) && P.Keeps(raw, SavedAll(raw, saves, c, g), g)
  {
    if saves != [] {
      var init, last := saves[..|saves| - 1], saves[|saves| - 1];
      SavesKeep(raw, init, c, g);
      P.SavedSound(SavedAll(raw, init, c, g), last, c, g);
      KeepsOn(raw, SavedAll(raw, init, c, g), SavedAll(raw, saves, c, g), g);
    }
  }

  /** The row loads the JSON form of the payload. */
  ghost predicate Loads(raw: P.Db, id: Uuid, payload: P.Value, c: P.Codec, g: P.Settings) {
    id in raw.rows && P.Loaded(raw, id, g) == Some(P.Coerced(payload, c.show))
  }

  lemma {:induction false} LoadsOn(a: P.Db, b: P.Db, id: Uuid, payload: P.Value, c: P.Codec, g: P.Settings)
    requires P.Keeps(a, b, g) && Loads(a, id, payload, c, g)
    ensures Loads(b, id, payload, c, g)
  {
  }

  /** `id` answers the `j`-th of the saves. */
  ghost predicate Answers(raw: P.Db, saves: seq<P.Save>, j: nat, id: Uuid, c: P.Codec, g: P.Settings) {
    j < |saves| && P.Answers(SavedAll(raw, saves[..j], c, g), saves[j], c, g, id)
  }

  lemma {:induction false} AnswerLoads(
    raw: P.Db, saves: seq<P.Save>, j: nat, id: Uuid, c: P.Codec, g: P.Settings)
    requires P.Sound(raw, c, g) && LegalSaves(raw, saves, c, g) && c.Injective() && Answers(raw, saves, j, id, c, g)
    ensures Loads(SavedAll(raw, saves, c, g), id, saves[j].payload, c, g)
    decreases |saves|
  {
    var init, last := saves[..|saves| - 1], saves[|saves| - 1];
    SavesKeep(raw, init, c, g);
    if j == |init| {
      P.SaveThenLoad(SavedAll(raw, init, c, g), last, c, g, id);
    } else {
      assert init[..j] == saves[..j];
      AnswerLoads(raw, init, j, id, c, g);
      P.SavedSound(SavedAll(raw, init, c, g), last, c, g);
      LoadsOn(SavedAll(raw, init, c, g), SavedAll(raw, saves, c, g), id, saves[j].payload, c, g);
    }
  }

  // ---- One sync ---------------------------------------------------------------------------

  /** A sync and the raw payloads it saved, in the order of the listing, before it ended. */
  datatype Step = Step(poll: Poll, saves: seq<P.Save>)

  ghost predicate SavesListing(raw: P.Db, step: Step, since: Option<Time>, c: P.Codec, g: P.Settings) {
    var objects := Listed(step.poll.Objects(), since);
    && |step.saves| <= |objects|
    && (step.poll.fate == Committed ==> |step.saves| == |objects|)
    && LegalSaves(raw, step.saves, c, g)
    && forall j :: 0 <= j < |step.saves| ==> SavesObject(raw, step, j, objects[j], c, g)
  }

  ghost predicate SavesObject(raw: P.Db, step: Step, j: nat, o: Object, c: P.Codec, g: P.Settings) {
    && j < |step.saves|
    && step.saves[j].source == OPERATION
    && step.saves[j].payload == RawItem(o)
    && step.saves[j].correlationId == step.poll.correlationId
    && Answers(raw, step.saves, j, step.poll.rawPayloadId(o), c, g)
  }

  /** A rollback takes back the rows, but not the objects put. */
  ghost function RawAfter(raw: P.Db, step: Step, c: P.Codec, g: P.Settings): P.Db {
    var saved := SavedAll(raw, step.saves, c, g);
    if step.poll.fate == Committed then saved else P.Db(raw.rows, saved.objects)
  }

  lemma {:induction false} RollbackKeeps(raw: P.Db, saved: P.Db, c: P.Codec, g: P.Settings)
    requires P.Sound(raw, c, g) && P.Keeps(raw, saved, g)
    ensures P.Sound(P.Db(raw.rows, saved.objects), c, g) && P.Keeps(raw, P.Db(raw.rows, saved.objects), g)
  {
    var rolledBack := P.Db(raw.rows, saved.objects);
    forall id | id in raw.rows
      ensures P.Loaded(rolledBack, id, g) == P.Loaded(raw, id, g) && P.RowSound(rolledBack, id, c, g)
    {
      assert P.RowSound(raw, id, c, g);
      assert saved.rows[id] == raw.rows[id];
    }
  }

  lemma {:induction false} StepKeeps(raw: P.Db, step: Step, since: Option<Time>, c: P.Codec, g: P.Settings)
    requires P.Sound(raw, c, g) && SavesListing(raw, step, since, c, g)
    ensures P.Sound(RawAfter(raw, step, c, g), c, g) && P.Keeps(raw, RawAfter(raw, step, c, g), g)
  {
    SavesKeep(raw, step.saves, c, g);
    RollbackKeeps(raw, SavedAll(raw, step.saves, c, g), c, g);
  }

  // ---- What an event leads back to --------------------------------------------------------

  /** These columns are those of the object, and the payload loads its listing entry. */
  ghost predicate LeadsTo(
    content: string, rawPayloadId: Option<Uuid>, k: Key, o: Object,
    bucket: string, raw: P.Db, c: P.Codec, g: P.Settings)
  {
    && k.source == "filestore" && k.externalId == "filestore-" + bucket + "-" + o.key && o.key != ""
    && content == "File: " + o.key + " (" + Decimal(o.size) + " bytes)"
    && rawPayloadId.Some? && Loads(raw, rawPayloadId.value, RawItem(o), c, g)
  }

  ghost predicate Traceable(
    content: string, rawPayloadId: Option<Uuid>, k: Key, bucket: string, raw: P.Db, c: P.Codec, g: P.Settings)
  {
    exists o :: LeadsTo(content, rawPayloadId, k, o, bucket, raw, c, g)
  }

  /** The other columns: the bucket is the author, and the last-modified time is the event's, if known. */
  ghost predicate OtherColumns(
    authorId: string, authorName: string, eventType: string, timestamp: Time, schemaVersion: int,
    o: Object, bucket: string)
  {
    && authorId == bucket && authorName == bucket && eventType == "file" && schemaVersion == 1
    && (o.lastModified.Some? ==> timestamp == o.lastModified.value)
  }

  ghost predicate EventLeadsTo(e: EventCreate, o: Object, bucket: string, raw: P.Db, c: P.Codec, g: P.Settings) {
    && LeadsTo(e.content, e.rawPayloadId, e.NaturalKey(), o, bucket, raw, c, g)
    && OtherColumns(e.authorId, e.authorName, e.eventType, e.timestamp, e.schemaVersion, o, bucket)
  }

  ghost predicate EventTraceable(e: EventCreate, bucket: string, raw: P.Db, c: P.Codec, g: P.Settings) {
    exists o :: EventLeadsTo(e, o, bucket, raw, c, g)
  }

  /** A row of the events table, in all its columns. */
  ghost predicate RowLeadsTo(ev: Event, o: Object, bucket: string, raw: P.Db, c: P.Codec, g: P.Settings) {
    && LeadsTo(ev.content, ev.rawPayloadId, Key(ev.source, ev.externalId), o, bucket, raw, c, g)
    && OtherColumns(ev.authorId, ev.authorName, ev.eventType, ev.timestamp, ev.schemaVersion, o, bucket)
  }

  ghost predicate RowTraceable(ev: Event, bucket: string, raw: P.Db, c: P.Codec, g: P.Settings) {
    exists o :: RowLeadsTo(ev, o, bucket, raw, c, g)
  }

  lemma {:induction false} TraceableOn(
    e: EventCreate, bucket: string, a: P.Db, b: P.Db, c: P.Codec, g: P.Settings)
    requires EventTraceable(e, bucket, a, c, g) && P.Keeps(a, b, g)
    ensures EventTraceable(e, bucket, b, c, g)
  {
    var o :| EventLeadsTo(e, o, bucket, a, c, g);
    LoadsOn(a, b, e.rawPayloadId.value, RawItem(o), c, g);
    assert EventLeadsTo(e, o, bucket, b, c, g);
  }

  lemma {:induction false} NormalizedFrom(bucket: string, objects: seq<Object>, p: Poll, e: EventCreate)
    returns (j: nat)
    requires e in Normalized(bucket, objects, p)
    ensures j < |objects| && Normalize(bucket, objects[j], p.rawPayloadId(objects[j]), p.now) == Some(e)
  {
    var init, last := objects[..|objects| - 1], objects[|objects| - 1];
    if e in Normalized(bucket, init, p) {
      j := NormalizedFrom(bucket, init, p, e);
    } else {
      j := |init|;
    }
  }

  /** What a sync submits, in all columns: an object without a time gets the sync's. */
  lemma {:induction false} FetchedTells(bucket: string, p: Poll, since: Option<Time>, e: EventCreate)
    requires e in Fetched(bucket, p, since)
    ensures exists o ::
              && o in Listed(p.Objects(), since) && o.key != ""
              && e.source == "filestore" && e.externalId == "filestore-" + bucket + "-" + o.key
              && e.content == "File: " + o.key + " (" + Decimal(o.size) + " bytes)"
              && OtherColumns(e.authorId, e.authorName, e.eventType, e.timestamp, e.schemaVersion, o, bucket)
              && (o.lastModified.None? ==> e.timestamp == p.now)
              && e.rawPayloadId == Some(p.rawPayloadId(o))
  {
    var j := NormalizedFrom(bucket, Listed(p.Objects(), since), p, e);
    var o := Listed(p.Objects(), since)[j];
    assert o in Listed(p.Objects(), since);
  }

  /** Whatever a committed sync submits is traceable at its commit. */
  lemma {:induction false} SubmitsTraceable(
    bucket: string, raw: P.Db, step: Step, since: Option<Time>, c: P.Codec, g: P.Settings, e: EventCreate)
    requires P.Sound(raw, c, g) && SavesListing(raw, step, since, c, g) && c.Injective()
    requires step.poll.fate == Committed && e in FirstOccurrences(Fetched(bucket, step.poll, since))
    ensures EventTraceable(e, bucket, RawAfter(raw, step, c, g), c, g)
  {
    var objects := Listed(step.poll.Objects(), since);
    FirstsSubmitted(Fetched(bucket, step.poll, since), e);
    var j := NormalizedFrom(bucket, objects, step.poll, e);
    assert SavesObject(raw, step, j, objects[j], c, g);
    AnswerLoads(raw, step.saves, j, step.poll.rawPayloadId(objects[j]), c, g);
    assert EventLeadsTo(e, objects[j], bucket, RawAfter(raw, step, c, g), c, g);
  }

  // ---- Runs -------------------------------------------------------------------------------

  function Polls(steps: seq<Step>): (r: seq<Poll>)
    ensures |r| == |steps| && forall i :: 0 <= i < |r| ==> r[i] == steps[i].poll
  {
    seq(|steps|, i requires 0 <= i < |steps| => steps[i].poll)
  }

  lemma {:induction false} PollsInit(steps: seq<Step>)
    requires steps != []
    ensures var n := |steps| - 1;
            Polls(steps)[..n] == Polls(steps[..n]) && Polls(steps)[n] == steps[n].poll
  {
  }

  ghost function RawRun(steps: seq<Step>, c: P.Codec, g: P.Settings): P.Db {
    if steps == [] then P.EMPTY
    else RawAfter(RawRun(steps[..|steps| - 1], c, g), steps[|steps| - 1], c, g)
  }

  ghost predicate Legal(bucket: string, steps: seq<Step>, c: P.Codec, g: P.Settings) {
    && (forall i :: 0 <= i < |steps| ==> steps[i].poll.Supplied())
    && (steps != [] ==>
          var init := steps[..|steps| - 1];
          && Legal(bucket, init, c, g)
          && SavesListing(RawRun(init, c, g), steps[|steps| - 1], S.Run(bucket, Polls(init), false).cursor, c, g))
  }

  ghost predicate AllTraceable(items: seq<Item>, bucket: string, raw: P.Db, c: P.Codec, g: P.Settings) {
    forall i :: 0 <= i < |items| ==> EventTraceable(items[i].data, bucket, raw, c, g)
  }

  lemma {:induction false} StayTraceable(
    items: seq<Item>, bucket: string, a: P.Db, b: P.Db, c: P.Codec, g: P.Settings)
    requires AllTraceable(items, bucket, a, c, g) && P.Keeps(a, b, g)
    ensures AllTraceable(items, bucket, b, c, g)
  {
    forall i | 0 <= i < |items| ensures EventTraceable(items[i].data, bucket, b, c, g) {
      TraceableOn(items[i].data, bucket, a, b, c, g);
    }
  }

  lemma {:induction false} NewTraceable(
    bucket: string, raw: P.Db, step: Step, since: Option<Time>, c: P.Codec, g: P.Settings)
    requires P.Sound(raw, c, g) && SavesListing(raw, step, since, c, g) && c.Injective()
    requires step.poll.Supplied() && step.poll.fate == Committed
    ensures AllTraceable(FileSync.ItemsOf(bucket, step.poll, since), bucket, RawAfter(raw, step, c, g), c, g)
  {
    var items := FileSync.ItemsOf(bucket, step.poll, since);
    forall i | 0 <= i < |items| ensures EventTraceable(items[i].data, bucket, RawAfter(raw, step, c, g), c, g) {
      SubmitsTraceable(bucket, raw, step, since, c, g, items[i].data);
    }
  }

  lemma {:induction false} RunTraceable(bucket: string, steps: seq<Step>, c: P.Codec, g: P.Settings)
    requires Legal(bucket, steps, c, g) && c.Injective()
    ensures P.Sound(RawRun(steps, c, g), c, g)
    ensures AllTraceable(S.Submitted(bucket, Polls(steps), false), bucket, RawRun(steps, c, g), c, g)
  {
    if steps != [] {
      var init, last := steps[..|steps| - 1], steps[|steps| - 1];
      var raw, since := RawRun(init, c, g), S.Run(bucket, Polls(init), false).cursor;
      PollsInit(steps);
      RunTraceable(bucket, init, c, g);
      StepKeeps(raw, last, since, c, g);
      StayTraceable(S.Submitted(bucket, Polls(init), false), bucket, raw, RawAfter(raw, last, c, g), c, g);
      if last.poll.fate == Committed {
        NewTraceable(bucket, raw, last, since, c, g);
      }
    }
  }

  lemma {:induction false} StartsSubmitted(k: Key, items: seq<Item>, item: Item)
    requires item in Starts(k, items)
    ensures item in items && item.NaturalKey() == k
  {
    if item in Starts(k, items[..|items| - 1]) {
      StartsSubmitted(k, items[..|items| - 1], item);
    }
  }

  /** Version `v` of the event is kept, and leads back to an object. */
  ghost predicate VersionTraceable(
    db: Store, ev: Event, v: int, bucket: string, raw: P.Db, c: P.Codec, g: P.Settings)
  {
    var vk := VersionKey(ev.id, v);
    && vk in db.versions
    && Traceable(db.versions[vk].content, db.versions[vk].rawPayloadId, ev.NaturalKey(), bucket, raw, c, g)
  }

  lemma {:induction false} StartTraceable(
    db: Store, k: Key, items: seq<Item>, v: int, bucket: string, raw: P.Db, c: P.Codec, g: P.Settings)
    requires AllTraceable(items, bucket, raw, c, g) && Attributed(db, k, Starts(k, items))
    requires k in db.events && db.events[k].NaturalKey() == k && 1 <= v <= db.events[k].version
    ensures VersionTraceable(db, db.events[k], v, bucket, raw, c, g)
  {
    var item := Starts(k, items)[v - 1];
    assert TakenAt(db.versions, db.events[k].id, v - 1 + 1, item);
    StartsSubmitted(k, items, item);
    var i :| 0 <= i < |items| && items[i] == item;
    assert EventTraceable(items[i].data, bucket, raw, c, g);
    var o :| EventLeadsTo(item.data, o, bucket, raw, c, g);
    assert LeadsTo(item.data.content, item.data.rawPayloadId, k, o, bucket, raw, c, g);
  }

  lemma {:induction false} RowFromItem(
    ev: Event, first: Item, last: Item, bucket: string, raw: P.Db, c: P.Codec, g: P.Settings)
    requires ShowsFirstAndLast(ev, first, last) && EventTraceable(last.data, bucket, raw, c, g)
    ensures RowTraceable(ev, bucket, raw, c, g)
  {
    var o :| EventLeadsTo(last.data, o, bucket, raw, c, g);
    assert RowLeadsTo(ev, o, bucket, raw, c, g);
  }

  lemma {:induction false} RowIsTraceable(
    k: Key, items: seq<Item>, bucket: string, raw: P.Db, c: P.Codec, g: P.Settings)
    requires AllTraceable(items, bucket, raw, c, g) && k in UpsertAll(EMPTY, items).events
    ensures RowTraceable(UpsertAll(EMPTY, items).events[k], bucket, raw, c, g)
  {
    RowShowsLast(items, k);
    var own := Audit.ItemsOf(k, items);
    Audit.OwnItemsSubmitted(k, items, own[|own| - 1]);
    var i :| 0 <= i < |items| && items[i] == own[|own| - 1];
    RowFromItem(UpsertAll(EMPTY, items).events[k], own[0], items[i], bucket, raw, c, g);
  }

  /**
   After any run of syncs, committed or not, every event and every version that it keeps names a
   payload that loads, in its JSON form, the listing entry of an object with that key and content.
   */
  lemma {:induction false} EventsLeadBack(bucket: string, steps: seq<Step>, c: P.Codec, g: P.Settings)
    requires Legal(bucket, steps, c, g) && c.Injective()
    requires FreshItems(S.Submitted(bucket, Polls(steps), false))
    ensures var db, raw := S.Run(bucket, Polls(steps), false).db, RawRun(steps, c, g);
            && (forall k :: k in db.events ==> RowTraceable(db.events[k], bucket, raw, c, g))
            && forall k, v :: k in db.events && 1 <= v <= db.events[k].version ==>
                 VersionTraceable(db, db.events[k], v, bucket, raw, c, g)
  {
    var items := S.Submitted(bucket, Polls(steps), false);
    var db, raw := S.Run(bucket, Polls(steps), false).db, RawRun(steps, c, g);
    S.RunIsUpserts(bucket, Polls(steps), false);
    RunTraceable(bucket, steps, c, g);
    HistoryTheorem(items);
    forall k | k in db.events ensures RowTraceable(db.events[k], bucket, raw, c, g) {
      RowIsTraceable(k, items, bucket, raw, c, g);
    }
    forall k, v | k in db.events && 1 <= v <= db.events[k].version
      ensures VersionTraceable(db, db.events[k], v, bucket, raw, c, g)
    {
      VersionsAttributed(items, k);
      StartTraceable(db, k, items, v, bucket, raw, c, g);
    }
  }
}
