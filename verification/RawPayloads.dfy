/**
 Raw payloads: one row for each distinct payload of a source, its body either in the row or
 in object storage.
 */
module RawPayloads {
  import opened Basics
  import opened StorageUrls

  /** A decoded payload.  A timestamp is not JSON; writing it out turns it into text. */
  datatype Value =
    | Null
    | Boolean(value: bool)
    | Number(n: int)
    | Text(text: string)
    | Timestamp(at: int)
    | Items(items: seq<Value>)
    | Fields(fields: map<string, Value>)

  /** `json.loads(json.dumps(payload, default=str))`, given how a timestamp prints. */
  function Coerced(v: Value, show: int -> string): Value {
    match v
    case Timestamp(at) => Text(show(at))
    case Items(items) =>
      Items(seq(|items|, i requires 0 <= i < |items| => Coerced(items[i], show)))
    case Fields(fields) =>
      Fields(map k | k in fields :: Coerced(fields[k], show))
    case _ => v
  }

  /** A value that JSON can hold as it is: no timestamp anywhere in it. */
  predicate IsJson(v: Value) {
    match v
    case Timestamp(_) => false
    case Items(items) => forall i :: 0 <= i < |items| ==> IsJson(items[i])
    case Fields(fields) => forall k :: k in fields ==> IsJson(fields[k])
    case _ => true
  }

  /** Values without timestamps are left alone, a timestamp becomes its text, and containers keep their shape. */
  lemma {:induction false} CoercedIs(v: Value, show: int -> string)
    ensures IsJson(Coerced(v, show))
    ensures IsJson(v) ==> Coerced(v, show) == v
    ensures v.Timestamp? ==> Coerced(v, show) == Text(show(v.at))
    ensures v.Items? ==>
              var now := Coerced(v, show);
              && now.Items? && |now.items| == |v.items|
              && forall i :: 0 <= i < |v.items| ==> now.items[i] == Coerced(v.items[i], show)
    ensures v.Fields? ==>
              var now := Coerced(v, show);
              && now.Fields? && now.fields.Keys == v.fields.Keys
              && forall k :: k in v.fields ==> now.fields[k] == Coerced(v.fields[k], show)
  {
    match v
    case Items(items) =>
      forall i | 0 <= i < |items|
        ensures IsJson(Coerced(items[i], show)) && (IsJson(items[i]) ==> Coerced(items[i], show) == items[i])
      {
        CoercedIs(items[i], show);
      }
    case Fields(fields) =>
      forall k | k in fields
        ensures IsJson(Coerced(fields[k], show)) && (IsJson(fields[k]) ==> Coerced(fields[k], show) == fields[k])
      {
        CoercedIs(fields[k], show);
      }
    case _ =>
  }

  /** What JSON leaves to the environment: the digest, the encoded size, how a time prints. */
  datatype Codec = Codec(digest: Value -> string, size: Value -> nat, show: int -> string)
  {
    /** `_canonical_hash`: of the coerced payload with sorted keys. */
    function HashOf(payload: Value): string { digest(Coerced(payload, show)) }

    ghost predicate Injective() {
      forall a: Value, b: Value :: digest(a) == digest(b) ==> a == b
    }
  }

  datatype Row = Row(
    source: string, payload: Option<Value>, contentHash: string, correlationId: string,
    storageUrl: Option<string>)

  datatype Settings = Settings(threshold: nat, endpoint: string, bucket: string)

  /** The table and the object store. */
  datatype Db = Db(rows: map<Uuid, Row>, objects: map<Location, Value>)

  const EMPTY := Db(map[], map[])

  /** A payload to save, with the UUID and the key its statements would draw, and the fate of a put. */
  datatype Save = Save(
    source: string, payload: Value, correlationId: string, id: Uuid, stamp: string, put: Put)

  datatype Put = Stored | PutFailed(applied: bool)

  function KeyOf(s: Save): string {
    s.source + "/" + s.correlationId + "/" + s.stamp + ".json"
  }

  predicate Matches(row: Row, source: string, hash: string) {
    row.source == source && row.contentHash == hash
  }

  ghost predicate Known(db: Db, source: string, hash: string) {
    exists id :: id in db.rows && Matches(db.rows[id], source, hash)
  }

  function AfterPut(objects: map<Location, Value>, s: Save, at: Location, body: Value): map<Location, Value> {
    if s.put.Stored? || s.put.applied then objects[at := body] else objects
  }

  /** The row for a payload not seen before, and the objects after trying to offload it. */
  function Inserted(db: Db, s: Save, c: Codec, g: Settings): Db {
    var body := Coerced(s.payload, c.show);
    var at := Location(g.bucket, KeyOf(s));
    var offload := c.size(body) > g.threshold;
    var stored := offload && s.put.Stored?;
    var row := Row(s.source, if stored then None else Some(body), c.HashOf(s.payload), s.correlationId,
                   if stored then Some(UrlOf(g.endpoint, at)) else None);
    Db(db.rows[s.id := row], if offload then AfterPut(db.objects, s, at, body) else db.objects)
  }

  /** `save_raw_payload`: a known payload changes nothing. */
  ghost function Saved(db: Db, s: Save, c: Codec, g: Settings): Db {
    if Known(db, s.source, c.HashOf(s.payload)) then db else Inserted(db, s, c, g)
  }

  /**
   A payload not seen before gets one row: with its source, correlation id and the digest of its JSON
   form; and with that form itself, unless it is larger than the threshold and the put succeeds, when
   the row has the URL of the object that holds it.
   */
  lemma {:induction false} NewRowIs(db: Db, s: Save, c: Codec, g: Settings)
    requires !Known(db, s.source, c.digest(Coerced(s.payload, c.show)))
    ensures var now, body := Saved(db, s, c, g), Coerced(s.payload, c.show);
            var key := s.source + "/" + s.correlationId + "/" + s.stamp + ".json";
            && now.rows.Keys == db.rows.Keys + {s.id}
            && (forall id :: id in db.rows && id != s.id ==> now.rows[id] == db.rows[id])
            && var row := now.rows[s.id];
            && row.source == s.source && row.correlationId == s.correlationId && row.contentHash == c.digest(body)
            && if c.size(body) > g.threshold && s.put == Stored then
                 && row.payload == None
                 && row.storageUrl == Some(g.endpoint + "/" + g.bucket + "/" + key)
                 && now.objects == db.objects[Location(g.bucket, key) := body]
               else
                 && row.payload == Some(body) && row.storageUrl == None
                 && (c.size(body) <= g.threshold ==> now.objects == db.objects)
  {
  }

  /** The id returned is the one row that matches. */
  ghost predicate Answers(db: Db, s: Save, c: Codec, g: Settings, id: Uuid) {
    id in Saved(db, s, c, g).rows && Matches(Saved(db, s, c, g).rows[id], s.source, c.HashOf(s.payload))
  }

  predicate Offloaded(row: Row) {
    row.storageUrl.Some? && row.storageUrl.value != ""
  }

  /** `load_payload_content`, when the object store can be read. */
  function Loaded(db: Db, id: Uuid, g: Settings): Option<Value>
    requires id in db.rows
  {
    var row := db.rows[id];
    if Offloaded(row) then
      match Locate(g.endpoint, row.storageUrl.value)
      case None => None
      case Some(at) => if at in db.objects then Some(db.objects[at]) else None
    else row.payload
  }

  // ---- What every save keeps --------------------------------------------------------------

  /** The body is in exactly one place, where loading finds it, and is what the hash says. */
  ghost predicate RowSound(db: Db, id: Uuid, c: Codec, g: Settings)
    requires id in db.rows
  {
    var row := db.rows[id];
    && (row.payload.Some? <==> row.storageUrl.None?)
    && Loaded(db, id, g).Some?
    && c.digest(Loaded(db, id, g).value) == row.contentHash
    && (row.storageUrl.Some? ==> row.storageUrl.value != "")
  }

  ghost predicate OneEach(rows: map<Uuid, Row>) {
    forall a, b :: a in rows && b in rows && Matches(rows[a], rows[b].source, rows[b].contentHash) ==> a == b
  }

  ghost predicate Sound(db: Db, c: Codec, g: Settings) {
    OneEach(db.rows) && forall id :: id in db.rows ==> RowSound(db, id, c, g)
  }

  /** A put that reaches the store has a key no object has, and one that is recorded a URL that names it. */
  ghost predicate LegalPut(db: Db, s: Save, g: Settings) {
    && (s.put.Stored? || s.put.applied ==> Location(g.bucket, KeyOf(s)) !in db.objects)
    && (s.put.Stored? ==> '/' !in g.bucket && !Occurs(g.endpoint + "/", g.bucket + "/" + KeyOf(s)))
  }

  /** Asked of a new payload only: a fresh UUID and, if it is offloaded, a legal put. */
  ghost predicate Legal(db: Db, s: Save, c: Codec, g: Settings) {
    !Known(db, s.source, c.HashOf(s.payload)) ==>
      && s.id !in db.rows
      && (c.size(Coerced(s.payload, c.show)) > g.threshold ==> LegalPut(db, s, g))
  }

  /** What was loadable stays so, unchanged. */
  ghost predicate Keeps(before: Db, now: Db, g: Settings) {
    forall id :: id in before.rows ==>
      && id in now.rows && now.rows[id] == before.rows[id]
      && (Loaded(before, id, g).Some? ==> Loaded(now, id, g) == Loaded(before, id, g))
  }

  lemma {:induction false} InsertedLoads(db: Db, s: Save, c: Codec, g: Settings)
    requires Legal(db, s, c, g) && !Known(db, s.source, c.HashOf(s.payload))
    ensures Loaded(Inserted(db, s, c, g), s.id, g) == Some(Coerced(s.payload, c.show))
    ensures RowSound(Inserted(db, s, c, g), s.id, c, g)
  {
    LocateIff(g.endpoint, Location(g.bucket, KeyOf(s)));
  }

  lemma {:induction false} InsertedKeeps(db: Db, s: Save, c: Codec, g: Settings)
    requires Legal(db, s, c, g) && !Known(db, s.source, c.HashOf(s.payload))
    ensures Keeps(db, Inserted(db, s, c, g), g)
  {
  }

  lemma {:induction false} SavedSound(db: Db, s: Save, c: Codec, g: Settings)
    requires Sound(db, c, g) && Legal(db, s, c, g)
    ensures Sound(Saved(db, s, c, g), c, g) && Keeps(db, Saved(db, s, c, g), g)
  {
    if !Known(db, s.source, c.HashOf(s.payload)) {
      InsertedLoads(db, s, c, g);
      InsertedKeeps(db, s, c, g);
      var now := Saved(db, s, c, g);
      forall id | id in now.rows ensures RowSound(now, id, c, g) {
        if id != s.id { assert RowSound(db, id, c, g); }
      }
      forall a, b | a in now.rows && b in now.rows && Matches(now.rows[a], now.rows[b].source, now.rows[b].contentHash)
        ensures a == b
      {
        if a != s.id && b != s.id {
          assert Matches(db.rows[a], db.rows[b].source, db.rows[b].contentHash);
        }
      }
    }
  }

  /** Saving and loading gives the JSON form back, new or known, offloaded or not, whatever the put did. */
  lemma {:induction false} SaveThenLoad(db: Db, s: Save, c: Codec, g: Settings, id: Uuid)
    requires Sound(db, c, g) && Legal(db, s, c, g) && c.Injective() && Answers(db, s, c, g, id)
    ensures Loaded(Saved(db, s, c, g), id, g) == Some(Coerced(s.payload, c.show))
  {
    SavedSound(db, s, c, g);
    assert RowSound(Saved(db, s, c, g), id, c, g);
  }

  // ---- Runs -------------------------------------------------------------------------------

  ghost function AfterSaves(saves: seq<Save>, c: Codec, g: Settings): Db {
    if saves == [] then EMPTY
    else Saved(AfterSaves(saves[..|saves| - 1], c, g), saves[|saves| - 1], c, g)
  }

  ghost predicate LegalSaves(saves: seq<Save>, c: Codec, g: Settings) {
    saves != [] ==>
      && LegalSaves(saves[..|saves| - 1], c, g)
      && Legal(AfterSaves(saves[..|saves| - 1], c, g), saves[|saves| - 1], c, g)
  }

  lemma {:induction false} SavesSound(saves: seq<Save>, c: Codec, g: Settings)
    requires LegalSaves(saves, c, g)
    ensures Sound(AfterSaves(saves, c, g), c, g)
  {
    if saves != [] {
      SavesSound(saves[..|saves| - 1], c, g);
      SavedSound(AfterSaves(saves[..|saves| - 1], c, g), saves[|saves| - 1], c, g);
    }
  }

  /** `id` answered the `i`-th save of the run. */
  ghost predicate Answered(saves: seq<Save>, i: nat, id: Uuid, c: Codec, g: Settings) {
    i < |saves| && Answers(AfterSaves(saves[..i], c, g), saves[i], c, g, id)
  }

  /** Every save gets an answer. */
  lemma {:induction false} AlwaysAnswered(db: Db, s: Save, c: Codec, g: Settings)
    ensures exists id :: Answers(db, s, c, g, id)
  {
    var hash := c.HashOf(s.payload);
    if Known(db, s.source, hash) {
      var id :| id in db.rows && Matches(db.rows[id], s.source, hash);
      assert Answers(db, s, c, g, id);
    } else {
      assert Answers(db, s, c, g, s.id);
    }
  }

  /** An id once returned loads that payload, in its JSON form, at the end of the run too. */
  lemma {:induction false} SavedForGood(saves: seq<Save>, i: nat, id: Uuid, c: Codec, g: Settings)
    requires LegalSaves(saves, c, g) && c.Injective() && Answered(saves, i, id, c, g)
    ensures var db := AfterSaves(saves, c, g);
            && id in db.rows
            && Matches(db.rows[id], saves[i].source, c.HashOf(saves[i].payload))
            && Loaded(db, id, g) == Some(Coerced(saves[i].payload, c.show))
    decreases |saves|
  {
    var n := |saves| - 1;
    var init := saves[..n];
    SavesSound(init, c, g);
    SavedSound(AfterSaves(init, c, g), saves[n], c, g);
    if i == n {
      SaveThenLoad(AfterSaves(init, c, g), saves[n], c, g, id);
    } else {
      assert init[..i] == saves[..i];
      SavedForGood(init, i, id, c, g);
    }
  }

  /** Two saves share a row exactly when source and JSON form agree: no duplicates, no mix-ups. */
  lemma {:induction false} SameRowIff(
    saves: seq<Save>, i: nat, j: nat, a: Uuid, b: Uuid, c: Codec, g: Settings)
    requires LegalSaves(saves, c, g) && c.Injective()
    requires Answered(saves, i, a, c, g) && Answered(saves, j, b, c, g)
    ensures a == b <==>
            saves[i].source == saves[j].source &&
            Coerced(saves[i].payload, c.show) == Coerced(saves[j].payload, c.show)
  {
    SavesSound(saves, c, g);
    SavedForGood(saves, i, a, c, g);
    SavedForGood(saves, j, b, c, g);
  }

  // ---- The operation ----------------------------------------------------------------------

  class RawPayloadStore {
    var rows: map<Uuid, Row>
    var objects: map<Location, Value>
    const codec: Codec
    const settings: Settings

    ghost function State(): Db
      reads this
    {
      Db(rows, objects)
    }

    constructor (codec: Codec, settings: Settings)
      ensures State() == EMPTY && this.codec == codec && this.settings == settings
    {
      rows, objects := map[], map[];
      this.codec, this.settings := codec, settings;
    }

    method SaveRawPayload(source: string, payload: Value, correlationId: string,
                          id: Uuid, stamp: string, put: Put)
      returns (saved: Uuid)
      modifies this
      ensures var s := Save(source, payload, correlationId, id, stamp, put);
              && State() == Saved(old(State()), s, codec, settings)
              && Answers(old(State()), s, codec, settings, saved)
    {
      var contentHash := codec.HashOf(payload);
      if existing :| existing in rows && Matches(rows[existing], source, contentHash) {
        return existing;
      }
      var body := Coerced(payload, codec.show);
      var storageUrl: Option<string> := None;
      var storedPayload := Some(body);
      if codec.size(body) > settings.threshold {
        var key := source + "/" + correlationId + "/" + stamp + ".json";
        var at := Location(settings.bucket, key);
        match put {
          case Stored =>
            objects := objects[at := body];
            storageUrl := Some(UrlOf(settings.endpoint, at));
            storedPayload := None;
          case PutFailed(applied) =>
            if applied {
              objects := objects[at := body];
            }
        }
      }
      rows := rows[id := Row(source, storedPayload, contentHash, correlationId, storageUrl)];
      return id;
    }

    /** A failing read is logged and gives nothing; an unreadable URL fails the same way. */
    method LoadPayloadContent(id: Uuid, readable: bool) returns (content: Option<Value>)
      requires id in rows
      ensures content == if readable || !Offloaded(rows[id]) then Loaded(State(), id, settings) else None
    {
      var raw := rows[id];
      if !Offloaded(raw) {
        return raw.payload;
      }
      if !readable {
        return None;
      }
      var at := Locate(settings.endpoint, raw.storageUrl.value);
      if at.None? || at.value !in objects {
        return None;
      }
      return Some(objects[at.value]);
    }
  }
}
