/**
 Why the history needs upsert calls to be serial: the version is computed from a row read
 earlier, and written without looking again.
 */
module Interleaving {
  import opened Basics
  import opened Sequences
  import opened Keyset
  import opened Schema
  import opened Events
  import opened History

  /** The second half of a call for one item, whose row was computed from an earlier table. */
  function Written(db: Store, row: Event, item: Item): Store {
    var ev := Resolve(db.events, row);
    Store(db.events[item.NaturalKey() := ev], AddIfAbsent(db.versions, ev, item.changedBy),
          db.outbox + [OutboxRowFor(ev, item.pos)])
  }

  /** Two calls that both read before either writes. */
  function Interleaved(db: Store, x: Item, y: Item): Store {
    var kept := db.(versions := KeepOld(db.events, KeepOld(db.events, db.versions, x), y));
    Written(Written(kept, RowFor(db.events, x), x), RowFor(db.events, y), y)
  }

  function Serial(db: Store, x: Item, y: Item): Store {
    UpsertOne(UpsertOne(db, x), y)
  }

  /** Run one after the other, the halves are an ordinary call. */
  lemma {:induction false} SerialHalves(db: Store, x: Item)
    ensures UpsertOne(db, x) == Written(db.(versions := KeepOld(db.events, db.versions, x)), RowFor(db.events, x), x)
  {
  }

  // ---- Different events -------------------------------------------------------------------

  lemma {:induction false} KeepOldApart(
    events: map<Key, Event>, versions: map<VersionKey, Snapshot>, item: Item, ev: Event, changedBy: Option<string>)
    requires Upserted(events, item).id != ev.id
    ensures KeepOld(events, AddIfAbsent(versions, ev, changedBy), item) ==
            AddIfAbsent(KeepOld(events, versions, item), ev, changedBy)
  {
  }

  /** A call for another event reads the same row after a call as before it. */
  lemma {:induction false} SameRead(db: Store, x: Item, y: Item, versions: map<VersionKey, Snapshot>)
    requires x.NaturalKey() != y.NaturalKey()
    ensures RowFor(UpsertOne(db, x).events, y) == RowFor(db.events, y)
    ensures KeepOld(UpsertOne(db, x).events, versions, y) == KeepOld(db.events, versions, y)
  {
  }

  /** Calls for different events never disturb each other. */
  lemma {:induction false} ApartIsSerial(db: Store, x: Item, y: Item)
    requires x.NaturalKey() != y.NaturalKey()
    requires Upserted(db.events, x).id != Upserted(db.events, y).id
    ensures Interleaved(db, x, y) == Serial(db, x, y)
  {
    SameRead(db, x, y, UpsertOne(db, x).versions);
    KeepOldApart(db.events, KeepOld(db.events, db.versions, x), y, Upserted(db.events, x), x.changedBy);
  }

  // ---- The same event ---------------------------------------------------------------------

  /** What the two calls submit makes no difference, or the first changes nothing. */
  predicate MayInterleave(events: map<Key, Event>, x: Item, y: Item) {
    || x.data.content == y.data.content
    || (x.NaturalKey() in events && events[x.NaturalKey()].content == x.data.content)
  }

  /** The id of a new event is not in use. */
  ghost predicate UnusedId(db: Store, x: Item) {
    x.NaturalKey() !in db.events ==> forall vk :: vk in db.versions ==> vk.eventId != x.eventId
  }

  lemma {:induction false} CurrentIsKept(versions: map<VersionKey, Snapshot>, ev: Event, contents: seq<string>)
    requires VersionsAre(versions, ev, contents) && contents != []
    ensures VersionOf(ev) in versions
  {
  }

  lemma {:induction false} NothingOldToKeep(events: map<Key, Event>, versions: map<VersionKey, Snapshot>, item: Item)
    requires item.NaturalKey() in events ==> VersionOf(events[item.NaturalKey()]) in versions
    ensures KeepOld(events, versions, item) == versions
  {
  }

  lemma {:induction false} OldIsKept(db: Store, item: Item, submitted: seq<string>)
    requires Recorded(db, item.NaturalKey(), submitted)
    ensures KeepOld(db.events, db.versions, item) == db.versions
  {
    if submitted != [] {
      CurrentIsKept(db.versions, db.events[item.NaturalKey()], Destutter(submitted));
    }
    NothingOldToKeep(db.events, db.versions, item);
  }

  /** The two events, one call after the other and interleaved. */
  lemma {:induction false} VersionsReached(db: Store, x: Item, y: Item)
    requires x.NaturalKey() == y.NaturalKey()
    ensures var k := x.NaturalKey();
            && k in Interleaved(db, x, y).events && k in Serial(db, x, y).events
            && (MayInterleave(db.events, x, y) <==>
                Interleaved(db, x, y).events[k].version == Serial(db, x, y).events[k].version)
  {
  }

  lemma {:induction false} OldIsKeptAgain(db: Store, x: Item, y: Item, submitted: seq<string>)
    requires x.NaturalKey() == y.NaturalKey() && Recorded(db, x.NaturalKey(), submitted) && UnusedId(db, x)
    ensures KeepOld(UpsertOne(db, x).events, UpsertOne(db, x).versions, y) == UpsertOne(db, x).versions
  {
    UpsertExtendsVersions(db, x, submitted);
    CurrentIsKept(UpsertOne(db, x).versions, Upserted(db.events, x), Destutter(submitted + [x.data.content]));
    NothingOldToKeep(UpsertOne(db, x).events, UpsertOne(db, x).versions, y);
  }

  /** With a recorded history both orders come down to the row that the second call writes. */
  lemma {:induction false} BothWrite(db: Store, x: Item, y: Item, submitted: seq<string>)
    requires x.NaturalKey() == y.NaturalKey() && Recorded(db, x.NaturalKey(), submitted) && UnusedId(db, x)
    ensures var once := UpsertOne(db, x);
            && Interleaved(db, x, y) == Written(once, RowFor(db.events, y), y)
            && Serial(db, x, y) == Written(once, RowFor(once.events, y), y)
  {
    OldIsKept(db, x, submitted);
    OldIsKept(db, y, submitted);
    SerialHalves(db, x);
    OldIsKeptAgain(db, x, y, submitted);
    SerialHalves(UpsertOne(db, x), y);
  }

  lemma {:induction false} SameWrite(db: Store, x: Item, y: Item)
    requires x.NaturalKey() == y.NaturalKey() && MayInterleave(db.events, x, y)
    ensures var events := UpsertOne(db, x).events;
            Resolve(events, RowFor(db.events, y)) == Resolve(events, RowFor(events, y))
  {
  }

  lemma {:induction false} MayInterleaveIsSerial(db: Store, x: Item, y: Item, submitted: seq<string>)
    requires x.NaturalKey() == y.NaturalKey() && Recorded(db, x.NaturalKey(), submitted) && UnusedId(db, x)
    requires MayInterleave(db.events, x, y)
    ensures Interleaved(db, x, y) == Serial(db, x, y)
  {
    BothWrite(db, x, y, submitted);
    SameWrite(db, x, y);
  }

  /** The versions of two calls in a row. */
  lemma {:induction false} SerialVersions(db: Store, x: Item, y: Item, submitted: seq<string>)
    requires x.NaturalKey() == y.NaturalKey() && Recorded(db, x.NaturalKey(), submitted) && UnusedId(db, x)
    ensures x.NaturalKey() in Serial(db, x, y).events
    ensures VersionsAre(Serial(db, x, y).versions, Serial(db, x, y).events[x.NaturalKey()],
                        Destutter(submitted + [x.data.content] + [y.data.content]))
  {
    UpsertExtendsVersions(db, x, submitted);
    NextVersions(UpsertOne(db, x), y, submitted + [x.data.content]);
  }

  /** An upsert extends the versions of an event that has some. */
  lemma {:induction false} NextVersions(db: Store, item: Item, submitted: seq<string>)
    requires item.NaturalKey() in db.events && submitted != []
    requires db.events[item.NaturalKey()].content == submitted[|submitted| - 1]
    requires VersionsAre(db.versions, db.events[item.NaturalKey()], Destutter(submitted))
    ensures VersionsAre(UpsertOne(db, item).versions, Upserted(db.events, item),
                        Destutter(submitted + [item.data.content]))
  {
    DestutterAppend(submitted, item.data.content);
  }

  /**
   Two calls for one event, both reading before either writes: they leave the store as two
   calls in a row would, and the history exact, if and only if they submit the same content or
   the first submits the content the event already had.
   */
  lemma {:induction false} InterleavedIff(db: Store, x: Item, y: Item, submitted: seq<string>)
    requires x.NaturalKey() == y.NaturalKey() && Recorded(db, x.NaturalKey(), submitted) && UnusedId(db, x)
    ensures Interleaved(db, x, y) == Serial(db, x, y) <==> MayInterleave(db.events, x, y)
    ensures x.NaturalKey() in Interleaved(db, x, y).events
    ensures VersionsAre(Interleaved(db, x, y).versions, Interleaved(db, x, y).events[x.NaturalKey()],
                        Destutter(submitted + [x.data.content] + [y.data.content])) <==>
            MayInterleave(db.events, x, y)
  {
    VersionsReached(db, x, y);
    SerialVersions(db, x, y, submitted);
    if MayInterleave(db.events, x, y) {
      MayInterleaveIsSerial(db, x, y, submitted);
    }
  }

  // ---- Failing inputs ---------------------------------------------------------------------

  function Call(id: Uuid, content: string): Item {
    Item(EventCreate("jira", "A-1", "", "", content, "issue", 0, None, 1), id, Pos(id, id), id, None)
  }

  const A1 := Key("jira", "A-1")

  /**
   Two first submissions: the history keeps the content that lost.  Two changes: the same.  A
   change and a resubmission of what was there before: the event falls back behind its history.
   */
  lemma {:induction false} InterleavingLoses()
    ensures var after := Interleaved(EMPTY, Call(1, "a"), Call(2, "b"));
            && A1 in after.events && after.events[A1].version == 1 && after.events[A1].content == "b"
            && VersionKey(1, 1) in after.versions && after.versions[VersionKey(1, 1)].content == "a"
    ensures var after := Interleaved(UpsertOne(EMPTY, Call(1, "a")), Call(2, "b"), Call(3, "c"));
            && A1 in after.events && after.events[A1].version == 2 && after.events[A1].content == "c"
            && VersionKey(1, 2) in after.versions && after.versions[VersionKey(1, 2)].content == "b"
    ensures var after := Interleaved(UpsertOne(EMPTY, Call(1, "a")), Call(2, "b"), Call(3, "a"));
            && A1 in after.events && after.events[A1].version == 1
            && VersionKey(1, 2) in after.versions
  {
    assert "a" != "b" && "b" != "c" && "a" != "c" by {
      assert "a"[0] != "b"[0] && "b"[0] != "c"[0] && "a"[0] != "c"[0];
    }
  }
}
