/** Incremental syncs against syncs that fetch everything every time. */
module SyncRefinement {
  import opened Basics
  import opened Sequences
  import opened Schema
  import opened Events
  import opened History
  import opened SameHistories
  import opened FileSync

  /** A bucket lists every key once. */
  ghost predicate UniqueKeys(objects: seq<Object>) {
    forall i, j :: 0 <= i < j < |objects| ==> objects[i].key != objects[j].key
  }

  // ---- Runs -------------------------------------------------------------------------------

  ghost predicate Legal(polls: seq<Poll>) {
    forall i :: 0 <= i < |polls| ==> polls[i].Supplied() && UniqueKeys(polls[i].Objects())
  }

  /** A run of incremental syncs, or of syncs that ignore the cursor when fetching. */
  function Run(bucket: string, polls: seq<Poll>, full: bool): State
    requires forall i :: 0 <= i < |polls| ==> polls[i].Supplied()
  {
    if polls == [] then State(EMPTY, None)
    else
      var s := Run(bucket, polls[..|polls| - 1], full);
      Synced(bucket, s, polls[|polls| - 1], if full then None else s.cursor)
  }

  /** Everything the committed syncs of a run submitted. */
  function Submitted(bucket: string, polls: seq<Poll>, full: bool): seq<Item>
    requires forall i :: 0 <= i < |polls| ==> polls[i].Supplied()
  {
    if polls == [] then []
    else
      var init, last := polls[..|polls| - 1], polls[|polls| - 1];
      if last.fate != Committed then Submitted(bucket, init, full)
      else
        Submitted(bucket, init, full) +
        ItemsOf(bucket, last, if full then None else Run(bucket, init, full).cursor)
  }

  lemma {:induction false} RunIsUpserts(bucket: string, polls: seq<Poll>, full: bool)
    requires forall i :: 0 <= i < |polls| ==> polls[i].Supplied()
    ensures Run(bucket, polls, full).db == UpsertAll(EMPTY, Submitted(bucket, polls, full))
  {
    if polls != [] {
      var init, last := polls[..|polls| - 1], polls[|polls| - 1];
      RunIsUpserts(bucket, init, full);
      UpsertAllConcat(EMPTY, Submitted(bucket, init, full),
                      ItemsOf(bucket, last, if full then None else Run(bucket, init, full).cursor));
    }
  }

  // ---- What one sync submits for a key ----------------------------------------------------

  predicate IsFor(bucket: string, o: Object, k: Key) {
    o.key != "" && KeyOf(bucket, o) == k
  }

  /** The object behind a key, if the bucket has one. */
  function Behind(bucket: string, objects: seq<Object>, k: Key): (r: Option<Object>)
    ensures r.Some? ==> r.value in objects && IsFor(bucket, r.value, k)
    ensures r.None? ==> forall i :: 0 <= i < |objects| ==> !IsFor(bucket, objects[i], k)
  {
    if objects == [] then None
    else if IsFor(bucket, objects[|objects| - 1], k) then Some(objects[|objects| - 1])
    else Behind(bucket, objects[..|objects| - 1], k)
  }

  lemma {:induction false} SameExternalId(bucket: string, a: Object, b: Object)
    requires KeyOf(bucket, a) == KeyOf(bucket, b)
    ensures a.key == b.key
  {
    var prefix := "filestore-" + bucket + "-";
    assert ExternalId(bucket, a.key)[|prefix|..] == a.key;
    assert ExternalId(bucket, b.key)[|prefix|..] == b.key;
  }

  /** What a sync submits for a key, object by object. */
  function Submits(bucket: string, objects: seq<Object>, since: Option<Time>, k: Key): seq<string> {
    if objects == [] then []
    else
      var init, last := Submits(bucket, objects[..|objects| - 1], since, k), objects[|objects| - 1];
      if IsFor(bucket, last, k) && Offered(last, since) then init + [ContentOf(last)] else init
  }

  lemma {:induction false} ContentsInAppend(k: Key, batch: seq<EventCreate>, e: EventCreate)
    ensures ContentsIn(k, batch + [e]) ==
            if e.NaturalKey() == k then ContentsIn(k, batch) + [e.content] else ContentsIn(k, batch)
  {
    assert (batch + [e])[..|batch|] == batch;
    assert ContentsIn(k, batch) + [] == ContentsIn(k, batch);
  }

  lemma {:induction false} OneMoreObject(
    bucket: string, p: Poll, init: seq<Object>, last: Object, since: Option<Time>, k: Key)
    ensures ContentsIn(k, Normalized(bucket, Listed(init + [last], since), p)) ==
            var before := ContentsIn(k, Normalized(bucket, Listed(init, since), p));
            if IsFor(bucket, last, k) && Offered(last, since) then before + [ContentOf(last)] else before
  {
    ListedAppend(init, last, since);
    if Offered(last, since) {
      NormalizedAppend(bucket, Listed(init, since), last, p);
      if last.key != "" {
        var e := Normalize(bucket, last, p.rawPayloadId(last), p.now).value;
        ContentsInAppend(k, Normalized(bucket, Listed(init, since), p), e);
      }
    }
  }

  lemma {:induction false} SubmitsObjects(bucket: string, p: Poll, objects: seq<Object>, since: Option<Time>, k: Key)
    ensures ContentsIn(k, Normalized(bucket, Listed(objects, since), p)) == Submits(bucket, objects, since, k)
  {
    if objects != [] {
      var init, last := objects[..|objects| - 1], objects[|objects| - 1];
      assert objects == init + [last];
      SubmitsObjects(bucket, p, init, since, k);
      OneMoreObject(bucket, p, init, last, since, k);
    }
  }

  lemma {:induction false} NothingFor(bucket: string, objects: seq<Object>, since: Option<Time>, k: Key)
    requires forall i :: 0 <= i < |objects| ==> !IsFor(bucket, objects[i], k)
    ensures Submits(bucket, objects, since, k) == []
  {
    if objects != [] {
      NothingFor(bucket, objects[..|objects| - 1], since, k);
    }
  }

  /** A sync submits the content behind a key once, if it lists the object at all. */
  lemma {:induction false} SubmitsOnce(bucket: string, objects: seq<Object>, since: Option<Time>, k: Key)
    requires UniqueKeys(objects)
    ensures var o := Behind(bucket, objects, k);
            Submits(bucket, objects, since, k) ==
            if o.Some? && Offered(o.value, since) then [ContentOf(o.value)] else []
  {
    if objects != [] {
      var init, last := objects[..|objects| - 1], objects[|objects| - 1];
      if IsFor(bucket, last, k) {
        forall i | 0 <= i < |init| ensures !IsFor(bucket, init[i], k) {
          if IsFor(bucket, init[i], k) {
            SameExternalId(bucket, init[i], last);
          }
        }
        NothingFor(bucket, init, since, k);
      } else {
        SubmitsOnce(bucket, init, since, k);
      }
    }
  }

  ghost predicate FromObject(bucket: string, objects: seq<Object>, e: EventCreate, j: int) {
    0 <= j < |objects| && e.NaturalKey() == KeyOf(bucket, objects[j])
  }

  ghost predicate FromSome(bucket: string, objects: seq<Object>, e: EventCreate) {
    exists j :: FromObject(bucket, objects, e, j)
  }

  lemma {:induction false} NamesObjects(bucket: string, p: Poll, objects: seq<Object>)
    ensures forall i :: 0 <= i < |Normalized(bucket, objects, p)| ==>
              FromSome(bucket, objects, Normalized(bucket, objects, p)[i])
  {
    if objects != [] {
      var init, last := objects[..|objects| - 1], objects[|objects| - 1];
      NamesObjects(bucket, p, init);
      var before, batch := Normalized(bucket, init, p), Normalized(bucket, objects, p);
      forall i | 0 <= i < |batch| ensures FromSome(bucket, objects, batch[i]) {
        if i < |before| {
          var j :| FromObject(bucket, init, before[i], j);
          assert FromObject(bucket, objects, batch[i], j);
        } else {
          assert FromObject(bucket, objects, batch[i], |init|);
        }
      }
    }
  }

  ghost predicate DistinctNames(batch: seq<EventCreate>) {
    forall i, j :: 0 <= i < j < |batch| ==> batch[i].NaturalKey() != batch[j].NaturalKey()
  }

  /** Objects with distinct keys give events with distinct natural keys. */
  lemma {:induction false} NamesOnce(bucket: string, p: Poll, objects: seq<Object>)
    requires UniqueKeys(objects)
    ensures DistinctNames(Normalized(bucket, objects, p))
  {
    if objects != [] {
      var init, last := objects[..|objects| - 1], objects[|objects| - 1];
      NamesOnce(bucket, p, init);
      NamesObjects(bucket, p, init);
      var before := Normalized(bucket, init, p);
      forall i | 0 <= i < |before| ensures before[i].NaturalKey() != KeyOf(bucket, last) {
        assert FromSome(bucket, init, before[i]);
        var j :| FromObject(bucket, init, before[i], j);
        if KeyOf(bucket, objects[j]) == KeyOf(bucket, last) {
          SameExternalId(bucket, objects[j], last);
        }
      }
    }
  }

  lemma {:induction false} ListedUnique(objects: seq<Object>, since: Option<Time>)
    requires UniqueKeys(objects)
    ensures UniqueKeys(Listed(objects, since))
    ensures forall o :: o in Listed(objects, since) ==> o in objects
  {
    if objects != [] {
      var init, last := objects[..|objects| - 1], objects[|objects| - 1];
      ListedUnique(init, since);
      assert objects == init + [last];
      forall i | 0 <= i < |Listed(init, since)| ensures Listed(init, since)[i].key != last.key {
        assert Listed(init, since)[i] in init;
      }
    }
  }

  lemma {:induction false} ItemsSubmitOnce(bucket: string, p: Poll, since: Option<Time>, k: Key)
    requires p.Supplied() && UniqueKeys(p.Objects())
    ensures var o := Behind(bucket, p.Objects(), k);
            ContentsFor(k, ItemsOf(bucket, p, since)) ==
            if o.Some? && Offered(o.value, since) then [ContentOf(o.value)] else []
  {
    var batch := Fetched(bucket, p, since);
    ListedUnique(p.Objects(), since);
    NamesOnce(bucket, p, Listed(p.Objects(), since));
    NothingRepeated(batch);
    ContentsForBatch(k, ItemsOf(bucket, p, since), batch);
    SubmitsObjects(bucket, p, p.Objects(), since, k);
    SubmitsOnce(bucket, p.Objects(), since, k);
  }

  // ---- When skipping is harmless ----------------------------------------------------------

  /** The content is the newest that the items submit for its event. */
  ghost predicate CurrentIn(bucket: string, items: seq<Item>, o: Object) {
    var contents := ContentsFor(KeyOf(bucket, o), items);
    contents != [] && contents[|contents| - 1] == ContentOf(o)
  }

  ghost predicate SkipsCurrentIn(bucket: string, items: seq<Item>, cursor: Option<Time>, p: Poll) {
    forall o :: o in p.Objects() && o.key != "" && !Offered(o, cursor) ==> CurrentIn(bucket, items, o)
  }

  /** The incremental run holds the content as the newest of its event. */
  ghost predicate Current(bucket: string, polls: seq<Poll>, o: Object)
    requires forall i :: 0 <= i < |polls| ==> polls[i].Supplied()
  {
    CurrentIn(bucket, Submitted(bucket, polls, false), o)
  }

  ghost predicate SkipsCurrent(bucket: string, polls: seq<Poll>, p: Poll)
    requires forall i :: 0 <= i < |polls| ==> polls[i].Supplied()
  {
    SkipsCurrentIn(bucket, Submitted(bucket, polls, false), Run(bucket, polls, false).cursor, p)
  }

  /** Every committed sync skips only objects whose content is already current. */
  ghost predicate AlwaysSkipsCurrent(bucket: string, polls: seq<Poll>)
    requires forall i :: 0 <= i < |polls| ==> polls[i].Supplied()
  {
    polls != [] ==>
      var init, last := polls[..|polls| - 1], polls[|polls| - 1];
      && AlwaysSkipsCurrent(bucket, init)
      && (last.fate == Committed ==> SkipsCurrent(bucket, init, last))
  }

  ghost predicate Agree(bucket: string, polls: seq<Poll>)
    requires forall i :: 0 <= i < |polls| ==> polls[i].Supplied()
  {
    AllSameSubmissions(Submitted(bucket, polls, false), Submitted(bucket, polls, true))
  }

  /** After every sync of the run, both runs have submitted the same, less repeats. */
  ghost predicate AlwaysAgree(bucket: string, polls: seq<Poll>)
    requires forall i :: 0 <= i < |polls| ==> polls[i].Supplied()
  {
    Agree(bucket, polls) && (polls != [] ==> AlwaysAgree(bucket, polls[..|polls| - 1]))
  }

  lemma {:induction false} DestutterAgree(x: seq<string>, y: seq<string>, c: string)
    requires Destutter(x) == Destutter(y)
    ensures Destutter(x + [c]) == Destutter(y + [c])
    ensures Destutter(x) == Destutter(y + [c]) <==> x != [] && x[|x| - 1] == c
  {
    DestutterAppend(x, c);
    DestutterAppend(y, c);
  }

  /** One sync: for one key, agreement is kept exactly when nothing new is skipped. */
  lemma {:induction false} AgreeAtIff(
    bucket: string, p: Poll, cursor: Option<Time>, inc: seq<Item>, full: seq<Item>, k: Key)
    requires p.Supplied() && UniqueKeys(p.Objects()) && SameSubmissions(inc, full, k)
    ensures var o := Behind(bucket, p.Objects(), k);
            SameSubmissions(inc + ItemsOf(bucket, p, cursor), full + ItemsOf(bucket, p, None), k) <==>
            o.None? || Offered(o.value, cursor) || CurrentIn(bucket, inc, o.value)
  {
    var o := Behind(bucket, p.Objects(), k);
    ItemsSubmitOnce(bucket, p, cursor, k);
    ItemsSubmitOnce(bucket, p, None, k);
    ContentsForConcat(k, inc, ItemsOf(bucket, p, cursor));
    ContentsForConcat(k, full, ItemsOf(bucket, p, None));
    BehindAgreesIff(o, o.Some? && Offered(o.value, cursor), ContentsFor(k, inc), ContentsFor(k, full),
                    ContentsFor(k, inc + ItemsOf(bucket, p, cursor)), ContentsFor(k, full + ItemsOf(bucket, p, None)));
  }

  /** From `x` and `y` to `nextX` and `nextY`, where one side may leave the object out. */
  lemma {:induction false} BehindAgreesIff(
    o: Option<Object>, listed: bool, x: seq<string>, y: seq<string>, nextX: seq<string>, nextY: seq<string>)
    requires Destutter(x) == Destutter(y) && (listed ==> o.Some?)
    requires nextX == x + (if listed then [ContentOf(o.value)] else [])
    requires nextY == y + (if o.Some? then [ContentOf(o.value)] else [])
    ensures Destutter(nextX) == Destutter(nextY) <==>
            o.None? || listed || (x != [] && x[|x| - 1] == ContentOf(o.value))
  {
    StepAgreesIff(x, y, if o.Some? then [ContentOf(o.value)] else [], listed);
  }

  /** A submission that one side may leave out. */
  lemma {:induction false} StepAgreesIff(x: seq<string>, y: seq<string>, more: seq<string>, listed: bool)
    requires Destutter(x) == Destutter(y) && |more| <= 1 && (listed ==> more != [])
    ensures Destutter(x + (if listed then more else [])) == Destutter(y + more) <==>
            more == [] || listed || (x != [] && x[|x| - 1] == more[0])
  {
    assert x + [] == x && y + [] == y;
    if more != [] {
      assert more == [more[0]];
      DestutterAgree(x, y, more[0]);
    }
  }

  lemma {:induction false} BehindIs(bucket: string, objects: seq<Object>, o: Object)
    requires UniqueKeys(objects) && o in objects && o.key != ""
    ensures Behind(bucket, objects, KeyOf(bucket, o)) == Some(o)
  {
    var b := Behind(bucket, objects, KeyOf(bucket, o));
    assert IsFor(bucket, o, KeyOf(bucket, o));
    if b.Some? {
      SameExternalId(bucket, b.value, o);
    }
  }

  lemma {:induction false} AgreeStepIff(
    bucket: string, p: Poll, cursor: Option<Time>, inc: seq<Item>, full: seq<Item>)
    requires p.Supplied() && UniqueKeys(p.Objects()) && AllSameSubmissions(inc, full)
    ensures AllSameSubmissions(inc + ItemsOf(bucket, p, cursor), full + ItemsOf(bucket, p, None)) <==>
            SkipsCurrentIn(bucket, inc, cursor, p)
  {
    var x, y := inc + ItemsOf(bucket, p, cursor), full + ItemsOf(bucket, p, None);
    if SkipsCurrentIn(bucket, inc, cursor, p) {
      forall k ensures SameSubmissions(x, y, k) {
        assert SameSubmissions(inc, full, k);
        AgreeAtIff(bucket, p, cursor, inc, full, k);
      }
    }
    if AllSameSubmissions(x, y) {
      forall o | o in p.Objects() && o.key != "" && !Offered(o, cursor) ensures CurrentIn(bucket, inc, o) {
        var k := KeyOf(bucket, o);
        assert SameSubmissions(x, y, k) && SameSubmissions(inc, full, k);
        BehindIs(bucket, p.Objects(), o);
        AgreeAtIff(bucket, p, cursor, inc, full, k);
      }
    }
  }

  lemma {:induction false} SubmittedMore(bucket: string, polls: seq<Poll>, full: bool)
    requires Legal(polls) && polls != [] && polls[|polls| - 1].fate == Committed
    ensures var init, last := polls[..|polls| - 1], polls[|polls| - 1];
            Submitted(bucket, polls, full) ==
            Submitted(bucket, init, full) +
            ItemsOf(bucket, last, if full then None else Run(bucket, init, false).cursor)
  {
  }

  lemma {:induction false} AlwaysAgreeIff(bucket: string, polls: seq<Poll>)
    requires Legal(polls)
    ensures AlwaysAgree(bucket, polls) <==> AlwaysSkipsCurrent(bucket, polls)
  {
    if polls == [] {
      assert forall k :: SameSubmissions([], [], k);
    } else {
      var init, last := polls[..|polls| - 1], polls[|polls| - 1];
      AlwaysAgreeIff(bucket, init);
      if AlwaysAgree(bucket, init) {
        assert Agree(bucket, init);
        if last.fate == Committed {
          SubmittedMore(bucket, polls, false);
          SubmittedMore(bucket, polls, true);
          AgreeStepIff(bucket, last, Run(bucket, init, false).cursor,
                       Submitted(bucket, init, false), Submitted(bucket, init, true));
        }
      }
    }
  }

  /** After every sync, incremental or not leaves the same events, contents, versions and histories. */
  ghost predicate AlwaysSameHistories(bucket: string, polls: seq<Poll>)
    requires forall i :: 0 <= i < |polls| ==> polls[i].Supplied()
  {
    && AllSameHistory(Run(bucket, polls, false).db, Run(bucket, polls, true).db)
    && (polls != [] ==> AlwaysSameHistories(bucket, polls[..|polls| - 1]))
  }

  ghost predicate FreshRuns(bucket: string, polls: seq<Poll>)
    requires forall i :: 0 <= i < |polls| ==> polls[i].Supplied()
  {
    && FreshItems(Submitted(bucket, polls, false)) && FreshItems(Submitted(bucket, polls, true))
    && (polls != [] ==> FreshRuns(bucket, polls[..|polls| - 1]))
  }

  lemma {:induction false} SameHistoriesIffAgree(bucket: string, polls: seq<Poll>)
    requires Legal(polls) && FreshRuns(bucket, polls)
    ensures AlwaysSameHistories(bucket, polls) <==> AlwaysAgree(bucket, polls)
  {
    RunIsUpserts(bucket, polls, false);
    RunIsUpserts(bucket, polls, true);
    HistoriesAgreeIff(Submitted(bucket, polls, false), Submitted(bucket, polls, true));
    if polls != [] {
      SameHistoriesIffAgree(bucket, polls[..|polls| - 1]);
    }
  }

  /**
   Over any run of committed, failed and rolled-back syncs, fetching past the cursor leaves the
   same contents, versions and histories as fetching everything, after every sync, exactly when
   every object skipped shows the content its event already has.
   */
  lemma {:induction false} IncrementalRefinesFullIff(bucket: string, polls: seq<Poll>)
    requires Legal(polls) && FreshRuns(bucket, polls)
    ensures AlwaysSameHistories(bucket, polls) <==> AlwaysSkipsCurrent(bucket, polls)
  {
    SameHistoriesIffAgree(bucket, polls);
    AlwaysAgreeIff(bucket, polls);
  }

  // ---- Last-modified times that move ------------------------------------------------------

  /** The bucket as the last committed sync saw it. */
  function LastSeen(polls: seq<Poll>): seq<Object> {
    if polls == [] then []
    else if polls[|polls| - 1].fate == Committed then polls[|polls| - 1].Objects()
    else LastSeen(polls[..|polls| - 1])
  }

  /** The bucket showed this key with this size. */
  ghost predicate Unchanged(seen: seq<Object>, o: Object) {
    exists p :: p in seen && p.key == o.key && p.size == o.size
  }

  /** What was created or changed since the last committed sync lies past the stored cursor. */
  ghost predicate ChangesPastCursor(bucket: string, polls: seq<Poll>)
    requires forall i :: 0 <= i < |polls| ==> polls[i].Supplied()
  {
    polls != [] ==>
      var init, last := polls[..|polls| - 1], polls[|polls| - 1];
      && ChangesPastCursor(bucket, init)
      && (last.fate == Committed ==>
            forall o :: o in last.Objects() ==>
              Unchanged(LastSeen(init), o) || Offered(o, Run(bucket, init, false).cursor))
  }

  /** The cursor never passes an object that was not ingested: all that the last sync saw is current. */
  ghost predicate AllIngested(bucket: string, polls: seq<Poll>)
    requires forall i :: 0 <= i < |polls| ==> polls[i].Supplied()
  {
    forall o :: o in LastSeen(polls) && o.key != "" ==> Current(bucket, polls, o)
  }

  lemma {:induction false} SkippedIsCurrent(bucket: string, polls: seq<Poll>, p: Poll)
    requires Legal(polls) && AllIngested(bucket, polls)
    requires forall o :: o in p.Objects() ==>
               Unchanged(LastSeen(polls), o) || Offered(o, Run(bucket, polls, false).cursor)
    ensures SkipsCurrent(bucket, polls, p)
  {
    forall o | o in p.Objects() && o.key != "" && !Offered(o, Run(bucket, polls, false).cursor)
      ensures Current(bucket, polls, o)
    {
      var seen :| seen in LastSeen(polls) && seen.key == o.key && seen.size == o.size;
      assert Current(bucket, polls, seen);
    }
  }

  /** After the sync the content of every listed object is current: submitted just now, or before. */
  lemma {:induction false} IngestedNow(bucket: string, p: Poll, cursor: Option<Time>, items: seq<Item>, o: Object)
    requires p.Supplied() && UniqueKeys(p.Objects()) && o in p.Objects() && o.key != ""
    requires SkipsCurrentIn(bucket, items, cursor, p)
    ensures CurrentIn(bucket, items + ItemsOf(bucket, p, cursor), o)
  {
    var k := KeyOf(bucket, o);
    BehindIs(bucket, p.Objects(), o);
    ItemsSubmitOnce(bucket, p, cursor, k);
    ContentsForConcat(k, items, ItemsOf(bucket, p, cursor));
  }

  lemma {:induction false} SyncIngestsAll(bucket: string, polls: seq<Poll>)
    requires Legal(polls) && polls != [] && polls[|polls| - 1].fate == Committed
    requires SkipsCurrent(bucket, polls[..|polls| - 1], polls[|polls| - 1])
    ensures AllIngested(bucket, polls)
  {
    var init, last := polls[..|polls| - 1], polls[|polls| - 1];
    forall o | o in last.Objects() && o.key != "" ensures Current(bucket, polls, o) {
      SubmittedMore(bucket, polls, false);
      IngestedNow(bucket, last, Run(bucket, init, false).cursor, Submitted(bucket, init, false), o);
    }
  }

  /** If changes lie past the cursor, syncing incrementally misses nothing. */
  lemma {:induction false} ChangesPastCursorSuffice(bucket: string, polls: seq<Poll>)
    requires Legal(polls) && ChangesPastCursor(bucket, polls)
    ensures AlwaysSkipsCurrent(bucket, polls) && AllIngested(bucket, polls)
  {
    if polls != [] {
      var init, last := polls[..|polls| - 1], polls[|polls| - 1];
      ChangesPastCursorSuffice(bucket, init);
      if last.fate == Committed {
        SkippedIsCurrent(bucket, init, last);
        SyncIngestsAll(bucket, polls);
      } else {
        forall o | o in LastSeen(polls) && o.key != "" ensures Current(bucket, polls, o) {
          assert Current(bucket, init, o);
        }
      }
    }
  }
}
