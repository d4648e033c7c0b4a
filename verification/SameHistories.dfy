/** When two runs of upserts leave the same events and histories. */
module SameHistories {
  import opened Basics
  import opened Sequences
  import opened Schema
  import opened Events
  import opened History

  /** The contents a batch submits for a key, in order. */
  function ContentsIn(k: Key, batch: seq<EventCreate>): seq<string> {
    if batch == [] then []
    else
      var last := batch[|batch| - 1];
      ContentsIn(k, batch[..|batch| - 1]) + (if last.NaturalKey() == k then [last.content] else [])
  }

  lemma {:induction false} ContentsForConcat(k: Key, a: seq<Item>, b: seq<Item>)
    ensures ContentsFor(k, a + b) == ContentsFor(k, a) + ContentsFor(k, b)
    decreases |b|
  {
    if b == [] {
      assert a + b == a;
    } else {
      assert (a + b)[..|a + b| - 1] == a + b[..|b| - 1];
      ContentsForConcat(k, a, b[..|b| - 1]);
    }
  }

  lemma {:induction false} ContentsForBatch(k: Key, items: seq<Item>, batch: seq<EventCreate>)
    requires |items| == |batch| && forall i :: 0 <= i < |items| ==> items[i].data == batch[i]
    ensures ContentsFor(k, items) == ContentsIn(k, batch)
  {
    if items != [] {
      ContentsForBatch(k, items[..|items| - 1], batch[..|batch| - 1]);
    }
  }

  /** A batch that names every key once loses nothing to deduplication. */
  lemma {:induction false} NothingRepeated(batch: seq<EventCreate>)
    requires forall i, j :: 0 <= i < j < |batch| ==> batch[i].NaturalKey() != batch[j].NaturalKey()
    ensures FirstOccurrences(batch) == batch
  {
    if batch != [] {
      var init, last := batch[..|batch| - 1], batch[|batch| - 1];
      NothingRepeated(init);
      assert batch == init + [last];
      assert last.NaturalKey() !in KeysOf(init);
    }
  }

  /** Both stores have the event, or neither has; content, version and kept contents agree. */
  ghost predicate SameHistory(a: Store, b: Store, k: Key) {
    && (k in a.events <==> k in b.events)
    && (k in a.events ==>
          var e, f := a.events[k], b.events[k];
          && e.content == f.content
          && e.version == f.version
          && forall v :: 1 <= v <= e.version ==> SameSnapshot(a, e.id, b, f.id, v))
  }

  ghost predicate SameSnapshot(a: Store, i: Uuid, b: Store, j: Uuid, v: int) {
    && VersionKey(i, v) in a.versions && VersionKey(j, v) in b.versions
    && a.versions[VersionKey(i, v)].content == b.versions[VersionKey(j, v)].content
  }

  ghost predicate AllSameHistory(a: Store, b: Store) {
    forall k :: SameHistory(a, b, k)
  }

  lemma {:induction false} SameHistoryForward(a: Store, b: Store, k: Key, x: seq<string>, y: seq<string>)
    requires Recorded(a, k, x) && Recorded(b, k, y) && Destutter(x) == Destutter(y)
    ensures SameHistory(a, b, k)
  {
    if x != [] {
      var e, f := a.events[k], b.events[k];
      assert VersionsAre(a.versions, e, Destutter(x)) && VersionsAre(b.versions, f, Destutter(y));
      forall v | 1 <= v <= e.version ensures SameSnapshot(a, e.id, b, f.id, v) {
        assert VersionKey(e.id, v) in a.versions;
        assert VersionKey(f.id, v) in b.versions;
      }
    }
  }

  lemma {:induction false} SameHistoryBackward(a: Store, b: Store, k: Key, x: seq<string>, y: seq<string>)
    requires Recorded(a, k, x) && Recorded(b, k, y) && SameHistory(a, b, k)
    ensures Destutter(x) == Destutter(y)
  {
    if x != [] {
      var e, f := a.events[k], b.events[k];
      assert VersionsAre(a.versions, e, Destutter(x)) && VersionsAre(b.versions, f, Destutter(y));
      forall i | 0 <= i < |Destutter(x)| ensures Destutter(x)[i] == Destutter(y)[i] {
        assert SameSnapshot(a, e.id, b, f.id, i + 1);
      }
    }
  }

  /** What was submitted for a key is the same, less consecutive repeats. */
  ghost predicate SameSubmissions(x: seq<Item>, y: seq<Item>, k: Key) {
    Destutter(ContentsFor(k, x)) == Destutter(ContentsFor(k, y))
  }

  ghost predicate AllSameSubmissions(x: seq<Item>, y: seq<Item>) {
    forall k :: SameSubmissions(x, y, k)
  }

  /** Histories agree exactly when the submissions do, less consecutive repeats. */
  lemma {:induction false} HistoriesAgreeIff(x: seq<Item>, y: seq<Item>)
    requires FreshItems(x) && FreshItems(y)
    ensures AllSameHistory(UpsertAll(EMPTY, x), UpsertAll(EMPTY, y)) <==>
            AllSameSubmissions(x, y)
  {
    var a, b := UpsertAll(EMPTY, x), UpsertAll(EMPTY, y);
    forall k ensures SameHistory(a, b, k) <==> SameSubmissions(x, y, k) {
      RecordedBy(x, k);
      RecordedBy(y, k);
      SameHistoryIff(a, b, k, ContentsFor(k, x), ContentsFor(k, y));
    }
  }

  lemma {:induction false} RecordedBy(items: seq<Item>, k: Key)
    requires FreshItems(items)
    ensures Recorded(UpsertAll(EMPTY, items), k, ContentsFor(k, items))
  {
    HistoryTheorem(items);
  }

  lemma {:induction false} SameHistoryIff(a: Store, b: Store, k: Key, x: seq<string>, y: seq<string>)
    requires Recorded(a, k, x) && Recorded(b, k, y)
    ensures SameHistory(a, b, k) <==> Destutter(x) == Destutter(y)
  {
    if Destutter(x) == Destutter(y) {
      SameHistoryForward(a, b, k, x, y);
    } else if SameHistory(a, b, k) {
      SameHistoryBackward(a, b, k, x, y);
    }
  }
}
