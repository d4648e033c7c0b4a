/** An incremental sync that misses an object, and the supply of ids that such runs draw on. */
module MissedObjects {
  import opened Basics
  import opened Keyset
  import opened History
  import opened FileSync
  import opened SyncRefinement

  // ---- Fresh supplies ---------------------------------------------------------------------

  /** The `a`-th id supplied to the `i`-th sync. */
  ghost predicate SuppliedAs(polls: seq<Poll>, id: Uuid, i: nat, a: nat) {
    i < |polls| && a < |polls[i].ids| && polls[i].ids[a] == id
  }

  /** No id is supplied twice. */
  ghost predicate DistinctSupply(polls: seq<Poll>) {
    forall id, i, a, j, b :: SuppliedAs(polls, id, i, a) && SuppliedAs(polls, id, j, b) ==> i == j && a == b
  }

  ghost predicate FromSupply(polls: seq<Poll>, id: Uuid) {
    exists i: nat, a: nat :: SuppliedAs(polls, id, i, a)
  }

  lemma {:induction false} SubmittedFromSupply(bucket: string, polls: seq<Poll>, full: bool)
    requires Legal(polls)
    ensures forall n :: 0 <= n < |Submitted(bucket, polls, full)| ==>
              FromSupply(polls, Submitted(bucket, polls, full)[n].eventId)
  {
    if polls != [] {
      var init, last := polls[..|polls| - 1], polls[|polls| - 1];
      SubmittedFromSupply(bucket, init, full);
      var before, items := Submitted(bucket, init, full), Submitted(bucket, polls, full);
      forall n | 0 <= n < |items| ensures FromSupply(polls, items[n].eventId) {
        if n < |before| {
          assert FromSupply(init, before[n].eventId);
          var i: nat, a: nat :| SuppliedAs(init, before[n].eventId, i, a);
          assert SuppliedAs(polls, items[n].eventId, i, a);
        } else {
          assert SuppliedAs(polls, items[n].eventId, |init|, n - |before|);
        }
      }
    }
  }

  lemma {:induction false} FreshSubmitted(bucket: string, polls: seq<Poll>, full: bool)
    requires Legal(polls) && DistinctSupply(polls)
    ensures FreshItems(Submitted(bucket, polls, full))
  {
    if polls != [] {
      var init := polls[..|polls| - 1];
      DistinctPrefixSupply(polls);
      FreshSubmitted(bucket, init, full);
      SubmittedFromSupply(bucket, init, full);
      var before, items := Submitted(bucket, init, full), Submitted(bucket, polls, full);
      forall m, n | 0 <= m < n < |items| ensures items[m].eventId != items[n].eventId {
        if n >= |before| {
          assert SuppliedAs(polls, items[n].eventId, |init|, n - |before|);
          if m < |before| {
            assert FromSupply(init, before[m].eventId);
            var i: nat, a: nat :| SuppliedAs(init, before[m].eventId, i, a);
            assert SuppliedAs(polls, items[m].eventId, i, a);
          } else {
            assert SuppliedAs(polls, items[m].eventId, |init|, m - |before|);
          }
        }
      }
    }
  }

  lemma {:induction false} DistinctPrefixSupply(polls: seq<Poll>)
    requires polls != [] && DistinctSupply(polls)
    ensures DistinctSupply(polls[..|polls| - 1])
  {
    var init := polls[..|polls| - 1];
    forall id, i, a, j, b | SuppliedAs(init, id, i, a) && SuppliedAs(init, id, j, b) ensures i == j && a == b {
      assert SuppliedAs(polls, id, i, a) && SuppliedAs(polls, id, j, b);
    }
  }

  /** Ids that are never supplied twice make every run fresh. */
  lemma {:induction false} DistinctSupplyIsFresh(bucket: string, polls: seq<Poll>)
    requires Legal(polls) && DistinctSupply(polls)
    ensures FreshRuns(bucket, polls)
  {
    FreshSubmitted(bucket, polls, false);
    FreshSubmitted(bucket, polls, true);
    if polls != [] {
      DistinctPrefixSupply(polls);
      DistinctSupplyIsFresh(bucket, polls[..|polls| - 1]);
    }
  }

  // ---- A missed object --------------------------------------------------------------------

  const SEEN := Object("a", 1, "", Some(5))

  /** Uploaded after the first sync, but dated no later than what that sync saw. */
  const LATE := Object("b", 1, "", Some(5))

  const FIRST := Poll([[SEEN]], Committed, "", 0, (o: Object) => 0, [1], [Pos(1, 1)])
  const SECOND := Poll([[SEEN, LATE]], Committed, "", 0, (o: Object) => 0, [2, 3], [Pos(2, 2), Pos(2, 3)])

  lemma {:induction false} PollObjects()
    ensures FIRST.Objects() == [SEEN] && SECOND.Objects() == [SEEN, LATE]
  {
    assert [[SEEN]][..0] == [] && [[SEEN, LATE]][..0] == [];
    assert Flatten([]) + [SEEN] == [SEEN] && Flatten([]) + [SEEN, LATE] == [SEEN, LATE];
  }

  lemma {:induction false} GoodPolls()
    ensures FIRST.Supplied() && SECOND.Supplied() && UniqueKeys(FIRST.Objects()) && UniqueKeys(SECOND.Objects())
  {
    PollObjects();
    assert SEEN.key[0] != LATE.key[0];
  }

  lemma {:induction false} TwoPolls()
    ensures Legal([FIRST, SECOND]) && Legal([FIRST]) && DistinctSupply([FIRST, SECOND])
  {
    GoodPolls();
    ThreeIds();
  }

  lemma {:induction false} ThreeIds()
    ensures DistinctSupply([FIRST, SECOND])
  {
    var polls := [FIRST, SECOND];
    forall id, i, a, j, b | SuppliedAs(polls, id, i, a) && SuppliedAs(polls, id, j, b) ensures i == j && a == b {
      assert i == 0 ==> id == 1;
      assert i == 1 ==> id == (if a == 0 then 2 else 3);
      assert j == 0 ==> id == 1;
      assert j == 1 ==> id == (if b == 0 then 2 else 3);
    }
  }

  /** The first sync moves the cursor to the date of what it saw. */
  lemma {:induction false} CursorAfterFirst()
    requires FIRST.Supplied()
    ensures Run("x", [FIRST], false).cursor == Some(5)
  {
    PollObjects();
    assert [FIRST][..0] == [];
    var listed := Listed([SEEN], None);
    assert [SEEN][..0] == [] && listed == [SEEN];
    var batch := Normalized("x", listed, FIRST);
    assert batch == [Normalize("x", SEEN, 0, 0).value];
    assert Fetched("x", FIRST, None) == batch;
    assert batch[..0] == [];
    assert Latest(batch) == Some(5);
  }

  lemma {:induction false} LateIsUnknown()
    requires Legal([FIRST])
    ensures !Current("x", [FIRST], LATE)
  {
    PollObjects();
    var k := KeyOf("x", LATE);
    assert [FIRST][..0] == [];
    SubmittedMore("x", [FIRST], false);
    ItemsSubmitOnce("x", FIRST, None, k);
    if IsFor("x", SEEN, k) {
      SameExternalId("x", SEEN, LATE);
    }
    assert Behind("x", [SEEN], k) == None;
    assert [] + ItemsOf("x", FIRST, None) == ItemsOf("x", FIRST, None);
  }

  /** The object that is dated at the cursor is missed: the histories part. */
  lemma {:induction false} LateObjectIsMissed()
    ensures Legal([FIRST, SECOND]) && FreshRuns("x", [FIRST, SECOND])
    ensures !AlwaysSameHistories("x", [FIRST, SECOND])
  {
    var polls := [FIRST, SECOND];
    TwoPolls();
    DistinctSupplyIsFresh("x", polls);
    IncrementalRefinesFullIff("x", polls);
    PollObjects();
    CursorAfterFirst();
    LateIsUnknown();
    assert polls[..1] == [FIRST];
    assert LATE in SECOND.Objects() && !Offered(LATE, Run("x", [FIRST], false).cursor);
    assert !SkipsCurrent("x", [FIRST], SECOND);
  }
}
