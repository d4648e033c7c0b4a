/**
 When the vector index equals the replay of the published outbox rows: exactly as long as every
 delivery is harmless.  In a run that commits, a harmful one delivers a row after a newer row of
 its event, or fails although it was applied; in a run that is rolled back, any that shows.
 */
module Replaying {
  import opened Basics
  import opened Sequences
  import opened Schema
  import opened Publisher
  import Bound = PublisherBound

  /** The index that replaying the published rows of the table would build. */
  function Replayed(rows: seq<OutboxRow>): map<Uuid, Point> {
    if rows == [] then map[]
    else
      var index, last := Replayed(rows[..|rows| - 1]), rows[|rows| - 1];
      if last.status == Published then index[last.change.eventId := PointOf(last.change)] else index
  }

  lemma {:induction false} ReplayedAppend(rows: seq<OutboxRow>, row: OutboxRow)
    ensures Replayed(rows + [row]) ==
            if row.status == Published then Replayed(rows)[row.change.eventId := PointOf(row.change)]
            else Replayed(rows)
  {
    assert (rows + [row])[..|rows|] == rows;
  }

  lemma {:induction false} ReplayedPending(rows: seq<OutboxRow>, added: seq<OutboxRow>)
    requires forall a :: 0 <= a < |added| ==> added[a].status == Pending
    ensures Replayed(rows + added) == Replayed(rows)
    decreases |added|
  {
    if added == [] {
      assert rows + added == rows;
    } else {
      var init, last := added[..|added| - 1], added[|added| - 1];
      assert rows + added == rows + init + [last];
      ReplayedPending(rows, init);
      ReplayedAppend(rows + init, last);
    }
  }

  /** Publishing a row that no published row of its event follows sets its point. */
  lemma {:induction false} ReplayedPublish(rows: seq<OutboxRow>, x: nat, row: OutboxRow)
    requires x < |rows| && row.status == Published && row.change == rows[x].change
    requires forall j :: x < j < |rows| && rows[j].change.eventId == row.change.eventId ==>
               rows[j].status != Published
    ensures Replayed(rows[x := row]) == Replayed(rows)[row.change.eventId := PointOf(row.change)]
    decreases |rows|
  {
    var n := |rows| - 1;
    var init, last := rows[..n], rows[n];
    assert rows == init + [last];
    if x == n {
      assert rows[x := row] == init + [row];
      ReplayedAppend(init, row);
      ReplayedAppend(init, last);
    } else {
      assert rows[x := row] == init[x := row] + [last];
      ReplayedPublish(init, x, row);
      ReplayedAppend(init[x := row], last);
      ReplayedAppend(init, last);
    }
  }

  // ---- One delivery -----------------------------------------------------------------------

  predicate Shows(index: map<Uuid, Point>, c: Change) {
    c.eventId in index && index[c.eventId] == PointOf(c)
  }

  /** A row of the same event behind row `x` was published before it. */
  ghost predicate Overtaken(rows: seq<OutboxRow>, x: nat)
    requires x < |rows|
  {
    exists j :: PublishedBehind(rows, x, j)
  }

  ghost predicate PublishedBehind(rows: seq<OutboxRow>, x: nat, j: int)
    requires x < |rows|
  {
    x < j < |rows| && rows[j].change.eventId == rows[x].change.eventId && rows[j].status == Published
  }

  /**
   An accepted row is not overtaken, a failed one was not applied, or the index shows the same
   point as it is.
   */
  ghost predicate Harmless(rows: seq<OutboxRow>, x: nat, o: Outcome)
    requires x < |rows|
  {
    || Shows(Replayed(rows), rows[x].change)
    || (if o.Acked? then !Overtaken(rows, x) else !o.applied)
  }

  /** The indexes differ for these events at most. */
  ghost predicate SameApart(a: map<Uuid, Point>, b: map<Uuid, Point>, ids: set<Uuid>) {
    forall k :: k !in ids ==> (k in a <==> k in b) && (k in a ==> a[k] == b[k])
  }

  /** Changing a row changes the replay only for its event. */
  lemma {:induction false} ReplayedElsewhere(rows: seq<OutboxRow>, x: nat, row: OutboxRow)
    requires x < |rows| && row.change.eventId == rows[x].change.eventId
    ensures SameApart(Replayed(rows[x := row]), Replayed(rows), {row.change.eventId})
    decreases |rows|
  {
    var n := |rows| - 1;
    var init, last := rows[..n], rows[n];
    assert rows == init + [last];
    ReplayedAppend(init, last);
    if x == n {
      assert rows[x := row] == init + [row];
      ReplayedAppend(init, row);
    } else {
      assert rows[x := row] == init[x := row] + [last];
      ReplayedElsewhere(init, x, row);
      ReplayedAppend(init[x := row], last);
    }
  }

  /** Behind a published row of the same event a row does not show. */
  lemma {:induction false} ReplayedMasked(rows: seq<OutboxRow>, x: nat, row: OutboxRow)
    requires x < |rows| && row.change == rows[x].change && Overtaken(rows, x)
    ensures Replayed(rows[x := row]) == Replayed(rows)
    decreases |rows|
  {
    var n := |rows| - 1;
    var init, last := rows[..n], rows[n];
    var j :| PublishedBehind(rows, x, j);
    assert rows == init + [last] && rows[x := row] == init[x := row] + [last];
    ReplayedAppend(init[x := row], last);
    ReplayedAppend(init, last);
    if j < n {
      assert PublishedBehind(init, x, j);
      ReplayedMasked(init, x, row);
    } else {
      ReplayedElsewhere(init, x, row);
      SameOnceSet(Replayed(init[x := row]), Replayed(init), row.change.eventId, PointOf(last.change));
    }
  }

  lemma {:induction false} SameOnceSet(a: map<Uuid, Point>, b: map<Uuid, Point>, id: Uuid, point: Point)
    requires SameApart(a, b, {id})
    ensures a[id := point] == b[id := point]
  {
  }

  /** A row that is not published does not show. */
  lemma {:induction false} ReplayedUnpublished(rows: seq<OutboxRow>, x: nat, row: OutboxRow)
    requires x < |rows| && row.status != Published && rows[x].status != Published
    ensures Replayed(rows[x := row]) == Replayed(rows)
    decreases |rows|
  {
    var n := |rows| - 1;
    var init, last := rows[..n], rows[n];
    assert rows == init + [last];
    ReplayedAppend(init, last);
    if x == n {
      assert rows[x := row] == init + [row];
      ReplayedAppend(init, row);
    } else {
      assert rows[x := row] == init[x := row] + [last];
      ReplayedUnpublished(init, x, row);
      ReplayedAppend(init[x := row], last);
    }
  }

  lemma {:induction false} SetsNothingIff(index: map<Uuid, Point>, c: Change)
    ensures index[c.eventId := PointOf(c)] == index <==> Shows(index, c)
  {
    assert index[c.eventId := PointOf(c)][c.eventId] == PointOf(c);
  }

  /** One delivery takes the index from the replay before it to the replay after it iff it is harmless. */
  lemma {:induction false} DeliveryReplaysIff(rows: seq<OutboxRow>, x: nat, o: Outcome, max: nat)
    requires x < |rows| && rows[x].status == Pending
    ensures Indexed(Replayed(rows), rows[x].change, o) == Replayed(rows[x := Marked(rows[x], o, max)]) <==>
            Harmless(rows, x, o)
  {
    var row := Marked(rows[x], o, max);
    SetsNothingIff(Replayed(rows), rows[x].change);
    if o.Unacked? {
      ReplayedUnpublished(rows, x, row);
    } else if Overtaken(rows, x) {
      ReplayedMasked(rows, x, row);
    } else {
      forall j | x < j < |rows| && rows[j].change.eventId == row.change.eventId
        ensures rows[j].status != Published
      {
        assert !PublishedBehind(rows, x, j);
      }
      ReplayedPublish(rows, x, row);
    }
  }

  // ---- One run ----------------------------------------------------------------------------

  /** After every delivery of the batch, the index is the replay of the rows then published. */
  ghost predicate ReplaysBatch(
    index: map<Uuid, Point>, rows: seq<OutboxRow>, batch: seq<nat>, outcomes: seq<Outcome>, max: nat)
    requires |batch| == |outcomes| && InTable(rows, batch)
  {
    && IndexedAll(index, rows, batch, outcomes) == Replayed(Processed(rows, batch, outcomes, max))
    && (batch != [] ==> ReplaysBatch(index, rows, batch[..|batch| - 1], outcomes[..|batch| - 1], max))
  }

  ghost predicate AllHarmless(rows: seq<OutboxRow>, batch: seq<nat>, outcomes: seq<Outcome>, max: nat)
    requires |batch| == |outcomes| && InTable(rows, batch)
  {
    batch != [] ==>
      var n := |batch| - 1;
      && AllHarmless(rows, batch[..n], outcomes[..n], max)
      && Harmless(Processed(rows, batch[..n], outcomes[..n], max), batch[n], outcomes[n])
  }

  lemma {:induction false} AllHarmlessAppend(
    rows: seq<OutboxRow>, batch: seq<nat>, outcomes: seq<Outcome>, x: nat, o: Outcome, max: nat)
    requires |batch| == |outcomes| && InTable(rows, batch) && x < |rows| && AllHarmless(rows, batch, outcomes, max)
    requires Harmless(Processed(rows, batch, outcomes, max), x, o)
    ensures InTable(rows, batch + [x]) && AllHarmless(rows, batch + [x], outcomes + [o], max)
  {
    assert (batch + [x])[..|batch|] == batch && (outcomes + [o])[..|outcomes|] == outcomes;
  }

  ghost predicate AllPending(rows: seq<OutboxRow>, batch: seq<nat>) {
    forall p :: 0 <= p < |batch| ==> batch[p] < |rows| && rows[batch[p]].status == Pending
  }

  lemma {:induction false} BatchPending(rows: seq<OutboxRow>, batch: seq<nat>, limit: nat)
    requires IsBatch(rows, {}, limit, batch)
    ensures AllPending(rows, batch)
  {
    forall p | 0 <= p < |batch| ensures batch[p] < |rows| && rows[batch[p]].status == Pending {
      assert Eligible(rows, {}, batch[p]);
    }
  }

  lemma {:induction false} NextDelivery(
    index: map<Uuid, Point>, rows: seq<OutboxRow>, batch: seq<nat>, outcomes: seq<Outcome>, max: nat)
    requires |batch| == |outcomes| && batch != [] && NoRepeats(batch) && AllPending(rows, batch)
    requires ReplaysBatch(index, rows, batch[..|batch| - 1], outcomes[..|batch| - 1], max)
    ensures var n := |batch| - 1;
            IndexedAll(index, rows, batch, outcomes) == Replayed(Processed(rows, batch, outcomes, max)) <==>
            Harmless(Processed(rows, batch[..n], outcomes[..n], max), batch[n], outcomes[n])
  {
    var n := |batch| - 1;
    var mid := Processed(rows, batch[..n], outcomes[..n], max);
    ProcessedAt(rows, batch[..n], outcomes[..n], max);
    assert batch[n] !in batch[..n];
    assert mid[batch[n]] == rows[batch[n]];
    DeliveryReplaysIff(mid, batch[n], outcomes[n], max);
  }

  lemma {:induction false} ReplaysBatchIff(
    index: map<Uuid, Point>, rows: seq<OutboxRow>, batch: seq<nat>, outcomes: seq<Outcome>, max: nat)
    requires |batch| == |outcomes| && NoRepeats(batch) && AllPending(rows, batch) && index == Replayed(rows)
    ensures ReplaysBatch(index, rows, batch, outcomes, max) <==> AllHarmless(rows, batch, outcomes, max)
  {
    if batch != [] {
      var n := |batch| - 1;
      ReplaysBatchIff(index, rows, batch[..n], outcomes[..n], max);
      if ReplaysBatch(index, rows, batch[..n], outcomes[..n], max) {
        NextDelivery(index, rows, batch, outcomes, max);
      }
    }
  }

  // ---- A run that is rolled back ----------------------------------------------------------

  /** After every delivery of a run whose marks are lost, the index is the replay as it was. */
  ghost predicate ReplaysUnmarked(
    index: map<Uuid, Point>, rows: seq<OutboxRow>, batch: seq<nat>, outcomes: seq<Outcome>)
    requires |batch| == |outcomes| && InTable(rows, batch)
  {
    && IndexedAll(index, rows, batch, outcomes) == Replayed(rows)
    && (batch != [] ==> ReplaysUnmarked(index, rows, batch[..|batch| - 1], outcomes[..|batch| - 1]))
  }

  /** Whatever was applied shows already. */
  ghost predicate AppliesNothingNew(rows: seq<OutboxRow>, batch: seq<nat>, outcomes: seq<Outcome>)
    requires |batch| == |outcomes| && InTable(rows, batch)
  {
    forall p :: 0 <= p < |batch| && Applied(outcomes[p]) ==> Shows(Replayed(rows), rows[batch[p]].change)
  }

  lemma {:induction false} AppliesNothingNewLast(rows: seq<OutboxRow>, batch: seq<nat>, outcomes: seq<Outcome>)
    requires |batch| == |outcomes| && InTable(rows, batch) && batch != []
    ensures var n := |batch| - 1;
            AppliesNothingNew(rows, batch, outcomes) <==>
            && AppliesNothingNew(rows, batch[..n], outcomes[..n])
            && (Applied(outcomes[n]) ==> Shows(Replayed(rows), rows[batch[n]].change))
  {
    var n := |batch| - 1;
    assert batch == batch[..n] + [batch[n]] && outcomes == outcomes[..n] + [outcomes[n]];
  }

  lemma {:induction false} ReplaysUnmarkedIff(
    index: map<Uuid, Point>, rows: seq<OutboxRow>, batch: seq<nat>, outcomes: seq<Outcome>)
    requires |batch| == |outcomes| && InTable(rows, batch) && index == Replayed(rows)
    ensures ReplaysUnmarked(index, rows, batch, outcomes) <==> AppliesNothingNew(rows, batch, outcomes)
  {
    if batch != [] {
      var n := |batch| - 1;
      ReplaysUnmarkedIff(index, rows, batch[..n], outcomes[..n]);
      AppliesNothingNewLast(rows, batch, outcomes);
      SetsNothingIff(Replayed(rows), rows[batch[n]].change);
    }
  }

  // ---- All runs ---------------------------------------------------------------------------

  /**
   A run of the publisher, followed by the rows enqueued before the next one.  If it is rolled
   back, its deliveries stay made: all of them when the commit fails, some when it crashes.
   */
  datatype Attempt =
    | Committed(run: Bound.Run)
    | RolledBack(batch: seq<nat>, outcomes: seq<Outcome>, added: seq<OutboxRow>)

  ghost predicate LegalAttempt(rows: seq<OutboxRow>, a: Attempt, l: Limits) {
    match a
    case Committed(run) => Bound.LegalRun(rows, run, l)
    case RolledBack(batch, outcomes, added) =>
      IsBatch(rows, {}, l.batchSize, batch) && |outcomes| <= |batch| && Bound.Enqueued(rows, added)
  }

  /** The rows afterwards: a rolled-back run marks none. */
  ghost function AfterAttempt(rows: seq<OutboxRow>, a: Attempt, l: Limits): seq<OutboxRow>
    requires LegalAttempt(rows, a, l)
  {
    match a
    case Committed(run) => Bound.AfterRun(rows, run, l)
    case RolledBack(_, _, added) => rows + added
  }

  /** The rows delivered and how that went. */
  function Made(a: Attempt): seq<nat> {
    match a
    case Committed(run) => run.batch
    case RolledBack(batch, outcomes, _) => if |outcomes| <= |batch| then batch[..|outcomes|] else batch
  }

  function Ends(a: Attempt): seq<Outcome> {
    match a
    case Committed(run) => run.outcomes
    case RolledBack(_, outcomes, _) => outcomes
  }

  lemma {:induction false} BatchInTable(rows: seq<OutboxRow>, run: Bound.Run, l: Limits)
    requires Bound.LegalRun(rows, run, l)
    ensures forall p :: 0 <= p < |run.batch| ==> run.batch[p] < |rows|
  {
    forall p | 0 <= p < |run.batch| ensures run.batch[p] < |rows| {
      assert Eligible(rows, {}, run.batch[p]);
    }
  }

  lemma {:induction false} MadeInTable(rows: seq<OutboxRow>, a: Attempt, l: Limits)
    requires LegalAttempt(rows, a, l)
    ensures |Made(a)| == |Ends(a)| && InTable(rows, Made(a))
  {
    var batch := if a.Committed? then a.run.batch else a.batch;
    BatchPending(rows, batch, l.batchSize);
  }

  ghost function AfterDeliveries(index: map<Uuid, Point>, rows: seq<OutboxRow>, a: Attempt, l: Limits)
    : map<Uuid, Point>
    requires LegalAttempt(rows, a, l)
  {
    MadeInTable(rows, a, l);
    IndexedAll(index, rows, Made(a), Ends(a))
  }

  ghost predicate LegalAttempts(rows: seq<OutboxRow>, attempts: seq<Attempt>, l: Limits)
    decreases |attempts|
  {
    attempts != [] ==>
      LegalAttempt(rows, attempts[0], l) && LegalAttempts(AfterAttempt(rows, attempts[0], l), attempts[1..], l)
  }

  /** After every delivery of the run, the index is the replay of the rows that count as published. */
  ghost predicate ReplaysAttempt(index: map<Uuid, Point>, rows: seq<OutboxRow>, a: Attempt, l: Limits)
    requires LegalAttempt(rows, a, l)
  {
    MadeInTable(rows, a, l);
    if a.Committed? then ReplaysBatch(index, rows, Made(a), Ends(a), l.maxAttempts)
    else ReplaysUnmarked(index, rows, Made(a), Ends(a))
  }

  /** The same over runs of both kinds, with rows enqueued in between. */
  ghost predicate ReplaysRuns(index: map<Uuid, Point>, rows: seq<OutboxRow>, attempts: seq<Attempt>, l: Limits)
    requires LegalAttempts(rows, attempts, l)
    decreases |attempts|
  {
    && index == Replayed(rows)
    && (attempts != [] ==>
          var a := attempts[0];
          && ReplaysAttempt(index, rows, a, l)
          && ReplaysRuns(AfterDeliveries(index, rows, a, l), AfterAttempt(rows, a, l), attempts[1..], l))
  }

  ghost predicate HarmlessAttempt(rows: seq<OutboxRow>, a: Attempt, l: Limits)
    requires LegalAttempt(rows, a, l)
  {
    MadeInTable(rows, a, l);
    if a.Committed? then AllHarmless(rows, Made(a), Ends(a), l.maxAttempts)
    else AppliesNothingNew(rows, Made(a), Ends(a))
  }

  ghost predicate HarmlessRuns(rows: seq<OutboxRow>, attempts: seq<Attempt>, l: Limits)
    requires LegalAttempts(rows, attempts, l)
    decreases |attempts|
  {
    attempts != [] ==>
      && HarmlessAttempt(rows, attempts[0], l)
      && HarmlessRuns(AfterAttempt(rows, attempts[0], l), attempts[1..], l)
  }

  ghost function AfterAttempts(rows: seq<OutboxRow>, attempts: seq<Attempt>, l: Limits): seq<OutboxRow>
    requires LegalAttempts(rows, attempts, l)
    decreases |attempts|
  {
    if attempts == [] then rows else AfterAttempts(AfterAttempt(rows, attempts[0], l), attempts[1..], l)
  }

  ghost function IndexAfterAttempts(
    index: map<Uuid, Point>, rows: seq<OutboxRow>, attempts: seq<Attempt>, l: Limits): map<Uuid, Point>
    requires LegalAttempts(rows, attempts, l)
    decreases |attempts|
  {
    if attempts == [] then index
    else
      IndexAfterAttempts(AfterDeliveries(index, rows, attempts[0], l), AfterAttempt(rows, attempts[0], l),
                         attempts[1..], l)
  }

  lemma {:induction false} AttemptReplaysIff(index: map<Uuid, Point>, rows: seq<OutboxRow>, a: Attempt, l: Limits)
    requires LegalAttempt(rows, a, l) && index == Replayed(rows)
    ensures ReplaysAttempt(index, rows, a, l) <==> HarmlessAttempt(rows, a, l)
  {
    MadeInTable(rows, a, l);
    if a.Committed? {
      BatchPending(rows, a.run.batch, l.batchSize);
      ReplaysBatchIff(index, rows, Made(a), Ends(a), l.maxAttempts);
    } else {
      ReplaysUnmarkedIff(index, rows, Made(a), Ends(a));
    }
  }

  lemma {:induction false} AttemptReplays(index: map<Uuid, Point>, rows: seq<OutboxRow>, a: Attempt, l: Limits)
    requires LegalAttempt(rows, a, l) && ReplaysAttempt(index, rows, a, l)
    ensures AfterDeliveries(index, rows, a, l) == Replayed(AfterAttempt(rows, a, l))
  {
    MadeInTable(rows, a, l);
    match a
    case Committed(run) =>
      ReplayedPending(Processed(rows, run.batch, run.outcomes, l.maxAttempts), run.added);
    case RolledBack(_, _, added) =>
      ReplayedPending(rows, added);
  }

  /**
   Over any runs of the single worker, committed or rolled back, with any failures and anything
   enqueued in between: the index equals the replay of the published rows after every delivery
   if and only if every delivery was harmless.
   */
  lemma {:induction false} IndexReplaysIff(
    index: map<Uuid, Point>, rows: seq<OutboxRow>, attempts: seq<Attempt>, l: Limits)
    requires LegalAttempts(rows, attempts, l) && index == Replayed(rows)
    ensures ReplaysRuns(index, rows, attempts, l) <==> HarmlessRuns(rows, attempts, l)
    decreases |attempts|
  {
    if attempts != [] {
      var a := attempts[0];
      AttemptReplaysIff(index, rows, a, l);
      if ReplaysAttempt(index, rows, a, l) {
        AttemptReplays(index, rows, a, l);
        IndexReplaysIff(AfterDeliveries(index, rows, a, l), AfterAttempt(rows, a, l), attempts[1..], l);
      }
    }
  }
}
