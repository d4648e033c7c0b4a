/**
 Delivery at least once is enough: what rolled-back runs left in the vector index is repaired by
 the next run that commits and whose deliveries are all applied.
 */
module Redelivery {
  import opened Basics
  import opened Sequences
  import opened Schema
  import opened Publisher
  import opened Replaying
  import Bound = PublisherBound

  // ---- The same rows again ----------------------------------------------------------------

  ghost predicate AgesDiffer(rows: seq<OutboxRow>) {
    forall i, j :: 0 <= i < j < |rows| && rows[i].status == Pending && rows[j].status == Pending ==>
      rows[i].pos.ts != rows[j].pos.ts
  }

  /** The later batch takes only rows that the earlier one took, too, if it leaves out one of those. */
  lemma {:induction false} LeftOutFor(
    rows: seq<OutboxRow>, added: seq<OutboxRow>, first: seq<nat>, again: seq<nat>, limit: nat, x: nat)
    requires IsBatch(rows, {}, limit, first) && Bound.Enqueued(rows, added) && AgesDiffer(rows + added)
    requires IsBatch(rows + added, {}, limit, again) && x in first && x !in again
    ensures x < |rows| && |again| == limit
    ensures forall y :: y in again ==> y in first
  {
    var p :| 0 <= p < |first| && first[p] == x;
    assert Eligible(rows, {}, first[p]);
    assert Eligible(rows + added, {}, x);
    forall y | y in again ensures y in first {
      OlderRow(rows, added, again, limit, x, y);
      assert Eligible(rows, {}, y);
    }
  }

  /** A row taken before `x` is older than `x`. */
  lemma {:induction false} OlderRow(
    rows: seq<OutboxRow>, added: seq<OutboxRow>, again: seq<nat>, limit: nat, x: nat, y: nat)
    requires Bound.Enqueued(rows, added) && AgesDiffer(rows + added)
    requires IsBatch(rows + added, {}, limit, again) && y in again
    requires x !in again && Eligible(rows, {}, x)
    ensures y < |rows| && rows[y].status == Pending && rows[y].pos.ts < rows[x].pos.ts
  {
    var all := rows + added;
    assert Eligible(all, {}, x);
    var q :| 0 <= q < |again| && again[q] == y;
    assert Eligible(all, {}, again[q]);
    assert all[x] == rows[x] && all[again[q]].pos.ts <= all[x].pos.ts;
  }

  /** Nothing was marked and new rows are younger, so a batch is taken again. */
  lemma {:induction false} TakenAgain(
    rows: seq<OutboxRow>, added: seq<OutboxRow>, first: seq<nat>, again: seq<nat>, limit: nat, x: nat)
    requires IsBatch(rows, {}, limit, first) && Bound.Enqueued(rows, added) && AgesDiffer(rows + added)
    requires IsBatch(rows + added, {}, limit, again) && x in first
    ensures x in again
  {
    if x !in again {
      LeftOutFor(rows, added, first, again, limit, x);
      BatchPending(rows, first, limit);
      BatchPending(rows + added, again, limit);
      var n := |rows + added|;
      TakenAll(first, n);
      TakenAll(again, n);
      FewerTaken(again, first, x, n);
      assert false;
    }
  }

  // ---- What a rolled-back run leaves ------------------------------------------------------

  function IdsOf(rows: seq<OutboxRow>, batch: seq<nat>): set<Uuid>
    requires InTable(rows, batch)
  {
    set p | 0 <= p < |batch| :: rows[batch[p]].change.eventId
  }

  lemma {:induction false} IdsOfLast(rows: seq<OutboxRow>, batch: seq<nat>)
    requires InTable(rows, batch) && batch != []
    ensures IdsOf(rows, batch) == IdsOf(rows, batch[..|batch| - 1]) + {rows[batch[|batch| - 1]].change.eventId}
  {
    var n := |batch| - 1;
    assert batch == batch[..n] + [batch[n]];
    assert forall p :: 0 <= p < n ==> batch[..n][p] == batch[p];
  }

  /** Deliveries touch only the events of the rows delivered. */
  lemma {:induction false} TouchesOwnEvents(
    index: map<Uuid, Point>, rows: seq<OutboxRow>, batch: seq<nat>, outcomes: seq<Outcome>)
    requires |batch| == |outcomes| && InTable(rows, batch)
    ensures SameApart(IndexedAll(index, rows, batch, outcomes), index, IdsOf(rows, batch))
  {
    if batch != [] {
      var n := |batch| - 1;
      TouchesOwnEvents(index, rows, batch[..n], outcomes[..n]);
      IdsOfLast(rows, batch);
    }
  }

  /** Deliveries that are all applied wipe out earlier differences of their events. */
  lemma {:induction false} DifferencesShrink(
    a: map<Uuid, Point>, b: map<Uuid, Point>, ids: set<Uuid>,
    rows: seq<OutboxRow>, batch: seq<nat>, outcomes: seq<Outcome>)
    requires |batch| == |outcomes| && InTable(rows, batch) && SameApart(a, b, ids)
    requires forall p :: 0 <= p < |batch| ==> Applied(outcomes[p])
    ensures SameApart(IndexedAll(a, rows, batch, outcomes), IndexedAll(b, rows, batch, outcomes),
                      ids - IdsOf(rows, batch))
  {
    if batch != [] {
      var n := |batch| - 1;
      DifferencesShrink(a, b, ids, rows, batch[..n], outcomes[..n]);
      IdsOfLast(rows, batch);
    }
  }

  lemma {:induction false} SameEverywhere(a: map<Uuid, Point>, b: map<Uuid, Point>)
    requires SameApart(a, b, {})
    ensures a == b
  {
  }

  /** The index is off at most for events that any next batch delivers. */
  ghost predicate OffWithin(index: map<Uuid, Point>, rows: seq<OutboxRow>, batch: seq<nat>) {
    InTable(rows, batch) && SameApart(index, Replayed(rows), IdsOf(rows, batch))
  }

  ghost predicate Repairable(index: map<Uuid, Point>, rows: seq<OutboxRow>, limit: nat) {
    forall batch: seq<nat> :: IsBatch(rows, {}, limit, batch) ==> OffWithin(index, rows, batch)
  }

  lemma {:induction false} IdsGrow(
    rows: seq<OutboxRow>, added: seq<OutboxRow>, first: seq<nat>, again: seq<nat>)
    requires InTable(rows, first) && InTable(rows + added, again)
    requires forall x :: x in first ==> x in again
    ensures IdsOf(rows, first) <= IdsOf(rows + added, again)
  {
    forall id | id in IdsOf(rows, first) ensures id in IdsOf(rows + added, again) {
      var p :| 0 <= p < |first| && rows[first[p]].change.eventId == id;
      assert first[p] in again;
      var q :| 0 <= q < |again| && again[q] == first[p];
      assert (rows + added)[again[q]].change.eventId == id;
    }
  }

  lemma {:induction false} RolledBackOff(
    index: map<Uuid, Point>, rows: seq<OutboxRow>, batch: seq<nat>, outcomes: seq<Outcome>, limit: nat)
    requires IsBatch(rows, {}, limit, batch) && |outcomes| <= |batch| && Repairable(index, rows, limit)
    ensures InTable(rows, batch)
    ensures OffWithin(IndexedAll(index, rows, batch[..|outcomes|], outcomes), rows, batch)
  {
    BatchPending(rows, batch, limit);
    var made := batch[..|outcomes|];
    TouchesOwnEvents(index, rows, made, outcomes);
    assert rows + [] == rows;
    IdsGrow(rows, [], made, batch);
    assert OffWithin(index, rows, batch);
  }

  lemma {:induction false} StaysRepairable(index: map<Uuid, Point>, rows: seq<OutboxRow>, a: Attempt, l: Limits)
    requires LegalAttempt(rows, a, l) && a.RolledBack? && AgesDiffer(rows + a.added)
    requires Repairable(index, rows, l.batchSize)
    ensures Repairable(AfterDeliveries(index, rows, a, l), AfterAttempt(rows, a, l), l.batchSize)
  {
    var next, after := AfterDeliveries(index, rows, a, l), rows + a.added;
    RolledBackOff(index, rows, a.batch, a.outcomes, l.batchSize);
    ReplayedPending(rows, a.added);
    forall again: seq<nat> | IsBatch(after, {}, l.batchSize, again) ensures OffWithin(next, after, again) {
      BatchPending(after, again, l.batchSize);
      forall x | x in a.batch ensures x in again {
        TakenAgain(rows, a.added, a.batch, again, l.batchSize, x);
      }
      IdsGrow(rows, a.added, a.batch, again);
    }
  }

  // ---- Runs -------------------------------------------------------------------------------

  ghost predicate AllRolledBack(tries: seq<Attempt>) {
    forall t :: 0 <= t < |tries| ==> tries[t].RolledBack?
  }

  lemma {:induction false} AgesDifferBefore(rows: seq<OutboxRow>, tries: seq<Attempt>, l: Limits)
    requires LegalAttempts(rows, tries, l) && AllRolledBack(tries) && AgesDiffer(AfterAttempts(rows, tries, l))
    ensures AgesDiffer(rows)
    decreases |tries|
  {
    if tries != [] {
      AgesDifferBefore(rows + tries[0].added, tries[1..], l);
      forall i | 0 <= i < |rows| ensures (rows + tries[0].added)[i] == rows[i] {
      }
    }
  }

  lemma {:induction false} TriesRepairable(
    index: map<Uuid, Point>, rows: seq<OutboxRow>, tries: seq<Attempt>, l: Limits)
    requires LegalAttempts(rows, tries, l) && AllRolledBack(tries) && AgesDiffer(AfterAttempts(rows, tries, l))
    requires Repairable(index, rows, l.batchSize)
    ensures Repairable(IndexAfterAttempts(index, rows, tries, l), AfterAttempts(rows, tries, l), l.batchSize)
    decreases |tries|
  {
    if tries != [] {
      AgesDifferBefore(AfterAttempt(rows, tries[0], l), tries[1..], l);
      StaysRepairable(index, rows, tries[0], l);
      TriesRepairable(AfterDeliveries(index, rows, tries[0], l), AfterAttempt(rows, tries[0], l), tries[1..], l);
    }
  }

  lemma {:induction false} NothingOff(rows: seq<OutboxRow>, limit: nat)
    ensures Repairable(Replayed(rows), rows, limit)
  {
    forall batch: seq<nat> | IsBatch(rows, {}, limit, batch) ensures OffWithin(Replayed(rows), rows, batch) {
      BatchPending(rows, batch, limit);
    }
  }

  /**
   However many runs were rolled back, wherever they stopped and whatever was enqueued meanwhile:
   a run whose deliveries are all applied leaves the index that it would have left without them,
   if no two pending rows are of the same age.
   */
  lemma {:induction false} RedeliveryRepairs(
    rows: seq<OutboxRow>, tries: seq<Attempt>, batch: seq<nat>, outcomes: seq<Outcome>, l: Limits)
    requires LegalAttempts(rows, tries, l) && AllRolledBack(tries) && AgesDiffer(AfterAttempts(rows, tries, l))
    requires IsBatch(AfterAttempts(rows, tries, l), {}, l.batchSize, batch)
    requires |outcomes| == |batch| && forall p :: 0 <= p < |batch| ==> Applied(outcomes[p])
    ensures var after := AfterAttempts(rows, tries, l);
            && InTable(after, batch)
            && IndexedAll(IndexAfterAttempts(Replayed(rows), rows, tries, l), after, batch, outcomes) ==
               IndexedAll(Replayed(after), after, batch, outcomes)
  {
    var after, index := AfterAttempts(rows, tries, l), IndexAfterAttempts(Replayed(rows), rows, tries, l);
    NothingOff(rows, l.batchSize);
    TriesRepairable(Replayed(rows), rows, tries, l);
    assert OffWithin(index, after, batch);
    DifferencesShrink(index, Replayed(after), IdsOf(after, batch), after, batch, outcomes);
    SameEverywhere(IndexedAll(index, after, batch, outcomes), IndexedAll(Replayed(after), after, batch, outcomes));
  }
}
