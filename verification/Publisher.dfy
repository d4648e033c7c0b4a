/** One run of the outbox publisher: lock a batch, deliver each row, mark it, commit. */
module Publisher {
  import opened Basics
  import opened Sequences
  import opened Schema

  /** A point of the vector index, which is keyed by event id. */
  datatype Point = Point(eventId: Uuid, source: string, eventType: string, content: string)

  const CONTENT_LIMIT := 1000
  const ERROR_LIMIT := 1000

  function Cut(content: string): string {
    Take(content, CONTENT_LIMIT)
  }

  function PointOf(c: Change): Point {
    Point(c.eventId, c.source, c.eventType, Cut(c.content))
  }

  /**
   How delivering one row ended.  A failure may hide that the index did apply the update,
   as when the reply is lost.
   */
  datatype Outcome = Acked(at: Time) | Unacked(applied: bool, error: string)

  predicate Applied(o: Outcome) {
    o.Acked? || o.applied
  }

  /** `index_event`: an idempotent upsert. */
  function Indexed(index: map<Uuid, Point>, c: Change, o: Outcome): map<Uuid, Point> {
    if Applied(o) then index[c.eventId := PointOf(c)] else index
  }

  /** `mark_published` or `mark_failed`. */
  function Marked(row: OutboxRow, o: Outcome, maxAttempts: nat): OutboxRow {
    match o
    case Acked(at) => row.(status := Published, publishedAt := Some(at), attempts := row.attempts + 1)
    case Unacked(_, error) =>
      row.(attempts := row.attempts + 1,
           lastError := Some(Take(error, ERROR_LIMIT)),
           status := if row.attempts + 1 >= maxAttempts then Dead else row.status)
  }

  /** The settings: at least one row a batch, at least one attempt. */
  datatype Limits = Limits(batchSize: nat, maxAttempts: nat)

  ghost predicate SaneLimits(l: Limits) {
    l.batchSize >= 1 && l.maxAttempts >= 1
  }

  predicate Eligible(rows: seq<OutboxRow>, locked: set<nat>, i: nat) {
    i < |rows| && rows[i].status == Pending && i !in locked
  }

  /**
   `fetch_pending`: pending rows that nobody holds, oldest first, at most `limit`.  Rows of
   equal age come in any order, so this is what every possible answer satisfies.
   */
  ghost predicate IsBatch(rows: seq<OutboxRow>, locked: set<nat>, limit: nat, batch: seq<nat>) {
    && NoRepeats(batch)
    && |batch| <= limit
    && (forall p :: 0 <= p < |batch| ==> Eligible(rows, locked, batch[p]))
    && (forall p, q :: 0 <= p < q < |batch| ==> rows[batch[p]].pos.ts <= rows[batch[q]].pos.ts)
    && (forall i: nat :: Eligible(rows, locked, i) && i !in batch ==>
          |batch| == limit && forall p :: 0 <= p < |batch| ==> rows[batch[p]].pos.ts <= rows[i].pos.ts)
  }

  ghost predicate InTable(rows: seq<OutboxRow>, batch: seq<nat>) {
    forall p :: 0 <= p < |batch| ==> batch[p] < |rows|
  }

  /** The table after every row of the batch was delivered and marked. */
  function Processed(rows: seq<OutboxRow>, batch: seq<nat>, outcomes: seq<Outcome>, maxAttempts: nat)
    : (r: seq<OutboxRow>)
    requires |batch| == |outcomes| && forall p :: 0 <= p < |batch| ==> batch[p] < |rows|
    ensures |r| == |rows|
  {
    if batch == [] then rows
    else
      var n := |batch| - 1;
      var before := Processed(rows, batch[..n], outcomes[..n], maxAttempts);
      before[batch[n] := Marked(before[batch[n]], outcomes[n], maxAttempts)]
  }

  /** The index after the batch. */
  function IndexedAll(index: map<Uuid, Point>, rows: seq<OutboxRow>, batch: seq<nat>, outcomes: seq<Outcome>)
    : map<Uuid, Point>
    requires |batch| == |outcomes| && forall p :: 0 <= p < |batch| ==> batch[p] < |rows|
  {
    if batch == [] then index
    else
      var n := |batch| - 1;
      Indexed(IndexedAll(index, rows, batch[..n], outcomes[..n]), rows[batch[n]].change, outcomes[n])
  }

  function CountAcked(outcomes: seq<Outcome>): (n: nat)
    ensures n <= |outcomes|
    ensures n == |outcomes| <==> forall o :: o in outcomes ==> o.Acked?
  {
    if outcomes == [] then 0
    else
      var n, last := |outcomes| - 1, outcomes[|outcomes| - 1];
      assert outcomes == outcomes[..n] + [last];
      CountAcked(outcomes[..n]) + (if last.Acked? then 1 else 0)
  }

  /** The number of deliveries that succeeded. */
  lemma {:induction false} CountAckedIs(outcomes: seq<Outcome>)
    ensures CountAcked(outcomes) == |set p | 0 <= p < |outcomes| && outcomes[p].Acked?|
  {
    var acked := set p | 0 <= p < |outcomes| && outcomes[p].Acked?;
    if outcomes == [] {
      assert acked == {};
    } else {
      var n := |outcomes| - 1;
      CountAckedIs(outcomes[..n]);
      var before := set p | 0 <= p < |outcomes[..n]| && outcomes[..n][p].Acked?;
      assert acked == if outcomes[n].Acked? then before + {n} else before;
    }
  }

  /** Delivery `p` is the last of its event that the index applied. */
  ghost predicate LastApplied(rows: seq<OutboxRow>, batch: seq<nat>, outcomes: seq<Outcome>, p: nat)
    requires |batch| == |outcomes| && InTable(rows, batch)
  {
    && p < |batch| && (outcomes[p].Acked? || outcomes[p].applied)
    && forall q :: p < q < |batch| && rows[batch[q]].change.eventId == rows[batch[p]].change.eventId ==>
         outcomes[q].Unacked? && !outcomes[q].applied
  }

  /** The point is the row's, column by column, with at most 1000 characters of its content. */
  ghost predicate IndexShows(index: map<Uuid, Point>, c: Change) {
    && c.eventId in index
    && var point := index[c.eventId];
    && point.eventId == c.eventId && point.source == c.source && point.eventType == c.eventType
    && point.content == if |c.content| <= 1000 then c.content else c.content[..1000]
  }

  lemma {:induction false} LastAppliedShows(
    index: map<Uuid, Point>, rows: seq<OutboxRow>, batch: seq<nat>, outcomes: seq<Outcome>, p: nat)
    requires |batch| == |outcomes| && InTable(rows, batch)
    requires LastApplied(rows, batch, outcomes, p)
    ensures IndexShows(IndexedAll(index, rows, batch, outcomes), rows[batch[p]].change)
  {
    var n := |batch| - 1;
    if p < n {
      LastAppliedShows(index, rows, batch[..n], outcomes[..n], p);
    }
  }

  /** For each event, the index shows the last row of the batch that it applied. */
  ghost predicate ShowsDelivered(
    index: map<Uuid, Point>, rows: seq<OutboxRow>, batch: seq<nat>, outcomes: seq<Outcome>)
    requires |batch| == |outcomes| && InTable(rows, batch)
  {
    forall p: nat :: LastApplied(rows, batch, outcomes, p) ==> IndexShows(index, rows[batch[p]].change)
  }

  lemma {:induction false} DeliveredShown(
    index: map<Uuid, Point>, rows: seq<OutboxRow>, batch: seq<nat>, outcomes: seq<Outcome>)
    requires |batch| == |outcomes| && InTable(rows, batch)
    ensures ShowsDelivered(IndexedAll(index, rows, batch, outcomes), rows, batch, outcomes)
  {
    forall p: nat | LastApplied(rows, batch, outcomes, p)
      ensures IndexShows(IndexedAll(index, rows, batch, outcomes), rows[batch[p]].change)
    {
      LastAppliedShows(index, rows, batch, outcomes, p);
    }
  }

  /** Rows of the batch are marked once each, by their own outcome; no other row is touched. */
  lemma {:induction false} ProcessedAt(
    rows: seq<OutboxRow>, batch: seq<nat>, outcomes: seq<Outcome>, maxAttempts: nat)
    requires |batch| == |outcomes| && forall p :: 0 <= p < |batch| ==> batch[p] < |rows|
    requires NoRepeats(batch)
    ensures var r := Processed(rows, batch, outcomes, maxAttempts);
            && (forall p :: 0 <= p < |batch| ==>
                  r[batch[p]] == Marked(rows[batch[p]], outcomes[p], maxAttempts))
            && (forall i :: 0 <= i < |rows| && i !in batch ==> r[i] == rows[i])
  {
    if batch != [] {
      var n := |batch| - 1;
      ProcessedAt(rows, batch[..n], outcomes[..n], maxAttempts);
      assert batch == batch[..n] + [batch[n]];
      assert batch[n] !in batch[..n];
    }
  }

  /** Delivery never touches what the feed shows of a row. */
  lemma {:induction false} ProcessedKeepsChanges(
    rows: seq<OutboxRow>, batch: seq<nat>, outcomes: seq<Outcome>, maxAttempts: nat)
    requires |batch| == |outcomes| && forall p :: 0 <= p < |batch| ==> batch[p] < |rows|
    ensures var r := Processed(rows, batch, outcomes, maxAttempts);
            forall i :: 0 <= i < |rows| ==> r[i].pos == rows[i].pos && r[i].change == rows[i].change
  {
    if batch != [] {
      var n := |batch| - 1;
      ProcessedKeepsChanges(rows, batch[..n], outcomes[..n], maxAttempts);
    }
  }

  /** One more row of the batch. */
  lemma {:induction false} NextMarked(
    index: map<Uuid, Point>, rows: seq<OutboxRow>, batch: seq<nat>, outcomes: seq<Outcome>, p: nat, maxAttempts: nat)
    requires p < |batch| == |outcomes| && forall q :: 0 <= q < |batch| ==> batch[q] < |rows|
    ensures var before := Processed(rows, batch[..p], outcomes[..p], maxAttempts);
            && before[batch[p]].change == rows[batch[p]].change
            && Processed(rows, batch[..p + 1], outcomes[..p + 1], maxAttempts) ==
               before[batch[p] := Marked(before[batch[p]], outcomes[p], maxAttempts)]
            && IndexedAll(index, rows, batch[..p + 1], outcomes[..p + 1]) ==
               Indexed(IndexedAll(index, rows, batch[..p], outcomes[..p]), rows[batch[p]].change, outcomes[p])
            && CountAcked(outcomes[..p + 1]) == CountAcked(outcomes[..p]) + (if outcomes[p].Acked? then 1 else 0)
  {
    assert batch[..p + 1][..p] == batch[..p] && outcomes[..p + 1][..p] == outcomes[..p];
    ProcessedKeepsChanges(rows, batch[..p], outcomes[..p], maxAttempts);
  }

  class OutboxPublisher {
    var rows: seq<OutboxRow>
    var index: map<Uuid, Point>
    const batchSize: nat
    const maxAttempts: nat

    constructor (rows: seq<OutboxRow>, index: map<Uuid, Point>, batchSize: nat, maxAttempts: nat)
      ensures this.rows == rows && this.index == index
      ensures this.batchSize == batchSize && this.maxAttempts == maxAttempts
    {
      this.rows, this.index, this.batchSize, this.maxAttempts := rows, index, batchSize, maxAttempts;
    }

    method MarkPublished(i: nat, now: Time)
      requires i < |rows|
      modifies this`rows
      ensures rows == old(rows)[i := Marked(old(rows)[i], Acked(now), maxAttempts)]
    {
      var row := rows[i];
      rows := rows[i := row.(status := Published, publishedAt := Some(now), attempts := row.attempts + 1)];
    }

    method MarkFailed(i: nat, applied: bool, error: string)
      requires i < |rows|
      modifies this`rows
      ensures rows == old(rows)[i := Marked(old(rows)[i], Unacked(applied, error), maxAttempts)]
    {
      var row := rows[i];
      row := row.(attempts := row.attempts + 1, lastError := Some(Take(error, ERROR_LIMIT)));
      if row.attempts >= maxAttempts {
        row := row.(status := Dead);
      }
      rows := rows[i := row];
    }

    /**
     `_publish_outbox`: one committed run over the batch that the query returned.  A failed
     delivery is recorded on its row and does not stop the loop.
     */
    method PublishOutbox(batch: seq<nat>, outcomes: seq<Outcome>) returns (published: nat)
      requires IsBatch(rows, {}, batchSize, batch) && |outcomes| == |batch|
      modifies this
      ensures rows == Processed(old(rows), batch, outcomes, maxAttempts)
      ensures index == IndexedAll(old(index), old(rows), batch, outcomes)
      ensures published == CountAcked(outcomes)
    {
      published := 0;
      for p := 0 to |batch|
        invariant rows == Processed(old(rows), batch[..p], outcomes[..p], maxAttempts)
        invariant index == IndexedAll(old(index), old(rows), batch[..p], outcomes[..p])
        invariant published == CountAcked(outcomes[..p])
      {
        NextMarked(old(index), old(rows), batch, outcomes, p, maxAttempts);
        var change := rows[batch[p]].change;
        match outcomes[p] {
          case Acked(at) =>
            index := index[change.eventId := PointOf(change)];
            MarkPublished(batch[p], at);
            published := published + 1;
          case Unacked(applied, error) =>
            if applied {
              index := index[change.eventId := PointOf(change)];
            }
            MarkFailed(batch[p], applied, error);
        }
      }
      assert batch[..|batch|] == batch && outcomes[..|batch|] == outcomes;
    }
  }
}
