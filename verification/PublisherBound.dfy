/**
 How long a row can stay pending with one worker, whatever fails and whatever is enqueued
 meanwhile.  Two bounds: one that always holds, and a sharper one that needs creation times
 to differ, because `fetch_pending` breaks ties arbitrarily.
 */
module PublisherBound {
  import opened Arithmetic
  import opened Sequences
  import opened Schema
  import opened Publisher

  /** A committed run, followed by the rows enqueued before the next one. */
  datatype Run = Run(batch: seq<nat>, outcomes: seq<Outcome>, added: seq<OutboxRow>)

  /** New rows are pending, untried, and later than every committed row. */
  ghost predicate Enqueued(rows: seq<OutboxRow>, added: seq<OutboxRow>) {
    && (forall a :: 0 <= a < |added| ==> added[a].status == Pending && added[a].attempts == 0)
    && (forall i, a :: 0 <= i < |rows| && 0 <= a < |added| ==> rows[i].pos.ts < added[a].pos.ts)
  }

  ghost predicate LegalRun(rows: seq<OutboxRow>, run: Run, l: Limits) {
    && IsBatch(rows, {}, l.batchSize, run.batch)
    && |run.outcomes| == |run.batch|
    && Enqueued(rows, run.added)
  }

  ghost function AfterRun(rows: seq<OutboxRow>, run: Run, l: Limits): seq<OutboxRow>
    requires LegalRun(rows, run, l)
  {
    Processed(rows, run.batch, run.outcomes, l.maxAttempts) + run.added
  }

  ghost predicate LegalRuns(rows: seq<OutboxRow>, runs: seq<Run>, l: Limits)
    decreases |runs|
  {
    runs != [] ==>
      LegalRun(rows, runs[0], l) && LegalRuns(AfterRun(rows, runs[0], l), runs[1..], l)
  }

  ghost function AfterRuns(rows: seq<OutboxRow>, runs: seq<Run>, l: Limits): seq<OutboxRow>
    requires LegalRuns(rows, runs, l)
    decreases |runs|
  {
    if runs == [] then rows else AfterRuns(AfterRun(rows, runs[0], l), runs[1..], l)
  }

  /** A pending row has attempts left. */
  ghost predicate Retryable(rows: seq<OutboxRow>, l: Limits) {
    forall i :: 0 <= i < |rows| && rows[i].status == Pending ==> rows[i].attempts < l.maxAttempts
  }

  /** What one run does to row `i`, seen from outside. */
  lemma {:induction false} RunAt(rows: seq<OutboxRow>, run: Run, l: Limits, i: nat)
    requires SaneLimits(l) && LegalRun(rows, run, l) && Retryable(rows, l) && i < |rows|
    ensures var next := AfterRun(rows, run, l);
            && i < |next| && next[i].pos == rows[i].pos && next[i].change == rows[i].change
            && (i !in run.batch ==> next[i] == rows[i])
            && (i in run.batch ==> rows[i].status == Pending && next[i].attempts == rows[i].attempts + 1)
            && (i in run.batch && next[i].status == Pending ==> next[i].attempts < l.maxAttempts)
            && (rows[i].status != Pending ==> next[i] == rows[i])
  {
    ProcessedAt(rows, run.batch, run.outcomes, l.maxAttempts);
    if i in run.batch {
      var p :| 0 <= p < |run.batch| && run.batch[p] == i;
      assert Eligible(rows, {}, run.batch[p]);
      assert Processed(rows, run.batch, run.outcomes, l.maxAttempts)[run.batch[p]] ==
             Marked(rows[i], run.outcomes[p], l.maxAttempts);
    }
  }

  lemma {:induction false} RunKeepsRetryable(rows: seq<OutboxRow>, run: Run, l: Limits)
    requires SaneLimits(l) && LegalRun(rows, run, l) && Retryable(rows, l)
    ensures Retryable(AfterRun(rows, run, l), l)
  {
    forall i | 0 <= i < |AfterRun(rows, run, l)| && AfterRun(rows, run, l)[i].status == Pending
      ensures AfterRun(rows, run, l)[i].attempts < l.maxAttempts
    {
      if i < |rows| {
        RunAt(rows, run, l, i);
      }
    }
  }

  // ---- The bound that always holds --------------------------------------------------------

  /** Row `j` can be taken before row `r`: it is pending and not younger. */
  predicate Rival(rows: seq<OutboxRow>, r: nat, j: nat)
    requires r < |rows| && j < |rows|
  {
    j != r && rows[j].status == Pending && rows[j].pos.ts <= rows[r].pos.ts
  }

  /** Attempts left to the rivals of `r` among the first `n` rows. */
  function RivalWork(rows: seq<OutboxRow>, r: nat, n: nat, l: Limits): int
    requires r < |rows| && n <= |rows|
  {
    if n == 0 then 0
    else
      RivalWork(rows, r, n - 1, l) +
      (if Rival(rows, r, n - 1) then l.maxAttempts - rows[n - 1].attempts else 0)
  }

  function RivalCount(rows: seq<OutboxRow>, r: nat, n: nat): nat
    requires r < |rows| && n <= |rows|
  {
    if n == 0 then 0
    else RivalCount(rows, r, n - 1) + (if Rival(rows, r, n - 1) then 1 else 0)
  }

  /** A batch taken from the rivals costs them one attempt per row. */
  lemma {:induction false} RivalWorkDrops(rows: seq<OutboxRow>, run: Run, l: Limits, r: nat, n: nat)
    requires SaneLimits(l) && LegalRun(rows, run, l) && Retryable(rows, l) && r < |rows| && n <= |rows|
    requires |AfterRun(rows, run, l)| >= |rows|
    ensures RivalWork(AfterRun(rows, run, l), r, n, l) <= RivalWork(rows, r, n, l)
    ensures (forall p :: 0 <= p < |run.batch| ==> Rival(rows, r, run.batch[p])) ==>
              RivalWork(AfterRun(rows, run, l), r, n, l) <= RivalWork(rows, r, n, l) - Taken(run.batch, n)
  {
    if n > 0 {
      RivalWorkDrops(rows, run, l, r, n - 1);
      RunAt(rows, run, l, r);
      RunAt(rows, run, l, n - 1);
    }
  }

  /** Rows enqueued later are no rivals. */
  lemma {:induction false} RivalWorkIgnoresAdded(
    rows: seq<OutboxRow>, run: Run, l: Limits, r: nat, n: nat)
    requires SaneLimits(l) && LegalRun(rows, run, l) && Retryable(rows, l)
    requires r < |rows| <= n <= |AfterRun(rows, run, l)|
    ensures RivalWork(AfterRun(rows, run, l), r, n, l) == RivalWork(AfterRun(rows, run, l), r, |rows|, l)
    decreases n
  {
    if n > |rows| {
      RivalWorkIgnoresAdded(rows, run, l, r, n - 1);
      RunAt(rows, run, l, r);
      assert AfterRun(rows, run, l)[n - 1] == run.added[n - 1 - |rows|];
    }
  }

  lemma {:induction false} RivalWorkBounds(rows: seq<OutboxRow>, r: nat, n: nat, l: Limits)
    requires Retryable(rows, l) && r < |rows| && n <= |rows|
    ensures 0 <= RivalWork(rows, r, n, l) <= l.maxAttempts * RivalCount(rows, r, n)
  {
    if n > 0 {
      RivalWorkBounds(rows, r, n - 1, l);
      OneMoreRound(l.maxAttempts, RivalCount(rows, r, n - 1));
    }
  }

  /** Full batches the rivals can still fill, plus the attempts left to `r` itself. */
  function RunsLeft(rows: seq<OutboxRow>, r: nat, l: Limits): int
    requires r < |rows| && l.batchSize >= 1
  {
    Quotient(RivalWork(rows, r, |rows|, l), l.batchSize) + l.maxAttempts - rows[r].attempts
  }

  /** While `r` stays pending, every run uses up one of the runs left. */
  lemma {:induction false} RunsLeftDrops(rows: seq<OutboxRow>, run: Run, l: Limits, r: nat)
    requires SaneLimits(l) && LegalRun(rows, run, l) && Retryable(rows, l) && r < |rows|
    requires rows[r].status == Pending
    ensures r < |AfterRun(rows, run, l)|
    ensures RunsLeft(AfterRun(rows, run, l), r, l) <= RunsLeft(rows, r, l) - 1
  {
    var next := AfterRun(rows, run, l);
    RunAt(rows, run, l, r);
    RivalWorkIgnoresAdded(rows, run, l, r, |next|);
    RivalWorkDrops(rows, run, l, r, |rows|);
    var before, after := RivalWork(rows, r, |rows|, l), RivalWork(next, r, |rows|, l);
    if r in run.batch {
      QuotientMonotone(after, before, l.batchSize);
    } else {
      assert Eligible(rows, {}, r);
      forall p | 0 <= p < |run.batch| ensures Rival(rows, r, run.batch[p]) {
        assert Eligible(rows, {}, run.batch[p]);
      }
      TakenAll(run.batch, |rows|);
      RunKeepsRetryable(rows, run, l);
      RivalWorkBounds(next, r, |rows|, l);
      QuotientMonotone(after, before, l.batchSize);
    }
  }

  /**
   Whatever fails, whatever is enqueued and however ties are broken: a row still pending after
   some runs has fewer than `RunsLeft` of them behind it.
   */
  lemma {:induction false} PendingBound(rows: seq<OutboxRow>, runs: seq<Run>, l: Limits, r: nat)
    requires SaneLimits(l) && LegalRuns(rows, runs, l) && Retryable(rows, l) && r < |rows|
    ensures r < |AfterRuns(rows, runs, l)|
    ensures rows[r].status == Pending && AfterRuns(rows, runs, l)[r].status == Pending ==>
              |runs| < RunsLeft(rows, r, l)
    ensures rows[r].status != Pending ==> AfterRuns(rows, runs, l)[r] == rows[r]
    decreases |runs|
  {
    if runs != [] {
      var next := AfterRun(rows, runs[0], l);
      RunAt(rows, runs[0], l, r);
      RunKeepsRetryable(rows, runs[0], l);
      PendingBound(next, runs[1..], l, r);
      if rows[r].status == Pending {
        RunsLeftDrops(rows, runs[0], l, r);
      }
    }
  }

  /**
   The row is published or dead after `(MAX * p) / B + MAX` runs, where `p` is the number of
   other pending rows that are not younger.
   */
  lemma {:induction false} PublishedOrDead(rows: seq<OutboxRow>, runs: seq<Run>, l: Limits, r: nat)
    requires SaneLimits(l) && LegalRuns(rows, runs, l) && Retryable(rows, l) && r < |rows|
    requires |runs| >= Quotient(l.maxAttempts * RivalCount(rows, r, |rows|), l.batchSize) + l.maxAttempts
    ensures Settled(AfterRuns(rows, runs, l), r)
  {
    PendingBound(rows, runs, l, r);
    RivalWorkBounds(rows, r, |rows|, l);
    QuotientMonotone(RivalWork(rows, r, |rows|, l), l.maxAttempts * RivalCount(rows, r, |rows|), l.batchSize);
  }

  // ---- A row near the front ---------------------------------------------------------------

  lemma {:induction false} TakenRivals(rows: seq<OutboxRow>, batch: seq<nat>, r: nat, n: nat)
    requires r < |rows| && n <= |rows|
    requires forall p :: 0 <= p < |batch| && batch[p] < n ==> Rival(rows, r, batch[p])
    ensures Taken(batch, n) <= RivalCount(rows, r, n)
  {
    if n > 0 {
      TakenRivals(rows, batch, r, n - 1);
    }
  }

  /** A pending row is passed over only for a full batch of rivals. */
  lemma {:induction false} PassedOver(rows: seq<OutboxRow>, batch: seq<nat>, limit: nat, r: nat)
    requires IsBatch(rows, {}, limit, batch) && r < |rows|
    requires rows[r].status == Pending && r !in batch
    ensures RivalCount(rows, r, |rows|) >= limit
  {
    assert Eligible(rows, {}, r);
    forall p | 0 <= p < |batch| ensures batch[p] < |rows| && Rival(rows, r, batch[p]) {
      assert Eligible(rows, {}, batch[p]);
    }
    TakenAll(batch, |rows|);
    TakenRivals(rows, batch, r, |rows|);
  }

  lemma {:induction false} RivalCountDrops(rows: seq<OutboxRow>, run: Run, l: Limits, r: nat, n: nat)
    requires SaneLimits(l) && LegalRun(rows, run, l) && Retryable(rows, l)
    requires r < |rows| && n <= |AfterRun(rows, run, l)|
    ensures RivalCount(AfterRun(rows, run, l), r, n) <= RivalCount(rows, r, if n < |rows| then n else |rows|)
  {
    if n > 0 {
      RivalCountDrops(rows, run, l, r, n - 1);
      RunAt(rows, run, l, r);
      if n <= |rows| {
        RunAt(rows, run, l, n - 1);
      } else {
        assert AfterRun(rows, run, l)[n - 1] == run.added[n - 1 - |rows|];
      }
    }
  }

  ghost predicate Settled(rows: seq<OutboxRow>, r: nat) {
    r < |rows| && rows[r].status != Pending
  }

  /** A row with fewer than a batch of rivals is tried in every run. */
  lemma {:induction false} FrontFinishes(rows: seq<OutboxRow>, runs: seq<Run>, l: Limits, r: nat)
    requires SaneLimits(l) && LegalRuns(rows, runs, l) && Retryable(rows, l) && r < |rows|
    requires rows[r].status == Pending ==>
               RivalCount(rows, r, |rows|) < l.batchSize && |runs| >= l.maxAttempts - rows[r].attempts
    ensures Settled(AfterRuns(rows, runs, l), r)
    decreases |runs|
  {
    if runs != [] {
      var next := AfterRun(rows, runs[0], l);
      RunKeepsRetryable(rows, runs[0], l);
      RunAt(rows, runs[0], l, r);
      if rows[r].status == Pending {
        if r !in runs[0].batch {
          PassedOver(rows, runs[0].batch, l.batchSize, r);
        }
        RivalCountDrops(rows, runs[0], l, r, |next|);
      }
      FrontFinishes(next, runs[1..], l, r);
    }
  }

  // ---- The sharper bound for a row in line --------------------------------------

  /** Of the pending rows, those up to `r` have distinct ages, in order, and all others are younger than `r`. */
  ghost predicate InLine(rows: seq<OutboxRow>, r: nat) {
    && r < |rows|
    && (forall i, j :: 0 <= i < j <= r && rows[i].status == Pending && rows[j].status == Pending ==>
          rows[i].pos.ts < rows[j].pos.ts)
    && (forall j :: r < j < |rows| && rows[j].status == Pending ==> rows[r].pos.ts < rows[j].pos.ts)
  }

  /** Pending rows before row `n`, that is, its place in the queue. */
  function Ahead(rows: seq<OutboxRow>, n: nat): nat
    requires n <= |rows|
  {
    if n == 0 then 0 else Ahead(rows, n - 1) + (if rows[n - 1].status == Pending then 1 else 0)
  }

  lemma {:induction false} AheadDrops(rows: seq<OutboxRow>, next: seq<OutboxRow>, c: nat, n: nat)
    requires n <= |rows| && n <= |next|
    requires forall j :: 0 <= j < n && next[j].status == Pending ==>
               rows[j].status == Pending && Ahead(rows, j) >= c
    ensures Ahead(next, n) <= (if Ahead(rows, n) >= c then Ahead(rows, n) - c else 0)
  {
    if n > 0 {
      AheadDrops(rows, next, c, n - 1);
    }
  }

  /** The rivals of a row in line are the pending rows before it. */
  lemma {:induction false} RivalsAreAhead(rows: seq<OutboxRow>, r: nat, n: nat)
    requires InLine(rows, r) && rows[r].status == Pending && n <= |rows|
    ensures RivalCount(rows, r, n) <= Ahead(rows, if n < r then n else r)
  {
    if n > 0 {
      RivalsAreAhead(rows, r, n - 1);
    }
  }

  lemma {:induction false} InLineEarlier(rows: seq<OutboxRow>, r: nat, j: nat)
    requires InLine(rows, r) && j <= r && rows[j].status == Pending && rows[r].status == Pending
    ensures InLine(rows, j)
  {
    forall k | j < k < |rows| && rows[k].status == Pending ensures rows[j].pos.ts < rows[k].pos.ts {
      assert k > r ==> rows[r].pos.ts < rows[k].pos.ts;
    }
  }

  lemma {:induction false} RunKeepsLine(rows: seq<OutboxRow>, run: Run, l: Limits, r: nat)
    requires SaneLimits(l) && LegalRun(rows, run, l) && Retryable(rows, l) && InLine(rows, r)
    ensures InLine(AfterRun(rows, run, l), r)
  {
    var next := AfterRun(rows, run, l);
    RunAt(rows, run, l, r);
    forall i | 0 <= i < |rows|
      ensures next[i].pos == rows[i].pos && (next[i].status == Pending ==> rows[i].status == Pending)
    {
      RunAt(rows, run, l, i);
    }
    forall j | |rows| <= j < |next| ensures rows[r].pos.ts < next[j].pos.ts {
      assert next[j] == run.added[j - |rows|];
    }
  }

  lemma {:induction false} RunsKeepLine(rows: seq<OutboxRow>, runs: seq<Run>, l: Limits, r: nat)
    requires SaneLimits(l) && LegalRuns(rows, runs, l) && Retryable(rows, l) && InLine(rows, r)
    ensures InLine(AfterRuns(rows, runs, l), r)
    decreases |runs|
  {
    if runs != [] {
      RunKeepsRetryable(rows, runs[0], l);
      RunKeepsLine(rows, runs[0], l, r);
      RunsKeepLine(AfterRun(rows, runs[0], l), runs[1..], l, r);
    }
  }

  lemma {:induction false} SplitRuns(rows: seq<OutboxRow>, runs: seq<Run>, l: Limits, k: nat)
    requires SaneLimits(l) && LegalRuns(rows, runs, l) && Retryable(rows, l) && k <= |runs|
    ensures LegalRuns(rows, runs[..k], l) && LegalRuns(AfterRuns(rows, runs[..k], l), runs[k..], l)
    ensures AfterRuns(rows, runs, l) == AfterRuns(AfterRuns(rows, runs[..k], l), runs[k..], l)
    ensures Retryable(AfterRuns(rows, runs[..k], l), l)
    decreases k
  {
    if k == 0 {
      assert runs[k..] == runs;
    } else {
      var next := AfterRun(rows, runs[0], l);
      RunKeepsRetryable(rows, runs[0], l);
      SplitRuns(next, runs[1..], l, k - 1);
      assert runs[1..][..k - 1] == runs[..k][1..];
      assert runs[1..][k - 1..] == runs[k..];
      assert runs[..k][0] == runs[0];
    }
  }

  /**
   `window` rows at the front are settled after `k` runs, so that fewer than a batch is left
   ahead of `r`; MAX more runs finish it.
   */
  lemma {:induction false} LastRound(rows: seq<OutboxRow>, runs: seq<Run>, l: Limits, r: nat, k: nat, window: nat)
    requires SaneLimits(l) && LegalRuns(rows, runs, l) && Retryable(rows, l) && InLine(rows, r)
    requires Ahead(rows, r) < window + l.batchSize && k + l.maxAttempts <= |runs|
    requires LegalRuns(rows, runs[..k], l)
    requires forall j :: 0 <= j < r && Ahead(rows, j) < window ==> Settled(AfterRuns(rows, runs[..k], l), j)
    ensures Settled(AfterRuns(rows, runs, l), r)
  {
    SplitRuns(rows, runs, l, k);
    var mid := AfterRuns(rows, runs[..k], l);
    PendingBound(rows, runs[..k], l, r);
    forall j | 0 <= j < r && mid[j].status == Pending
      ensures rows[j].status == Pending && Ahead(rows, j) >= window
    {
      PendingBound(rows, runs[..k], l, j);
    }
    AheadDrops(rows, mid, window, r);
    RunsKeepLine(rows, runs[..k], l, r);
    if mid[r].status == Pending {
      RivalsAreAhead(mid, r, |mid|);
    }
    FrontFinishes(mid, runs[k..], l, r);
  }

  lemma {:induction false} RoundsSettle(rows: seq<OutboxRow>, runs: seq<Run>, l: Limits, r: nat, q: nat)
    requires SaneLimits(l) && LegalRuns(rows, runs, l) && Retryable(rows, l) && InLine(rows, r)
    requires Ahead(rows, r) < l.batchSize * (q + 1) && |runs| >= l.maxAttempts * (q + 1)
    ensures Settled(AfterRuns(rows, runs, l), r)
    decreases q
  {
    var k, window := l.maxAttempts * q, l.batchSize * q;
    OneMoreRound(l.maxAttempts, q);
    OneMoreRound(l.batchSize, q);
    SplitRuns(rows, runs, l, k);
    if rows[r].status != Pending {
      PendingBound(rows, runs, l, r);
    } else {
      forall j | 0 <= j < r && Ahead(rows, j) < window
        ensures Settled(AfterRuns(rows, runs[..k], l), j)
      {
        if rows[j].status != Pending {
          PendingBound(rows, runs[..k], l, j);
        } else if q > 0 {
          InLineEarlier(rows, r, j);
          RoundsSettle(rows, runs[..k], l, j, q - 1);
        }
      }
      LastRound(rows, runs, l, r, k, window);
    }
  }

  /**
   If the pending rows up to `r` have distinct ages the queue is first in, first out for it,
   whatever the ages of later rows: with `p` pending rows ahead it is published or dead after
   `MAX * (p / B + 1)` runs.
   */
  lemma {:induction false} FifoBound(rows: seq<OutboxRow>, runs: seq<Run>, l: Limits, r: nat)
    requires SaneLimits(l) && LegalRuns(rows, runs, l) && Retryable(rows, l) && InLine(rows, r)
    requires |runs| >= l.maxAttempts * (Quotient(Ahead(rows, r), l.batchSize) + 1)
    ensures Settled(AfterRuns(rows, runs, l), r)
  {
    QuotientBounds(Ahead(rows, r), l.batchSize);
    RoundsSettle(rows, runs, l, r, Quotient(Ahead(rows, r), l.batchSize));
  }
}
