/**
 How long a row can stay pending, exactly.  A run passes it over only for a full batch of distinct
 rivals, so it can be passed over `k` times only if the rivals have attempts for `k` such batches.
 Among rows of one age, whatever their attempts, that many times is also possible.
 */
module DistinctRivals {
  import opened Arithmetic
  import opened Sequences
  import opened Schema
  import opened Publisher
  import opened PublisherBound
  import opened TiedQueue

  /** The attempts that the rivals of `r` among the first `n` rows can spend in `k` batches. */
  function Spendable(rows: seq<OutboxRow>, r: nat, n: nat, k: nat, l: Limits): int
    requires r < |rows| && n <= |rows|
  {
    if n == 0 then 0
    else
      Spendable(rows, r, n - 1, k, l) +
      (if Rival(rows, r, n - 1) then Min(l.maxAttempts - rows[n - 1].attempts, k) else 0)
  }

  /** The rivals can fill `k` batches, with no row twice in one. */
  predicate Fills(rows: seq<OutboxRow>, r: nat, k: nat, l: Limits)
    requires r < |rows|
  {
    Spendable(rows, r, |rows|, k, l) >= l.batchSize * k
  }

  /** `n` runs are fewer than those that pass `r` over and those that `r` fails in. */
  ghost predicate DelayedBy(rows: seq<OutboxRow>, r: nat, n: nat, k: nat, l: Limits)
    requires r < |rows|
  {
    n + rows[r].attempts < k + l.maxAttempts && Fills(rows, r, k, l)
  }

  ghost predicate Delayable(rows: seq<OutboxRow>, r: nat, n: nat, l: Limits)
    requires r < |rows|
  {
    exists k: nat :: DelayedBy(rows, r, n, k, l)
  }

  // ---- No row waits longer ----------------------------------------------------------------

  lemma {:induction false} SpendableDrops(
    rows: seq<OutboxRow>, run: Run, l: Limits, r: nat, n: nat, k: nat)
    requires SaneLimits(l) && LegalRun(rows, run, l) && Retryable(rows, l) && r < |rows| && n <= |rows|
    requires |AfterRun(rows, run, l)| >= |rows| && k >= 1
    requires forall p :: 0 <= p < |run.batch| ==> Rival(rows, r, run.batch[p])
    ensures Spendable(rows, r, n, k, l) >=
            Spendable(AfterRun(rows, run, l), r, n, k - 1, l) + Taken(run.batch, n)
  {
    if n > 0 {
      SpendableDrops(rows, run, l, r, n - 1, k);
      RunAt(rows, run, l, r);
      RunAt(rows, run, l, n - 1);
    }
  }

  lemma {:induction false} SpendableKept(
    rows: seq<OutboxRow>, run: Run, l: Limits, r: nat, n: nat, k: nat)
    requires SaneLimits(l) && LegalRun(rows, run, l) && Retryable(rows, l) && r < |rows| && n <= |rows|
    requires |AfterRun(rows, run, l)| >= |rows|
    ensures Spendable(rows, r, n, k, l) >= Spendable(AfterRun(rows, run, l), r, n, k, l)
  {
    if n > 0 {
      SpendableKept(rows, run, l, r, n - 1, k);
      RunAt(rows, run, l, r);
      RunAt(rows, run, l, n - 1);
    }
  }

  lemma {:induction false} SpendableIgnoresAdded(
    rows: seq<OutboxRow>, run: Run, l: Limits, r: nat, n: nat, k: nat)
    requires SaneLimits(l) && LegalRun(rows, run, l) && Retryable(rows, l)
    requires r < |rows| <= n <= |AfterRun(rows, run, l)|
    ensures Spendable(AfterRun(rows, run, l), r, n, k, l) == Spendable(AfterRun(rows, run, l), r, |rows|, k, l)
    decreases n
  {
    if n > |rows| {
      SpendableIgnoresAdded(rows, run, l, r, n - 1, k);
      RunAt(rows, run, l, r);
      assert AfterRun(rows, run, l)[n - 1] == run.added[n - 1 - |rows|];
    }
  }

  lemma {:induction false} PassedOverOnce(rows: seq<OutboxRow>, run: Run, l: Limits, r: nat, k: nat)
    requires SaneLimits(l) && LegalRun(rows, run, l) && Retryable(rows, l) && r < |rows|
    requires rows[r].status == Pending && r !in run.batch
    requires r < |AfterRun(rows, run, l)| && Fills(AfterRun(rows, run, l), r, k, l)
    ensures Fills(rows, r, k + 1, l)
  {
    var next := AfterRun(rows, run, l);
    assert Eligible(rows, {}, r);
    forall p | 0 <= p < |run.batch| ensures run.batch[p] < |rows| && Rival(rows, r, run.batch[p]) {
      assert Eligible(rows, {}, run.batch[p]);
    }
    TakenAll(run.batch, |rows|);
    SpendableDrops(rows, run, l, r, |rows|, k + 1);
    SpendableIgnoresAdded(rows, run, l, r, |next|, k);
    OneMoreRound(l.batchSize, k);
  }

  lemma {:induction false} TriedOnce(rows: seq<OutboxRow>, run: Run, l: Limits, r: nat, k: nat)
    requires SaneLimits(l) && LegalRun(rows, run, l) && Retryable(rows, l) && r < |rows|
    requires r < |AfterRun(rows, run, l)| && Fills(AfterRun(rows, run, l), r, k, l)
    ensures Fills(rows, r, k, l)
  {
    SpendableKept(rows, run, l, r, |rows|, k);
    SpendableIgnoresAdded(rows, run, l, r, |AfterRun(rows, run, l)|, k);
  }

  lemma {:induction false} NothingSpent(rows: seq<OutboxRow>, r: nat, n: nat, l: Limits)
    requires Retryable(rows, l) && r < |rows| && n <= |rows|
    ensures Spendable(rows, r, n, 0, l) == 0
  {
    if n > 0 {
      NothingSpent(rows, r, n - 1, l);
    }
  }

  /** Any table, any run: a row pending after `n` runs is one that `n` runs can delay. */
  lemma {:induction false} PendingOnlyIfDelayable(rows: seq<OutboxRow>, runs: seq<Run>, l: Limits, r: nat)
    requires SaneLimits(l) && LegalRuns(rows, runs, l) && Retryable(rows, l) && r < |rows|
    requires rows[r].status == Pending && r < |AfterRuns(rows, runs, l)|
    requires AfterRuns(rows, runs, l)[r].status == Pending
    ensures Delayable(rows, r, |runs|, l)
    decreases |runs|
  {
    if runs == [] {
      NothingSpent(rows, r, |rows|, l);
      assert DelayedBy(rows, r, 0, 0, l);
    } else {
      var next := AfterRun(rows, runs[0], l);
      RunAt(rows, runs[0], l, r);
      RunKeepsRetryable(rows, runs[0], l);
      PendingBound(next, runs[1..], l, r);
      PendingOnlyIfDelayable(next, runs[1..], l, r);
      var k: nat :| DelayedBy(next, r, |runs[1..]|, k, l);
      if r in runs[0].batch {
        TriedOnce(rows, runs[0], l, r, k);
        assert DelayedBy(rows, r, |runs|, k, l);
      } else {
        PassedOverOnce(rows, runs[0], l, r, k);
        assert DelayedBy(rows, r, |runs|, k + 1, l);
      }
    }
  }

  // ---- Among rows of one age it can wait that long ----------------------------------------

  /** Rows other than `r` with at least `low` and fewer than `high` attempts left. */
  function Others(attempts: seq<nat>, r: nat, low: int, high: int, n: nat, l: Limits): (s: seq<nat>)
    requires n <= |attempts|
    ensures NoRepeats(s)
    ensures forall j: nat :: j in s <==> j < n && j != r && low <= l.maxAttempts - attempts[j] < high
  {
    if n == 0 then []
    else
      var left := l.maxAttempts - attempts[n - 1];
      var s := Others(attempts, r, low, high, n - 1, l);
      if n - 1 != r && low <= left < high then s + [n - 1] else s
  }

  /** The rivals that can be in each of the next `k` batches, then the rest of them. */
  function Heavy(attempts: seq<nat>, r: nat, k: nat, n: nat, l: Limits): seq<nat>
    requires n <= |attempts|
  {
    Others(attempts, r, k, l.maxAttempts + 1, n, l)
  }

  function Light(attempts: seq<nat>, r: nat, k: nat, n: nat, l: Limits): seq<nat>
    requires n <= |attempts|
  {
    Others(attempts, r, 1, k, n, l)
  }

  lemma {:induction false} EnoughRivals(attempts: seq<nat>, r: nat, k: nat, n: nat, l: Limits)
    requires r < |attempts| && k >= 1 && n <= |attempts|
    ensures Spendable(Table(attempts, l), r, n, k, l) <=
            k * (|Heavy(attempts, r, k, n, l)| + |Light(attempts, r, k, n, l)|)
  {
    if n > 0 {
      EnoughRivals(attempts, r, k, n - 1, l);
      OneMoreRound(k, |Heavy(attempts, r, k, n - 1, l)| + |Light(attempts, r, k, n - 1, l)|);
    }
  }

  function Bumped(attempts: seq<nat>, batch: seq<nat>): (next: seq<nat>)
    ensures |next| == |attempts|
    ensures forall j :: 0 <= j < |next| ==> next[j] == if j in batch then attempts[j] + 1 else attempts[j]
  {
    seq(|attempts|, j requires 0 <= j < |attempts| => if j in batch then attempts[j] + 1 else attempts[j])
  }

  /** A batch with all heavy rivals costs the others one attempt each. */
  lemma {:induction false} SpendsEvenly(
    attempts: seq<nat>, batch: seq<nat>, r: nat, k: nat, n: nat, l: Limits)
    requires r < |attempts| && k >= 1 && n <= |attempts| && r !in batch
    requires forall j :: j in Heavy(attempts, r, k, |attempts|, l) ==> j in batch
    requires forall j: nat :: j in batch ==> j < |attempts| && attempts[j] < l.maxAttempts
    ensures Spendable(Table(Bumped(attempts, batch), l), r, n, k - 1, l) ==
            Spendable(Table(attempts, l), r, n, k, l) - Taken(batch, n)
  {
    if n > 0 {
      SpendsEvenly(attempts, batch, r, k, n - 1, l);
      if n - 1 != r && n - 1 !in batch {
        assert n - 1 !in Heavy(attempts, r, k, |attempts|, l);
      }
    }
  }

  /** However the heavy rivals are used once, they can be used `k - 1` times more. */
  lemma {:induction false} HeavyStay(attempts: seq<nat>, batch: seq<nat>, r: nat, k: nat, n: nat, l: Limits)
    requires r < |attempts| && k >= 1 && n <= |attempts|
    requires forall j: nat :: j in batch ==> j in Heavy(attempts, r, k, |attempts|, l)
    ensures Spendable(Table(Bumped(attempts, batch), l), r, n, k - 1, l) >=
            (k - 1) * |Heavy(attempts, r, k, n, l)|
  {
    if n > 0 {
      HeavyStay(attempts, batch, r, k, n - 1, l);
      OneMoreRound(k - 1, |Heavy(attempts, r, k, n - 1, l)|);
    }
  }

  /** The batch that delays `r` longest: heavy rivals first. */
  function Longest(attempts: seq<nat>, r: nat, k: nat, l: Limits): seq<nat> {
    Take(Heavy(attempts, r, k, |attempts|, l) + Light(attempts, r, k, |attempts|, l), l.batchSize)
  }

  lemma {:induction false} LongestIsChoice(attempts: seq<nat>, r: nat, k: nat, l: Limits)
    requires SaneLimits(l) && r < |attempts| && k >= 1 && Fills(Table(attempts, l), r, k, l)
    ensures Choice(attempts, Longest(attempts, r, k, l), l)
    ensures r !in Longest(attempts, r, k, l) && |Longest(attempts, r, k, l)| == l.batchSize
  {
    var heavy, light := Heavy(attempts, r, k, |attempts|, l), Light(attempts, r, k, |attempts|, l);
    EnoughRivals(attempts, r, k, |attempts|, l);
    if |heavy| + |light| < l.batchSize {
      ProductMonotone(k, |heavy| + |light| + 1, l.batchSize);
      OneMoreRound(k, |heavy| + |light|);
      Commutes(k, l.batchSize);
    }
    NoRepeatsConcat(heavy, light);
    var batch := Longest(attempts, r, k, l);
    forall i | 0 <= i < |batch|
      ensures batch[i] < |attempts| && attempts[batch[i]] < l.maxAttempts && batch[i] != r
    {
      assert batch[i] == (heavy + light)[i];
      assert batch[i] in heavy || batch[i] in light;
    }
  }

  lemma {:induction false} Commutes(a: int, b: int)
    ensures a * b == b * a
  {
  }

  lemma {:induction false} NoRepeatsConcat(a: seq<nat>, b: seq<nat>)
    requires NoRepeats(a) && NoRepeats(b) && forall x :: x in a ==> x !in b
    ensures NoRepeats(a + b)
  {
    forall i, j | 0 <= i < j < |a + b| ensures (a + b)[i] != (a + b)[j] {
      if i < |a| && j >= |a| {
        assert a[i] in a && b[j - |a|] in b;
      }
    }
  }

  lemma {:induction false} LongestFills(attempts: seq<nat>, r: nat, k: nat, l: Limits)
    requires SaneLimits(l) && r < |attempts| && k >= 1 && Fills(Table(attempts, l), r, k, l)
    ensures Fills(Table(Bumped(attempts, Longest(attempts, r, k, l)), l), r, k - 1, l)
  {
    var n, batch := |attempts|, Longest(attempts, r, k, l);
    var heavy, light := Heavy(attempts, r, k, n, l), Light(attempts, r, k, n, l);
    LongestIsChoice(attempts, r, k, l);
    OneMoreRound(l.batchSize, k - 1);
    if |heavy| <= l.batchSize {
      forall j | j in heavy ensures j in batch {
        var i :| 0 <= i < |heavy| && heavy[i] == j;
        assert batch[i] == j;
      }
      SpendsEvenly(attempts, batch, r, k, n, l);
      TakenAll(batch, n);
    } else {
      forall j: nat | j in batch ensures j in heavy {
        var i :| 0 <= i < |batch| && batch[i] == j;
        assert heavy[i] == j;
      }
      HeavyStay(attempts, batch, r, k, n, l);
      ProductMonotone(k - 1, l.batchSize, |heavy|);
      Commutes(k - 1, l.batchSize);
    }
  }

  /** A batch with `r` in it, and others if there are any. */
  function WithRow(attempts: seq<nat>, r: nat, l: Limits): seq<nat>
    requires r < |attempts|
  {
    Take([r] + Others(attempts, r, 1, l.maxAttempts + 1, |attempts|, l), l.batchSize)
  }

  lemma {:induction false} WithRowIsChoice(attempts: seq<nat>, r: nat, l: Limits)
    requires SaneLimits(l) && r < |attempts| && attempts[r] < l.maxAttempts
    ensures Choice(attempts, WithRow(attempts, r, l), l) && r in WithRow(attempts, r, l)
  {
    var others := Others(attempts, r, 1, l.maxAttempts + 1, |attempts|, l);
    NoRepeatsConcat([r], others);
    var batch := WithRow(attempts, r, l);
    assert batch[0] == r;
    forall i | 0 <= i < |batch| ensures batch[i] < |attempts| && attempts[batch[i]] < l.maxAttempts {
      assert batch[i] == ([r] + others)[i];
      assert i > 0 ==> batch[i] == others[i - 1] && others[i - 1] in others;
    }
    forall j: nat | j < |attempts| && attempts[j] < l.maxAttempts ensures j in [r] + others {
      assert j == r || j in others;
    }
  }

  lemma {:induction false} BumpedRun(attempts: seq<nat>, batch: seq<nat>, l: Limits)
    requires SaneLimits(l) && Choice(attempts, batch, l)
    ensures LegalRun(Table(attempts, l), FailingRun(batch), l)
    ensures AfterRun(Table(attempts, l), FailingRun(batch), l) == Table(Bumped(attempts, batch), l)
  {
    forall i | 0 <= i < |batch| ensures Bumped(attempts, batch)[batch[i]] == attempts[batch[i]] + 1 {
      assert batch[i] in batch;
    }
    FailingStep(attempts, batch, Bumped(attempts, batch), l);
  }

  /** `k` runs that pass `r` over, then all but one of the runs it may fail in. */
  lemma {:induction false} Delaying(attempts: seq<nat>, r: nat, k: nat, l: Limits) returns (runs: seq<Run>)
    requires SaneLimits(l) && r < |attempts| && attempts[r] < l.maxAttempts && Fills(Table(attempts, l), r, k, l)
    ensures Leave(Table(attempts, l), runs, r, l) && |runs| == k + l.maxAttempts - attempts[r] - 1
    decreases k, l.maxAttempts - attempts[r]
  {
    if k == 0 && attempts[r] + 1 == l.maxAttempts {
      runs := [];
    } else {
      var batch, next := NextBatch(attempts, r, k, l);
      var rest := Delaying(Bumped(attempts, batch), r, next, l);
      BumpedRun(attempts, batch, l);
      LeavesOneMore(Table(attempts, l), FailingRun(batch), rest, r, l);
      runs := [FailingRun(batch)] + rest;
    }
  }

  lemma {:induction false} NextBatch(attempts: seq<nat>, r: nat, k: nat, l: Limits) returns (batch: seq<nat>, next: nat)
    requires SaneLimits(l) && r < |attempts| && Fills(Table(attempts, l), r, k, l)
    requires attempts[r] < l.maxAttempts && (k == 0 ==> attempts[r] + 1 < l.maxAttempts)
    ensures Choice(attempts, batch, l) && Fills(Table(Bumped(attempts, batch), l), r, next, l)
    ensures if k > 0 then next == k - 1 && r !in batch else next == 0 && r in batch
  {
    if k > 0 {
      batch, next := Longest(attempts, r, k, l), k - 1;
      LongestIsChoice(attempts, r, k, l);
      LongestFills(attempts, r, k, l);
    } else {
      batch, next := WithRow(attempts, r, l), 0;
      WithRowIsChoice(attempts, r, l);
      NothingSpent(Table(Bumped(attempts, batch), l), r, |attempts|, l);
    }
  }

  ghost predicate CanStayPending(rows: seq<OutboxRow>, r: nat, n: nat, l: Limits) {
    exists runs :: |runs| == n && Leave(rows, runs, r, l)
  }

  /**
   Among rows of one age, with any attempts behind them: some `n` runs leave row `r` pending if
   and only if `n` is less than its own attempts left plus the full batches of distinct rivals.
   */
  lemma {:induction false} StaysPendingIff(attempts: seq<nat>, r: nat, n: nat, l: Limits)
    requires SaneLimits(l) && r < |attempts| && attempts[r] < l.maxAttempts
    ensures CanStayPending(Table(attempts, l), r, n, l) <==> Delayable(Table(attempts, l), r, n, l)
  {
    var rows := Table(attempts, l);
    if CanStayPending(rows, r, n, l) {
      var runs :| |runs| == n && Leave(rows, runs, r, l);
      PendingOnlyIfDelayable(rows, runs, l, r);
    }
    if Delayable(rows, r, n, l) {
      var k: nat :| DelayedBy(rows, r, n, k, l);
      var runs := Delaying(attempts, r, k, l);
      StillPending(rows, runs, r, n, l);
    }
  }

  /** Pending after all runs, pending after the first few. */
  lemma {:induction false} StillPending(rows: seq<OutboxRow>, runs: seq<Run>, r: nat, n: nat, l: Limits)
    requires SaneLimits(l) && Retryable(rows, l) && r < |rows| && Leave(rows, runs, r, l) && n <= |runs|
    ensures CanStayPending(rows, r, n, l)
  {
    SplitRuns(rows, runs, l, n);
    PendingBound(rows, runs[..n], l, r);
    PendingBound(AfterRuns(rows, runs[..n], l), runs[n..], l, r);
    assert Leave(rows, runs[..n], r, l);
  }

  // ---- The exact bound --------------------------------------------------------------------

  /** Published or dead after `n` runs, whatever happens. */
  ghost predicate SettledBy(rows: seq<OutboxRow>, r: nat, n: nat, l: Limits) {
    forall runs :: LegalRuns(rows, runs, l) && |runs| >= n ==> Settled(AfterRuns(rows, runs, l), r)
  }

  /** In any table, a row is settled by the first number of runs that cannot delay it. */
  lemma {:induction false} SettledUnlessDelayable(rows: seq<OutboxRow>, r: nat, n: nat, l: Limits)
    requires SaneLimits(l) && Retryable(rows, l) && r < |rows| && rows[r].status == Pending
    requires !Delayable(rows, r, n, l)
    ensures SettledBy(rows, r, n, l)
  {
    forall runs | LegalRuns(rows, runs, l) && |runs| >= n ensures Settled(AfterRuns(rows, runs, l), r) {
      PendingBound(rows, runs, l, r);
      if AfterRuns(rows, runs, l)[r].status == Pending {
        PendingOnlyIfDelayable(rows, runs, l, r);
        var k: nat :| DelayedBy(rows, r, |runs|, k, l);
        assert DelayedBy(rows, r, n, k, l);
      }
    }
  }

  /** Among rows of one age that number is exact. */
  lemma {:induction false} SettledByIff(attempts: seq<nat>, r: nat, n: nat, l: Limits)
    requires SaneLimits(l) && r < |attempts| && attempts[r] < l.maxAttempts
    ensures SettledBy(Table(attempts, l), r, n, l) <==> !Delayable(Table(attempts, l), r, n, l)
  {
    var rows := Table(attempts, l);
    StaysPendingIff(attempts, r, n, l);
    if Delayable(rows, r, n, l) {
      var runs :| |runs| == n && Leave(rows, runs, r, l);
      assert !Settled(AfterRuns(rows, runs, l), r);
    } else {
      SettledUnlessDelayable(rows, r, n, l);
    }
  }
}
