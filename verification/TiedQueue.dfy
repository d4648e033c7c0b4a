/**
 What `fetch_pending` leaving ties open costs.  For `p` rows of the same age as a row `r`, the
 first-in-first-out bound on `r` holds in every run exactly when `p` is less than a batch or
 `(p mod B) * MAX < B`; otherwise taking the others in turn keeps `r` waiting longer.
 */
module TiedQueue {
  import opened Arithmetic
  import opened Basics
  import opened Sequences
  import opened Keyset
  import opened Schema
  import opened Publisher
  import opened PublisherBound

  const SOME_CHANGE := Change(0, "", "", "", "", 1, 1)
  const FAILURE := Unacked(false, "")

  /** A row that has failed `attempts` times. */
  function Tried(id: nat, attempts: nat, l: Limits): OutboxRow {
    OutboxRow(Pos(0, id), SOME_CHANGE, if attempts >= l.maxAttempts then Dead else Pending, attempts,
              if attempts == 0 then None else Some(""), None)
  }

  /** Rows of one age, with the attempts each has had. */
  function Table(attempts: seq<nat>, l: Limits): (r: seq<OutboxRow>)
    ensures |r| == |attempts| && forall j :: 0 <= j < |r| ==> r[j] == Tried(j, attempts[j], l)
  {
    seq(|attempts|, j requires 0 <= j < |attempts| => Tried(j, attempts[j], l))
  }

  /**
   `p` rows that have been tried `lap` times each, the first `done` of them once more, and
   after them row `p`, tried `own` times.
   */
  function Attempts(p: nat, lap: nat, done: nat, own: nat): (r: seq<nat>)
    ensures |r| == p + 1 && r[p] == own
    ensures forall j :: 0 <= j < p ==> r[j] == if j < done then lap + 1 else lap
  {
    seq(p + 1, j requires 0 <= j <= p => if j == p then own else if j < done then lap + 1 else lap)
  }

  function Tied(p: nat, lap: nat, done: nat, own: nat, l: Limits): (r: seq<OutboxRow>)
    ensures |r| == p + 1 && r[p] == Tried(p, own, l)
  {
    Table(Attempts(p, lap, done, own), l)
  }

  function Failures(n: nat): (r: seq<Outcome>)
    ensures |r| == n && forall i :: 0 <= i < n ==> r[i] == FAILURE
  {
    seq(n, i => FAILURE)
  }

  function FailingRun(batch: seq<nat>): Run {
    Run(batch, Failures(|batch|), [])
  }

  /** A batch of rows with attempts left: all there are, or as many as fit. */
  ghost predicate Choice(attempts: seq<nat>, batch: seq<nat>, l: Limits) {
    && NoRepeats(batch)
    && |batch| <= l.batchSize
    && (forall i :: 0 <= i < |batch| ==> batch[i] < |attempts| && attempts[batch[i]] < l.maxAttempts)
    && (|batch| == l.batchSize || forall j: nat :: j < |attempts| && attempts[j] < l.maxAttempts ==> j in batch)
  }

  /** Among rows of one age every choice is an answer of `fetch_pending`. */
  lemma {:induction false} ChoiceIsLegal(attempts: seq<nat>, batch: seq<nat>, l: Limits)
    requires SaneLimits(l) && Choice(attempts, batch, l)
    ensures LegalRun(Table(attempts, l), FailingRun(batch), l)
  {
    var rows := Table(attempts, l);
    forall i | 0 <= i < |batch| ensures Eligible(rows, {}, batch[i]) && rows[batch[i]].pos.ts == 0 {
    }
    forall j: nat | Eligible(rows, {}, j) && j !in batch ensures |batch| == l.batchSize && rows[j].pos.ts == 0 {
      assert attempts[j] < l.maxAttempts;
    }
  }

  /** A failing run adds an attempt to each row chosen. */
  lemma {:induction false} FailingStep(attempts: seq<nat>, batch: seq<nat>, next: seq<nat>, l: Limits)
    requires SaneLimits(l) && Choice(attempts, batch, l) && |next| == |attempts|
    requires forall i :: 0 <= i < |batch| ==> next[batch[i]] == attempts[batch[i]] + 1
    requires forall j :: 0 <= j < |next| && j !in batch ==> next[j] == attempts[j]
    ensures LegalRun(Table(attempts, l), FailingRun(batch), l)
    ensures AfterRun(Table(attempts, l), FailingRun(batch), l) == Table(next, l)
  {
    ChoiceIsLegal(attempts, batch, l);
    var rows := Table(attempts, l);
    var r := Processed(rows, batch, Failures(|batch|), l.maxAttempts);
    ProcessedAt(rows, batch, Failures(|batch|), l.maxAttempts);
    forall j | 0 <= j < |r| ensures r[j] == Table(next, l)[j] {
      if j in batch {
        var i :| 0 <= i < |batch| && batch[i] == j;
        assert r[batch[i]] == Marked(rows[batch[i]], FAILURE, l.maxAttempts);
      }
    }
    assert AfterRun(rows, FailingRun(batch), l) == r + [];
  }

  /** The next `n` of `p` rows in turn, starting at `done`. */
  function InTurn(p: nat, done: nat, n: nat): (batch: seq<nat>)
    requires done < p && n <= p
    ensures |batch| == n
    ensures forall i :: 0 <= i < n ==> batch[i] == (if done + i < p then done + i else done + i - p)
  {
    seq(n, i requires 0 <= i < n => if done + i < p then done + i else done + i - p)
  }

  lemma {:induction false} InTurnCovers(p: nat, done: nat, n: nat)
    requires done < p && n <= p
    ensures forall j: nat :: j < p && (done <= j < done + n || j + p < done + n) ==> j in InTurn(p, done, n)
  {
    forall j: nat | j < p && (done <= j < done + n || j + p < done + n) ensures j in InTurn(p, done, n) {
      var i := if done <= j < done + n then j - done else j + p - done;
      assert InTurn(p, done, n)[i] == j;
    }
  }

  /** Attempts left to the `p` rows together. */
  function Left(p: nat, lap: nat, done: nat, l: Limits): int {
    p * l.maxAttempts - p * lap - done
  }

  lemma {:induction false} LapsLeft(p: nat, lap: nat, done: nat, l: Limits)
    requires done < p
    ensures Left(p, lap, done, l) >= 1 ==> lap < l.maxAttempts
    ensures Left(p, lap, done, l) > p - done ==> lap + 1 < l.maxAttempts
    ensures 0 <= Left(p, lap, done, l) < p ==>
              (lap == l.maxAttempts && done == 0) || (lap + 1 == l.maxAttempts && Left(p, lap, done, l) == p - done)
  {
    OneMoreRound(p, lap);
    if lap >= l.maxAttempts {
      ProductMonotone(p, l.maxAttempts, lap);
      if lap > l.maxAttempts {
        ProductMonotone(p, l.maxAttempts + 1, lap);
        OneMoreRound(p, l.maxAttempts);
      }
    } else if lap + 1 < l.maxAttempts {
      ProductMonotone(p, lap + 2, l.maxAttempts);
      OneMoreRound(p, lap + 1);
    }
  }

  /** Where the turn stands after `n` more rows. */
  function NextLap(p: nat, lap: nat, done: nat, n: nat): nat {
    if done + n < p then lap else lap + 1
  }

  function NextDone(p: nat, done: nat, n: nat): (d: nat)
    requires done < p && n <= p
    ensures d < p
  {
    if done + n < p then done + n else done + n - p
  }

  lemma {:induction false} LeftDrops(p: nat, lap: nat, done: nat, n: nat, l: Limits)
    requires done < p && n <= p
    ensures Left(p, NextLap(p, lap, done, n), NextDone(p, done, n), l) == Left(p, lap, done, l) - n
  {
    OneMoreRound(p, lap);
  }

  /** A full batch of the others, in turn, is a legal answer that passes row `p` over. */
  lemma {:induction false} PassOver(p: nat, lap: nat, done: nat, l: Limits)
    requires SaneLimits(l) && l.batchSize <= p && done < p && Left(p, lap, done, l) >= l.batchSize
    ensures var run := FailingRun(InTurn(p, done, l.batchSize));
            && LegalRun(Tied(p, lap, done, 0, l), run, l)
            && AfterRun(Tied(p, lap, done, 0, l), run, l) ==
               Tied(p, NextLap(p, lap, done, l.batchSize), NextDone(p, done, l.batchSize), 0, l)
  {
    var n, batch := l.batchSize, InTurn(p, done, l.batchSize);
    var before, after := Attempts(p, lap, done, 0), Attempts(p, NextLap(p, lap, done, n), NextDone(p, done, n), 0);
    LapsLeft(p, lap, done, l);
    InTurnCovers(p, done, n);
    FailingStep(before, batch, after, l);
  }

  /** Rows `from` to `p`. */
  function Upward(from: nat, p: nat): (batch: seq<nat>)
    requires from <= p
    ensures |batch| == p + 1 - from && forall i :: 0 <= i < |batch| ==> batch[i] == from + i
  {
    seq(p + 1 - from, i requires 0 <= i < p + 1 - from => from + i)
  }

  function FirstPending(p: nat, lap: nat, done: nat, l: Limits): nat {
    if lap >= l.maxAttempts then p else done
  }

  /** With less than a batch left to the others, everything pending is tried, row `p` too. */
  lemma {:induction false} TryAll(p: nat, lap: nat, done: nat, own: nat, l: Limits)
    requires SaneLimits(l) && l.batchSize <= p && done < p && 0 <= Left(p, lap, done, l) < l.batchSize
    requires own + 1 < l.maxAttempts
    ensures var run := FailingRun(Upward(FirstPending(p, lap, done, l), p));
            && LegalRun(Tied(p, lap, done, own, l), run, l)
            && AfterRun(Tied(p, lap, done, own, l), run, l) == Tied(p, l.maxAttempts, 0, own + 1, l)
    ensures Left(p, l.maxAttempts, 0, l) == 0
  {
    LapsLeft(p, lap, done, l);
    var from := FirstPending(p, lap, done, l);
    var before, batch := Attempts(p, lap, done, own), Upward(from, p);
    var after := Attempts(p, l.maxAttempts, 0, own + 1);
    forall j: nat | j <= p && j >= from ensures j in batch {
      assert batch[j - from] == j;
    }
    FailingStep(before, batch, after, l);
  }

  /** Row `p` tried alone or with the last of the others until one attempt is left. */
  ghost function LastTries(p: nat, lap: nat, done: nat, own: nat, l: Limits): seq<Run>
    decreases l.maxAttempts - own
  {
    if own + 1 >= l.maxAttempts || p == 0 || FirstPending(p, lap, done, l) > p then []
    else
      [FailingRun(Upward(FirstPending(p, lap, done, l), p))] + LastTries(p, l.maxAttempts, 0, own + 1, l)
  }

  /** Runs that leave row `r` pending. */
  ghost predicate Leave(rows: seq<OutboxRow>, runs: seq<Run>, r: nat, l: Limits) {
    && LegalRuns(rows, runs, l)
    && r < |AfterRuns(rows, runs, l)|
    && AfterRuns(rows, runs, l)[r].status == Pending
  }

  lemma {:induction false} LeavesOneMore(rows: seq<OutboxRow>, first: Run, rest: seq<Run>, r: nat, l: Limits)
    requires LegalRun(rows, first, l) && Leave(AfterRun(rows, first, l), rest, r, l)
    ensures Leave(rows, [first] + rest, r, l)
  {
    Unroll(rows, first, rest, l);
  }

  lemma {:induction false} LastTriesPending(p: nat, lap: nat, done: nat, own: nat, l: Limits)
    requires SaneLimits(l) && l.batchSize <= p && done < p && 0 <= Left(p, lap, done, l) < l.batchSize
    requires own < l.maxAttempts
    ensures Leave(Tied(p, lap, done, own, l), LastTries(p, lap, done, own, l), p, l)
    ensures |LastTries(p, lap, done, own, l)| == l.maxAttempts - own - 1
    decreases l.maxAttempts - own
  {
    if own + 1 < l.maxAttempts {
      TryAll(p, lap, done, own, l);
      LastTriesPending(p, l.maxAttempts, 0, own + 1, l);
      LastTriesUnroll(p, lap, done, own, l);
      LeavesOneMore(Tied(p, lap, done, own, l), FailingRun(Upward(FirstPending(p, lap, done, l), p)),
                    LastTries(p, l.maxAttempts, 0, own + 1, l), p, l);
    }
  }

  lemma {:induction false} LastTriesUnroll(p: nat, lap: nat, done: nat, own: nat, l: Limits)
    requires own + 1 < l.maxAttempts && p > 0 && done < p
    ensures FirstPending(p, lap, done, l) <= p
    ensures LastTries(p, lap, done, own, l) ==
            [FailingRun(Upward(FirstPending(p, lap, done, l), p))] + LastTries(p, l.maxAttempts, 0, own + 1, l)
  {
  }

  lemma {:induction false} Unroll(rows: seq<OutboxRow>, first: Run, rest: seq<Run>, l: Limits)
    requires LegalRun(rows, first, l) && LegalRuns(AfterRun(rows, first, l), rest, l)
    ensures LegalRuns(rows, [first] + rest, l)
    ensures AfterRuns(rows, [first] + rest, l) == AfterRuns(AfterRun(rows, first, l), rest, l)
  {
    assert ([first] + rest)[1..] == rest;
  }

  /** The others in turn while they fill a batch, then the last tries. */
  ghost function Adversary(p: nat, lap: nat, done: nat, l: Limits): seq<Run>
    requires SaneLimits(l) && l.batchSize <= p && done < p
    decreases Left(p, lap, done, l)
  {
    LeftDrops(p, lap, done, l.batchSize, l);
    if Left(p, lap, done, l) < l.batchSize then LastTries(p, lap, done, 0, l)
    else
      [FailingRun(InTurn(p, done, l.batchSize))] +
      Adversary(p, NextLap(p, lap, done, l.batchSize), NextDone(p, done, l.batchSize), l)
  }

  /** The bound of `PublishedOrDead` is reached: one run fewer can leave the row pending. */
  lemma {:induction false} AdversaryDelays(p: nat, lap: nat, done: nat, l: Limits)
    requires SaneLimits(l) && l.batchSize <= p && done < p && Left(p, lap, done, l) >= 0
    ensures Leave(Tied(p, lap, done, 0, l), Adversary(p, lap, done, l), p, l)
    ensures |Adversary(p, lap, done, l)| == Quotient(Left(p, lap, done, l), l.batchSize) + l.maxAttempts - 1
    decreases Left(p, lap, done, l)
  {
    LeftDrops(p, lap, done, l.batchSize, l);
    if Left(p, lap, done, l) < l.batchSize {
      LastTriesPending(p, lap, done, 0, l);
    } else {
      var lap', done' := NextLap(p, lap, done, l.batchSize), NextDone(p, done, l.batchSize);
      PassOver(p, lap, done, l);
      AdversaryDelays(p, lap', done', l);
      LeavesOneMore(Tied(p, lap, done, 0, l), FailingRun(InTurn(p, done, l.batchSize)),
                    Adversary(p, lap', done', l), p, l);
    }
  }

  // ---- When the first-in-first-out bound survives ties ------------------------------------

  /** After `MAX * (p / B + 1)` runs the row is settled, whatever happens. */
  ghost predicate FifoBoundHolds(p: nat, l: Limits)
    requires SaneLimits(l)
  {
    forall runs :: FifoRuns(p, runs, l) ==> Settled(AfterRuns(Tied(p, 0, 0, 0, l), runs, l), p)
  }

  ghost predicate FifoRuns(p: nat, runs: seq<Run>, l: Limits)
    requires SaneLimits(l)
  {
    && LegalRuns(Tied(p, 0, 0, 0, l), runs, l)
    && |runs| >= l.maxAttempts * (Quotient(p, l.batchSize) + 1)
  }

  function Remainder(p: nat, l: Limits): int
    requires SaneLimits(l)
  {
    p - l.batchSize * Quotient(p, l.batchSize)
  }

  lemma {:induction false} AllOthersAreRivals(p: nat, l: Limits, n: nat)
    requires SaneLimits(l) && n <= p + 1
    ensures RivalCount(Tied(p, 0, 0, 0, l), p, n) == (if n <= p then n else p)
  {
    if n > 0 {
      AllOthersAreRivals(p, l, n - 1);
    }
  }

  /** `B * (MAX * q) + MAX * rest = MAX * p`, when `p = B * q + rest`. */
  lemma {:induction false} Distribute(b: int, m: int, q: int, rest: int)
    ensures b * (m * q) + m * rest == m * (b * q + rest)
  {
  }

  lemma {:induction false} WorkQuotient(p: nat, l: Limits)
    requires SaneLimits(l)
    ensures var q := Quotient(p, l.batchSize);
            if Remainder(p, l) * l.maxAttempts < l.batchSize
            then Quotient(l.maxAttempts * p, l.batchSize) == l.maxAttempts * q
            else Quotient(l.maxAttempts * p, l.batchSize) > l.maxAttempts * q
  {
    var b, m, q := l.batchSize, l.maxAttempts, Quotient(p, l.batchSize);
    var rest := Remainder(p, l);
    QuotientBounds(p, b);
    OneMoreRound(b, q);
    Distribute(b, m, q, rest);
    OneMoreRound(m, p);
    OneMoreRound(m, q);
    OneMoreRound(m, rest);
    QuotientBounds(m * p, b);
    OneMoreRound(b, Quotient(m * p, b));
    if rest * m < b {
      QuotientUnique(m * p, b, Quotient(m * p, b), m * q);
    } else if Quotient(m * p, b) <= m * q {
      ProductMonotone(b, Quotient(m * p, b), m * q);
    }
  }

  lemma {:induction false} TiedFifoIff(p: nat, l: Limits)
    requires SaneLimits(l)
    ensures FifoBoundHolds(p, l) <==> p < l.batchSize || Remainder(p, l) * l.maxAttempts < l.batchSize
  {
    if p < l.batchSize || Remainder(p, l) * l.maxAttempts < l.batchSize {
      forall runs | FifoRuns(p, runs, l)
        ensures Settled(AfterRuns(Tied(p, 0, 0, 0, l), runs, l), p)
      {
        SettledInTime(p, l, runs);
      }
    } else {
      SettledLate(p, l);
    }
  }

  lemma {:induction false} SettledInTime(p: nat, l: Limits, runs: seq<Run>)
    requires SaneLimits(l) && (p < l.batchSize || Remainder(p, l) * l.maxAttempts < l.batchSize)
    requires LegalRuns(Tied(p, 0, 0, 0, l), runs, l)
    requires |runs| >= l.maxAttempts * (Quotient(p, l.batchSize) + 1)
    ensures Settled(AfterRuns(Tied(p, 0, 0, 0, l), runs, l), p)
  {
    AllOthersAreRivals(p, l, p + 1);
    OneMoreRound(l.maxAttempts, Quotient(p, l.batchSize));
    if p < l.batchSize {
      FrontFinishes(Tied(p, 0, 0, 0, l), runs, l, p);
    } else {
      WorkQuotient(p, l);
      PublishedOrDead(Tied(p, 0, 0, 0, l), runs, l, p);
    }
  }

  lemma {:induction false} LateRuns(p: nat, l: Limits)
    requires SaneLimits(l) && Remainder(p, l) * l.maxAttempts >= l.batchSize
    ensures Left(p, 0, 0, l) == l.maxAttempts * p
    ensures Quotient(Left(p, 0, 0, l), l.batchSize) + l.maxAttempts - 1 >=
            l.maxAttempts * (Quotient(p, l.batchSize) + 1)
  {
    WorkQuotient(p, l);
    OneMoreRound(l.maxAttempts, Quotient(p, l.batchSize));
  }

  lemma {:induction false} SettledLate(p: nat, l: Limits)
    requires SaneLimits(l) && p >= l.batchSize && Remainder(p, l) * l.maxAttempts >= l.batchSize
    ensures !FifoBoundHolds(p, l)
  {
    LateRuns(p, l);
    AdversaryDelays(p, 0, 0, l);
    assert FifoRuns(p, Adversary(p, 0, 0, l), l);
  }
}
