/** How long a due dead letter waits for its turn, when more entries are due than a scan takes. */
module DeadLetterWait {
  import opened Arithmetic
  import opened Basics
  import opened Sequences
  import opened Backoff
  import opened DeadLetters
  import opened DeadLetterRuns

  /** Every retry is put off, and a scan takes something. */
  ghost predicate SaneSettings(s: Settings) {
    s.baseDelay >= 1 && s.maxDelay >= 1 && s.maxAttempts >= 1 && s.batchSize >= 1
  }

  /** Entry `i` waits for its retry, due at `due`. */
  ghost predicate Waits(entries: seq<FailedEvent>, i: nat, due: Time, s: Settings) {
    && i < |entries|
    && entries[i].Active() && entries[i].attempts < s.maxAttempts && entries[i].nextRetryAt == Some(due)
  }

  /** Entry `j` may be taken before entry `i`. */
  predicate Before(entries: seq<FailedEvent>, i: nat, due: Time, j: nat)
    requires j < |entries|
  {
    j != i && entries[j].Active() && NotLater(entries[j].nextRetryAt, Some(due))
  }

  function CountBefore(entries: seq<FailedEvent>, i: nat, due: Time, n: nat): nat
    requires n <= |entries|
  {
    if n == 0 then 0
    else CountBefore(entries, i, due, n - 1) + (if Before(entries, i, due, n - 1) then 1 else 0)
  }

  /** The entry is due by then: failures are recorded, and scans happen, no earlier. */
  predicate HappensAfter(a: Action, due: Time) {
    match a
    case Record(f) => f.now >= due
    case Scan(now, _, _) => now >= due
    case LostScan(_, _, _) => true
    case ManualReplay(_, _, _) => true
  }

  /** A committed scan whose every dispatch the broker takes. */
  ghost predicate Accepting(a: Action) {
    a.Scan? && forall p :: 0 <= p < |a.dispatches| ==> a.dispatches[p].Sent?
  }

  /** Such scans after step `n` of a run. */
  ghost function AcceptingScans(actions: seq<Action>, n: nat): nat {
    if |actions| <= n then 0
    else
      AcceptingScans(actions[..|actions| - 1], n) + (if Accepting(actions[|actions| - 1]) then 1 else 0)
  }

  /** What every reachable table satisfies. */
  ghost predicate ActiveScheduled(entries: seq<FailedEvent>, s: Settings) {
    forall j :: 0 <= j < |entries| && entries[j].Active() ==>
      entries[j].attempts < s.maxAttempts && entries[j].nextRetryAt.Some?
  }

  lemma {:induction false} BackoffPositive(s: Settings, n: nat)
    requires SaneSettings(s)
    ensures ComputeBackoff(s, n) >= 1
  {
    ProductMonotone(s.baseDelay, 1, Pow2(n));
  }

  lemma {:induction false} NoneJoins(before: seq<FailedEvent>, now: seq<FailedEvent>, i: nat, due: Time, n: nat)
    requires n <= |before| && n <= |now|
    requires forall j :: 0 <= j < n && Before(now, i, due, j) ==> Before(before, i, due, j)
    ensures CountBefore(now, i, due, n) <= CountBefore(before, i, due, n)
  {
    if n > 0 {
      NoneJoins(before, now, i, due, n - 1);
    }
  }

  lemma {:induction false} BatchLeaves(
    before: seq<FailedEvent>, now: seq<FailedEvent>, i: nat, due: Time, batch: seq<nat>, n: nat)
    requires n <= |before| && n <= |now|
    requires forall j :: 0 <= j < n && Before(now, i, due, j) ==> Before(before, i, due, j) && j !in batch
    requires forall j :: 0 <= j < n && j in batch ==> Before(before, i, due, j)
    ensures CountBefore(now, i, due, n) + Taken(batch, n) <= CountBefore(before, i, due, n)
  {
    if n > 0 {
      BatchLeaves(before, now, i, due, batch, n - 1);
    }
  }

  // ---- One step ---------------------------------------------------------------------------

  /** The entry had its turn, or it waits as before with no more entries before it than `count`. */
  ghost predicate TurnOrWait(
    before: seq<FailedEvent>, now: seq<FailedEvent>, i: nat, due: Time, count: int, s: Settings)
  {
    && i < |before| && i < |now|
    && (now[i].attempts > before[i].attempts ||
        (Waits(now, i, due, s) && now[i].attempts == before[i].attempts && CountBefore(now, i, due, |now|) <= count))
  }

  lemma {:induction false} RecordStep(entries: seq<FailedEvent>, f: Failure, s: Settings, i: nat, due: Time)
    requires SaneSettings(s) && ActiveScheduled(entries, s) && Waits(entries, i, due, s) && f.now >= due
    ensures TurnOrWait(entries, Recorded(entries, f, s), i, due, CountBefore(entries, i, due, |entries|), s)
  {
    BackoffPositive(s, 0);
    NoneJoins(entries, Recorded(entries, f, s), i, due, |entries|);
  }

  lemma {:induction false} ReplayStep(
    entries: seq<FailedEvent>, id: Uuid, fate: ReplayFate, now: Time, s: Settings, i: nat, due: Time)
    requires Waits(entries, i, due, s)
    ensures TurnOrWait(entries, Replay(entries, id, fate, now), i, due, CountBefore(entries, i, due, |entries|), s)
  {
    NoneJoins(entries, Replay(entries, id, fate, now), i, due, |entries|);
  }

  /** A dispatched entry leaves the line, and no entry joins it. */
  lemma {:induction false} ScannedRow(entries: seq<FailedEvent>, a: Action, s: Settings, due: Time, j: nat)
    requires SaneSettings(s) && a.Scan? && Enabled(entries, a, s) && a.now >= due && j < |entries|
    ensures j < |Next(entries, a, s)|
    ensures j !in a.batch ==> Next(entries, a, s)[j] == entries[j]
    ensures forall p :: 0 <= p < |a.batch| && a.batch[p] == j ==>
              var e := Next(entries, a, s)[j];
              if a.dispatches[p].Sent? then
                e.attempts == entries[j].attempts + 1 && (e.Active() ==> !NotLater(e.nextRetryAt, Some(due)))
              else e == entries[j]
  {
    DueInTable(entries, a.now, s, a.batch);
    ScannedAt(entries, a.batch, a.dispatches, s);
    forall p | 0 <= p < |a.batch| && a.batch[p] == j
      ensures var e := Next(entries, a, s)[j];
              if a.dispatches[p].Sent? then
                e.attempts == entries[j].attempts + 1 && (e.Active() ==> !NotLater(e.nextRetryAt, Some(due)))
              else e == entries[j]
    {
      assert Next(entries, a, s)[a.batch[p]] == Dispatched(entries[j], a.dispatches[p], s);
      BackoffPositive(s, entries[j].attempts + 1);
    }
  }

  lemma {:induction false} NoneJoinsScan(entries: seq<FailedEvent>, a: Action, s: Settings, i: nat, due: Time, j: nat)
    requires SaneSettings(s) && a.Scan? && Enabled(entries, a, s) && a.now >= due
    requires j < |entries| && j < |Next(entries, a, s)| && Before(Next(entries, a, s), i, due, j)
    ensures Before(entries, i, due, j)
    ensures Accepting(a) ==> j !in a.batch
  {
    ScannedRow(entries, a, s, due, j);
    if j in a.batch {
      var p :| 0 <= p < |a.batch| && a.batch[p] == j;
    }
  }

  /** An accepting scan that passes an entry over took a full batch from before it. */
  lemma {:induction false} PassedOverFor(entries: seq<FailedEvent>, a: Action, s: Settings, i: nat, due: Time)
    requires a.Scan? && Enabled(entries, a, s) && a.now >= due && Waits(entries, i, due, s) && i !in a.batch
    ensures |a.batch| == s.batchSize
    ensures forall j: nat :: j in a.batch ==> j < |entries| && Before(entries, i, due, j)
  {
    assert Due(entries, a.now, s.maxAttempts, i);
    forall j: nat | j in a.batch ensures j < |entries| && Before(entries, i, due, j) {
      var p :| 0 <= p < |a.batch| && a.batch[p] == j;
      assert Due(entries, a.now, s.maxAttempts, a.batch[p]);
    }
  }

  lemma {:induction false} ScanStep(entries: seq<FailedEvent>, a: Action, s: Settings, i: nat, due: Time)
    requires SaneSettings(s) && a.Scan? && Enabled(entries, a, s) && a.now >= due && Waits(entries, i, due, s)
    ensures TurnOrWait(entries, Next(entries, a, s), i, due,
                       CountBefore(entries, i, due, |entries|) - (if Accepting(a) then s.batchSize else 0), s)
  {
    var now := Next(entries, a, s);
    DueInTable(entries, a.now, s, a.batch);
    ScannedRow(entries, a, s, due, i);
    forall j | 0 <= j < |entries| && Before(now, i, due, j)
      ensures Before(entries, i, due, j) && (Accepting(a) ==> j !in a.batch)
    {
      NoneJoinsScan(entries, a, s, i, due, j);
    }
    NoneJoins(entries, now, i, due, |entries|);
    if i in a.batch {
      var p :| 0 <= p < |a.batch| && a.batch[p] == i;
    } else if Accepting(a) {
      PassedOverFor(entries, a, s, i, due);
      BatchLeaves(entries, now, i, due, a.batch, |entries|);
      TakenAll(a.batch, |entries|);
    }
  }

  // ---- Runs -------------------------------------------------------------------------------

  lemma {:induction false} RunsActiveScheduled(actions: seq<Action>, s: Settings)
    requires s.maxAttempts >= 1 && Legal(actions, s)
    ensures ActiveScheduled(Run(actions, s), s)
  {
    InvariantHolds(actions, s);
    var entries := Run(actions, s);
    forall j | 0 <= j < |entries| && entries[j].Active()
      ensures entries[j].attempts < s.maxAttempts && entries[j].nextRetryAt.Some?
    {
      assert EntrySound(entries[j], Dispatches(actions, j), s);
    }
  }

  lemma {:induction false} TurnOrWaitStep(entries: seq<FailedEvent>, a: Action, s: Settings, i: nat, due: Time)
    requires SaneSettings(s) && ActiveScheduled(entries, s) && Enabled(entries, a, s) && HappensAfter(a, due)
    requires Waits(entries, i, due, s)
    ensures TurnOrWait(entries, Next(entries, a, s), i, due,
                       CountBefore(entries, i, due, |entries|) - (if Accepting(a) then s.batchSize else 0), s)
  {
    match a
    case Record(f) => RecordStep(entries, f, s, i, due);
    case Scan(_, _, _) => ScanStep(entries, a, s, i, due);
    case LostScan(_, _, _) =>
    case ManualReplay(id, fate, now) => ReplayStep(entries, id, fate, now, s, i, due);
  }

  /** The same after any number of steps: every accepting scan took a batch from before the entry. */
  ghost predicate Progress(
    start: seq<FailedEvent>, now: seq<FailedEvent>, scans: nat, s: Settings, i: nat, due: Time)
  {
    TurnOrWait(start, now, i, due, CountBefore(start, i, due, |start|) - s.batchSize * scans, s)
  }

  lemma {:induction false} ProgressStep(
    start: seq<FailedEvent>, actions: seq<Action>, scans: nat, s: Settings, i: nat, due: Time)
    requires SaneSettings(s) && Legal(actions, s) && actions != [] && HappensAfter(actions[|actions| - 1], due)
    requires Progress(start, Run(actions[..|actions| - 1], s), scans, s, i, due)
    ensures Progress(start, Run(actions, s), scans + (if Accepting(actions[|actions| - 1]) then 1 else 0), s, i, due)
  {
    var init, last := actions[..|actions| - 1], actions[|actions| - 1];
    InvariantHolds(init, s);
    RunsActiveScheduled(init, s);
    TurnOrWaitNext(start, Run(init, s), init, last, s, i, due,
                   CountBefore(start, i, due, |start|) - s.batchSize * scans);
    OneMoreRound(s.batchSize, scans);
  }

  lemma {:induction false} ProgressRun(
    past: seq<Action>, actions: seq<Action>, s: Settings, i: nat, due: Time)
    requires SaneSettings(s) && Legal(past, s) && Legal(actions, s) && past <= actions
    requires Waits(Run(past, s), i, due, s)
    requires forall p :: |past| <= p < |actions| ==> HappensAfter(actions[p], due)
    ensures Progress(Run(past, s), Run(actions, s), AcceptingScans(actions, |past|), s, i, due)
    decreases |actions|
  {
    if |past| == |actions| {
      assert past == actions;
    } else {
      var init := actions[..|actions| - 1];
      ProgressRun(past, init, s, i, due);
      ProgressStep(Run(past, s), actions, AcceptingScans(init, |past|), s, i, due);
    }
  }

  lemma {:induction false} TurnOrWaitNext(
    start: seq<FailedEvent>, entries: seq<FailedEvent>, actions: seq<Action>, a: Action, s: Settings,
    i: nat, due: Time, count: int)
    requires SaneSettings(s) && ActiveScheduled(entries, s) && Enabled(entries, a, s) && HappensAfter(a, due)
    requires Invariant(entries, actions, s) && TurnOrWait(start, entries, i, due, count, s)
    ensures TurnOrWait(start, Next(entries, a, s), i, due, count - (if Accepting(a) then s.batchSize else 0), s)
  {
    InvariantStep(entries, actions, a, s);
    assert EntryEvolves(entries[i], Next(entries, a, s)[i]);
    if entries[i].attempts == start[i].attempts {
      TurnOrWaitStep(entries, a, s, i, due);
    }
  }

  /**
   An entry that waits at some moment of a run, with `p` others due before it, is dispatched (or
   replayed by hand) within `p / B + 1` scans in which the broker takes everything, whatever else
   is recorded, replayed or refused in between.
   */
  lemma {:induction false} DispatchedInTurn(
    past: seq<Action>, actions: seq<Action>, s: Settings, i: nat, due: Time)
    requires SaneSettings(s) && Legal(past, s) && Legal(actions, s) && past <= actions
    requires Waits(Run(past, s), i, due, s)
    requires forall p :: |past| <= p < |actions| ==> HappensAfter(actions[p], due)
    requires AcceptingScans(actions, |past|) >=
             Quotient(CountBefore(Run(past, s), i, due, |Run(past, s)|), s.batchSize) + 1
    ensures i < |Run(actions, s)| && Run(actions, s)[i].attempts > Run(past, s)[i].attempts
  {
    ProgressRun(past, actions, s, i, due);
    TurnComes(Run(past, s), Run(actions, s), AcceptingScans(actions, |past|), s, i, due);
  }

  lemma {:induction false} TurnComes(
    start: seq<FailedEvent>, now: seq<FailedEvent>, scans: nat, s: Settings, i: nat, due: Time)
    requires s.batchSize >= 1 && Progress(start, now, scans, s, i, due)
    requires scans >= Quotient(CountBefore(start, i, due, |start|), s.batchSize) + 1
    ensures now[i].attempts > start[i].attempts
  {
    var count := CountBefore(start, i, due, |start|);
    QuotientBounds(count, s.batchSize);
    ProductMonotone(s.batchSize, Quotient(count, s.batchSize) + 1, scans);
  }
}
