/** What holds over every run of recording failures, scanning for due retries, and replaying by hand. */
module DeadLetterRuns {
  import opened Arithmetic
  import opened Basics
  import opened Sequences
  import opened Backoff
  import opened DeadLetters

  /** A lost scan is rolled back: after all its dispatches if the commit fails, or after some in a crash. */
  datatype Action =
    | Record(failure: Failure)
    | Scan(now: Time, batch: seq<nat>, dispatches: seq<Dispatch>)
    | LostScan(now: Time, batch: seq<nat>, dispatches: seq<Dispatch>)
    | ManualReplay(id: Uuid, fate: ReplayFate, now: Time)

  /** UUIDs are fresh, and a scan's clock does not run backwards while it dispatches. */
  ghost predicate Enabled(entries: seq<FailedEvent>, a: Action, s: Settings) {
    match a
    case Record(f) => forall i :: 0 <= i < |entries| ==> entries[i].id != f.id
    case Scan(now, batch, dispatches) =>
      && IsDueBatch(entries, now, s, batch)
      && |dispatches| == |batch|
      && forall p :: 0 <= p < |dispatches| && dispatches[p].Sent? ==> dispatches[p].at >= now
    case LostScan(now, batch, dispatches) => IsDueBatch(entries, now, s, batch) && |dispatches| <= |batch|
    case ManualReplay(_, _, _) => true
  }

  lemma {:induction false} DueInTable(entries: seq<FailedEvent>, now: Time, s: Settings, batch: seq<nat>)
    requires IsDueBatch(entries, now, s, batch)
    ensures forall p :: 0 <= p < |batch| ==> batch[p] < |entries|
  {
    forall p | 0 <= p < |batch| ensures batch[p] < |entries| {
      assert Due(entries, now, s.maxAttempts, batch[p]);
    }
  }

  ghost function Next(entries: seq<FailedEvent>, a: Action, s: Settings): seq<FailedEvent>
    requires Enabled(entries, a, s)
  {
    match a
    case Record(f) => Recorded(entries, f, s)
    case Scan(now, batch, dispatches) =>
      DueInTable(entries, now, s, batch);
      Scanned(entries, batch, dispatches, s)
    case LostScan(_, _, _) => entries
    case ManualReplay(id, fate, now) => Replay(entries, id, fate, now)
  }

  ghost predicate Legal(actions: seq<Action>, s: Settings)
    decreases |actions|, 0
  {
    actions != [] ==>
      && Legal(actions[..|actions| - 1], s)
      && Enabled(Run(actions[..|actions| - 1], s), actions[|actions| - 1], s)
  }

  /** The table after a run that started empty. */
  ghost function Run(actions: seq<Action>, s: Settings): seq<FailedEvent>
    requires Legal(actions, s)
    decreases |actions|, 1
  {
    if actions == [] then []
    else Next(Run(actions[..|actions| - 1], s), actions[|actions| - 1], s)
  }

  // ---- How often an entry was dispatched --------------------------------------------------

  /** Accepted dispatches of row `i` in one scan. */
  function SentTo(batch: seq<nat>, dispatches: seq<Dispatch>, i: nat): nat
    requires |batch| == |dispatches|
  {
    if batch == [] then 0
    else
      var n := |batch| - 1;
      SentTo(batch[..n], dispatches[..n], i) + (if batch[n] == i && dispatches[n].Sent? then 1 else 0)
  }

  /** Committed automatic dispatches of row `i` over a run. */
  function Dispatches(actions: seq<Action>, i: nat): nat {
    if actions == [] then 0
    else
      var last := actions[|actions| - 1];
      Dispatches(actions[..|actions| - 1], i) +
      (if last.Scan? && |last.batch| == |last.dispatches| then SentTo(last.batch, last.dispatches, i) else 0)
  }

  /** Committed automatic dispatches of all rows over a run. */
  function AllDispatches(actions: seq<Action>): nat {
    if actions == [] then 0
    else
      var last := actions[|actions| - 1];
      AllDispatches(actions[..|actions| - 1]) + (if last.Scan? then CountSent(last.dispatches) else 0)
  }

  // ---- The invariant ----------------------------------------------------------------------

  /** An entry that only automatic retries have touched: its schedule and its dispatches so far. */
  ghost predicate OnSchedule(e: FailedEvent, dispatches: nat, s: Settings) {
    && e.attempts == dispatches
    && (e.Active() ==> e.attempts < s.maxAttempts && e.nextRetryAt.Some?)
    && (e.Active() ==>
          if e.attempts == 0 then e.nextRetryAt == Some(e.createdAt + ComputeBackoff(s, 0))
          else e.lastAttemptAt.Some? &&
               e.nextRetryAt == Some(e.lastAttemptAt.value + ComputeBackoff(s, e.attempts)))
    && (e.status == Exhausted ==> e.attempts == s.maxAttempts && e.nextRetryAt.None?)
    && (e.attempts > 0 ==>
          e.lastAttemptAt.Some? && e.lastAttemptAt.value >= e.createdAt + TotalBackoff(s, e.attempts))
  }

  /** A resolved entry was replayed by hand: at least one attempt more than its dispatches. */
  ghost predicate EntrySound(e: FailedEvent, dispatches: nat, s: Settings) {
    && dispatches <= s.maxAttempts
    && if e.status == Resolved then e.nextRetryAt.None? && e.attempts > dispatches
       else OnSchedule(e, dispatches, s)
  }

  ghost predicate OneActive(entries: seq<FailedEvent>) {
    forall i, j :: 0 <= i < j < |entries| && entries[i].Active() && entries[j].Active() ==>
      entries[i].source != entries[j].source || entries[i].operation != entries[j].operation
  }

  ghost predicate DistinctIds(entries: seq<FailedEvent>) {
    forall i, j :: 0 <= i < j < |entries| ==> entries[i].id != entries[j].id
  }

  ghost predicate Invariant(entries: seq<FailedEvent>, actions: seq<Action>, s: Settings) {
    && OneActive(entries)
    && DistinctIds(entries)
    && (forall i :: 0 <= i < |entries| ==> EntrySound(entries[i], Dispatches(actions, i), s))
    && (forall i :: i >= |entries| ==> Dispatches(actions, i) == 0)
  }

  /** Rows stay where they are, and what left the active statuses never returns. */
  ghost predicate EntryEvolves(before: FailedEvent, now: FailedEvent) {
    && now.id == before.id && now.source == before.source && now.operation == before.operation
    && now.createdAt == before.createdAt && now.attempts >= before.attempts
    && (!before.Active() ==> !now.Active())
    && (before.status == Exhausted ==> now == before || now.status == Resolved)
    && (before.status == Resolved ==> now.status == Resolved)
  }

  ghost predicate Evolves(before: seq<FailedEvent>, now: seq<FailedEvent>) {
    && |before| <= |now|
    && forall i :: 0 <= i < |before| ==> EntryEvolves(before[i], now[i])
  }

  // -- Record --

  lemma {:induction false} InvariantRecord(entries: seq<FailedEvent>, actions: seq<Action>, f: Failure, s: Settings)
    requires s.maxAttempts >= 1 && Invariant(entries, actions, s) && Enabled(entries, Record(f), s)
    ensures Invariant(Recorded(entries, f, s), actions + [Record(f)], s)
    ensures Evolves(entries, Recorded(entries, f, s))
  {
    var now := Recorded(entries, f, s);
    assert (actions + [Record(f)])[..|actions|] == actions;
    assert forall i :: Dispatches(actions + [Record(f)], i) == Dispatches(actions, i);
    forall i | 0 <= i < |now| ensures EntrySound(now[i], Dispatches(actions, i), s) {
      if i < |entries| { assert EntrySound(entries[i], Dispatches(actions, i), s); }
    }
    RecordKeepsOneActive(entries, f, s);
  }

  lemma {:induction false} RecordKeepsOneActive(entries: seq<FailedEvent>, f: Failure, s: Settings)
    requires OneActive(entries)
    ensures OneActive(Recorded(entries, f, s))
  {
  }

  // -- Scan --

  /** What a scan does to one row. */
  lemma {:induction false} ScannedAt(
    entries: seq<FailedEvent>, batch: seq<nat>, dispatches: seq<Dispatch>, s: Settings)
    requires |batch| == |dispatches| && NoRepeats(batch)
    requires forall p :: 0 <= p < |batch| ==> batch[p] < |entries|
    ensures var r := Scanned(entries, batch, dispatches, s);
            && (forall p :: 0 <= p < |batch| ==> r[batch[p]] == Dispatched(entries[batch[p]], dispatches[p], s))
            && (forall i :: 0 <= i < |entries| && i !in batch ==> r[i] == entries[i])
  {
    if batch != [] {
      var n := |batch| - 1;
      ScannedAt(entries, batch[..n], dispatches[..n], s);
      assert batch == batch[..n] + [batch[n]];
      assert batch[n] !in batch[..n];
    }
  }

  lemma {:induction false} SentToAt(batch: seq<nat>, dispatches: seq<Dispatch>, i: nat)
    requires |batch| == |dispatches| && NoRepeats(batch)
    ensures i !in batch ==> SentTo(batch, dispatches, i) == 0
    ensures forall p :: 0 <= p < |batch| && batch[p] == i ==>
              SentTo(batch, dispatches, i) == if dispatches[p].Sent? then 1 else 0
  {
    if batch != [] {
      var n := |batch| - 1;
      SentToAt(batch[..n], dispatches[..n], i);
      assert batch == batch[..n] + [batch[n]];
    }
  }

  /** A due entry, dispatched no earlier than the scan began, keeps to its schedule. */
  lemma {:induction false} DispatchKeepsSchedule(e: FailedEvent, n: nat, now: Time, at: Time, s: Settings)
    requires s.maxAttempts >= 1 && OnSchedule(e, n, s) && e.Active()
    requires e.nextRetryAt.value <= now <= at
    ensures OnSchedule(Scheduled(e, at, s), n + 1, s)
  {
    assert TotalBackoff(s, n + 1) == TotalBackoff(s, n) + ComputeBackoff(s, n);
    if n == 0 {
      assert TotalBackoff(s, 0) == 0;
    }
  }

  lemma {:induction false} DispatchedSound(e: FailedEvent, n: nat, now: Time, d: Dispatch, s: Settings)
    requires s.maxAttempts >= 1 && EntrySound(e, n, s) && e.Active()
    requires e.nextRetryAt.None? || e.nextRetryAt.value <= now
    requires d.Sent? ==> d.at >= now
    ensures EntrySound(Dispatched(e, d, s), n + (if d.Sent? then 1 else 0), s)
    ensures EntryEvolves(e, Dispatched(e, d, s))
  {
    if d.Sent? {
      DispatchKeepsSchedule(e, n, now, d.at, s);
    }
  }

  lemma {:induction false} ScanKeepsRow(
    entries: seq<FailedEvent>, actions: seq<Action>, a: Action, s: Settings, i: nat)
    requires s.maxAttempts >= 1 && Invariant(entries, actions, s) && a.Scan? && Enabled(entries, a, s)
    requires i < |entries|
    ensures var now := Next(entries, a, s);
            && i < |now|
            && EntrySound(now[i], Dispatches(actions, i) + SentTo(a.batch, a.dispatches, i), s)
            && EntryEvolves(entries[i], now[i])
            && (now[i].Active() ==> entries[i].Active())
  {
    DueInTable(entries, a.now, s, a.batch);
    ScannedAt(entries, a.batch, a.dispatches, s);
    SentToAt(a.batch, a.dispatches, i);
    assert EntrySound(entries[i], Dispatches(actions, i), s);
    if i in a.batch {
      var p :| 0 <= p < |a.batch| && a.batch[p] == i;
      assert Due(entries, a.now, s.maxAttempts, a.batch[p]);
      assert Next(entries, a, s)[a.batch[p]] == Dispatched(entries[i], a.dispatches[p], s);
      DispatchedSound(entries[i], Dispatches(actions, i), a.now, a.dispatches[p], s);
    }
  }

  lemma {:induction false} InvariantScan(entries: seq<FailedEvent>, actions: seq<Action>, a: Action, s: Settings)
    requires s.maxAttempts >= 1 && Invariant(entries, actions, s) && a.Scan? && Enabled(entries, a, s)
    ensures Invariant(Next(entries, a, s), actions + [a], s)
    ensures Evolves(entries, Next(entries, a, s))
  {
    var now := Next(entries, a, s);
    DueInTable(entries, a.now, s, a.batch);
    assert (actions + [a])[..|actions|] == actions;
    assert forall i :: Dispatches(actions + [a], i) == Dispatches(actions, i) + SentTo(a.batch, a.dispatches, i);
    forall i | 0 <= i < |now|
      ensures EntrySound(now[i], Dispatches(actions + [a], i), s)
      ensures EntryEvolves(entries[i], now[i]) && (now[i].Active() ==> entries[i].Active())
    {
      ScanKeepsRow(entries, actions, a, s, i);
    }
    forall i: nat | i >= |now| ensures Dispatches(actions + [a], i) == 0 {
      SentToAt(a.batch, a.dispatches, i);
    }
  }

  // -- Manual replay --

  lemma {:induction false} InvariantReplay(
    entries: seq<FailedEvent>, actions: seq<Action>, id: Uuid, fate: ReplayFate, now: Time, s: Settings)
    requires Invariant(entries, actions, s)
    ensures Invariant(Replay(entries, id, fate, now), actions + [ManualReplay(id, fate, now)], s)
    ensures Evolves(entries, Replay(entries, id, fate, now))
  {
    var a, after := ManualReplay(id, fate, now), Replay(entries, id, fate, now);
    assert (actions + [a])[..|actions|] == actions;
    assert forall i :: Dispatches(actions + [a], i) == Dispatches(actions, i);
    forall i | 0 <= i < |after| ensures EntrySound(after[i], Dispatches(actions, i), s) {
      assert EntrySound(entries[i], Dispatches(actions, i), s);
    }
  }

  // -- Lost scan --

  lemma {:induction false} InvariantLost(entries: seq<FailedEvent>, actions: seq<Action>, a: Action, s: Settings)
    requires Invariant(entries, actions, s) && a.LostScan?
    ensures Invariant(entries, actions + [a], s) && Evolves(entries, entries)
  {
    assert (actions + [a])[..|actions|] == actions;
    assert forall i :: Dispatches(actions + [a], i) == Dispatches(actions, i);
  }

  /** One step keeps the invariant, and no entry becomes active again. */
  lemma {:induction false} InvariantStep(entries: seq<FailedEvent>, actions: seq<Action>, a: Action, s: Settings)
    requires s.maxAttempts >= 1 && Invariant(entries, actions, s) && Enabled(entries, a, s)
    ensures Invariant(Next(entries, a, s), actions + [a], s)
    ensures Evolves(entries, Next(entries, a, s))
  {
    match a
    case Record(f) => InvariantRecord(entries, actions, f, s);
    case Scan(_, _, _) => InvariantScan(entries, actions, a, s);
    case LostScan(_, _, _) => InvariantLost(entries, actions, a, s);
    case ManualReplay(id, fate, now) => InvariantReplay(entries, actions, id, fate, now, s);
  }

  /**
   Over every run: at most one active entry per operation; an active entry has attempts left
   and is scheduled its backoff after its last attempt; an exhausted one has none left; and
   an entry's attempts are its dispatches, unless it was replayed by hand.
   */
  lemma {:induction false} InvariantHolds(actions: seq<Action>, s: Settings)
    requires s.maxAttempts >= 1 && Legal(actions, s)
    ensures Invariant(Run(actions, s), actions, s)
  {
    if actions != [] {
      var init, last := actions[..|actions| - 1], actions[|actions| - 1];
      assert actions == init + [last];
      InvariantHolds(init, s);
      InvariantStep(Run(init, s), init, last, s);
    }
  }

  /** From any moment of a run on: no entry is lost, and none becomes active again. */
  lemma {:induction false} NeverActiveAgain(actions: seq<Action>, n: nat, s: Settings)
    requires s.maxAttempts >= 1 && Legal(actions, s) && n <= |actions|
    ensures Legal(actions[..n], s) && Evolves(Run(actions[..n], s), Run(actions, s))
    decreases |actions|
  {
    if n == |actions| {
      assert actions[..n] == actions;
    } else {
      var init, last := actions[..|actions| - 1], actions[|actions| - 1];
      assert init[..n] == actions[..n];
      NeverActiveAgain(init, n, s);
      InvariantHolds(init, s);
      InvariantStep(Run(init, s), init, last, s);
      EvolvesOn(Run(actions[..n], s), Run(init, s), Run(actions, s));
    }
  }

  lemma {:induction false} EvolvesOn(a: seq<FailedEvent>, b: seq<FailedEvent>, c: seq<FailedEvent>)
    requires Evolves(a, b) && Evolves(b, c)
    ensures Evolves(a, c)
  {
    forall i | 0 <= i < |a| ensures EntryEvolves(a[i], c[i]) {
      assert EntryEvolves(a[i], b[i]) && EntryEvolves(b[i], c[i]);
    }
  }

  /**
   An entry not replayed by hand is exhausted exactly when it was dispatched MAX times, and
   then no earlier after its recording than all the delays together, in closed form.
   */
  lemma {:induction false} ExhaustedOnlyAfterBackoff(actions: seq<Action>, s: Settings, i: nat)
    requires s.maxAttempts >= 1 && Legal(actions, s) && i < |Run(actions, s)|
    requires Run(actions, s)[i].status != Resolved
    ensures Dispatches(actions, i) <= s.maxAttempts
    ensures Run(actions, s)[i].status == Exhausted <==> Dispatches(actions, i) == s.maxAttempts
    ensures var e, k := Run(actions, s)[i], Knee(s, s.maxAttempts);
            e.status == Exhausted ==>
              && e.lastAttemptAt.Some?
              && e.lastAttemptAt.value >=
                 e.createdAt + s.baseDelay * Pow2(k) - s.baseDelay + s.maxDelay * (s.maxAttempts - k)
  {
    InvariantHolds(actions, s);
    var e := Run(actions, s)[i];
    assert EntrySound(e, Dispatches(actions, i), s);
    TotalClosedForm(s, s.maxAttempts);
  }

  /** Step `n` is a manual replay of the entry at row `i`, which was open by then, and the broker took it. */
  ghost predicate ReplaysRow(actions: seq<Action>, n: nat, i: nat, s: Settings) {
    && n < |actions| && actions[n].ManualReplay? && actions[n].fate == Committed
    && Legal(actions[..n], s) && i < |Run(actions[..n], s)| && Run(actions[..n], s)[i].id == actions[n].id
  }

  ghost predicate ReplayedByHand(actions: seq<Action>, i: nat, s: Settings) {
    exists n :: ReplaysRow(actions, n, i, s)
  }

  lemma {:induction false} ReplayedByHandStep(init: seq<Action>, last: Action, i: nat, s: Settings)
    requires Legal(init, s)
    ensures ReplayedByHand(init + [last], i, s) <==>
            || ReplayedByHand(init, i, s)
            || (last.ManualReplay? && last.fate == Committed && i < |Run(init, s)| && Run(init, s)[i].id == last.id)
  {
    var actions := init + [last];
    assert actions[..|init|] == init;
    if ReplayedByHand(init, i, s) {
      var n: nat :| ReplaysRow(init, n, i, s);
      assert actions[..n] == init[..n];
      assert ReplaysRow(actions, n, i, s);
    }
    if last.ManualReplay? && last.fate == Committed && i < |Run(init, s)| && Run(init, s)[i].id == last.id {
      assert ReplaysRow(actions, |init|, i, s);
    }
    if ReplayedByHand(actions, i, s) {
      var n: nat :| ReplaysRow(actions, n, i, s);
      if n < |init| {
        assert actions[..n] == init[..n];
        assert ReplaysRow(init, n, i, s);
      }
    }
  }

  /** One step resolves a row exactly when it replays its id. */
  lemma {:induction false} StepResolves(entries: seq<FailedEvent>, a: Action, s: Settings, i: nat)
    requires Enabled(entries, a, s) && DistinctIds(entries) && i < |Next(entries, a, s)|
    ensures Next(entries, a, s)[i].status == Resolved <==>
            && i < |entries|
            && (entries[i].status == Resolved || (a.ManualReplay? && a.fate == Committed && entries[i].id == a.id))
  {
    match a
    case Record(f) =>
    case Scan(now, batch, dispatches) =>
      ScanResolvesNothing(entries, a, s, i);
    case LostScan(_, _, _) =>
    case ManualReplay(id, fate, now) =>
      var found := Find(entries, id);
      if found.Some? && i < |entries| && i != found.value {
        assert entries[i].id != entries[found.value].id;
      }
  }

  lemma {:induction false} ScanResolvesNothing(entries: seq<FailedEvent>, a: Action, s: Settings, i: nat)
    requires Enabled(entries, a, s) && a.Scan? && i < |Next(entries, a, s)|
    ensures i < |entries| && (Next(entries, a, s)[i].status == Resolved <==> entries[i].status == Resolved)
  {
    DueInTable(entries, a.now, s, a.batch);
    ScannedAt(entries, a.batch, a.dispatches, s);
    if i in a.batch {
      var p :| 0 <= p < |a.batch| && a.batch[p] == i;
      assert Due(entries, a.now, s.maxAttempts, a.batch[p]);
      assert Next(entries, a, s)[a.batch[p]] == Dispatched(entries[i], a.dispatches[p], s);
    }
  }

  /**
   A retry that succeeds resolves nothing: over every run an entry is resolved if and only if
   it was itself replayed by hand after it was opened.
   */
  lemma {:induction false} OnlyReplayResolves(actions: seq<Action>, s: Settings, i: nat)
    requires s.maxAttempts >= 1 && Legal(actions, s) && i < |Run(actions, s)|
    ensures Run(actions, s)[i].status == Resolved <==> ReplayedByHand(actions, i, s)
  {
    if actions != [] {
      var init, last := actions[..|actions| - 1], actions[|actions| - 1];
      assert actions == init + [last];
      InvariantHolds(init, s);
      StepResolves(Run(init, s), last, s, i);
      ReplayedByHandStep(init, last, i, s);
      if i < |Run(init, s)| {
        OnlyReplayResolves(init, s, i);
      } else {
        NotOpenYet(init, s, i);
      }
    }
  }

  /** No step replays a row before it is opened. */
  lemma {:induction false} NotOpenYet(actions: seq<Action>, s: Settings, i: nat)
    requires s.maxAttempts >= 1 && Legal(actions, s) && i >= |Run(actions, s)|
    ensures !ReplayedByHand(actions, i, s)
  {
    forall n: nat ensures !ReplaysRow(actions, n, i, s) {
      if n < |actions| {
        NeverActiveAgain(actions, n, s);
      }
    }
  }

  // ---- The remaining budget ---------------------------------------------------------------

  function BudgetOf(e: FailedEvent, s: Settings): int {
    if e.Active() then s.maxAttempts - e.attempts else 0
  }

  /** Automatic dispatches the active entries have left. */
  function Budget(entries: seq<FailedEvent>, s: Settings): int {
    if entries == [] then 0
    else Budget(entries[..|entries| - 1], s) + BudgetOf(entries[|entries| - 1], s)
  }

  lemma {:induction false} BudgetAppend(entries: seq<FailedEvent>, e: FailedEvent, s: Settings)
    ensures Budget(entries + [e], s) == Budget(entries, s) + BudgetOf(e, s)
  {
    assert (entries + [e])[..|entries|] == entries;
  }

  lemma {:induction false} BudgetUpdate(entries: seq<FailedEvent>, i: nat, e: FailedEvent, s: Settings)
    requires i < |entries|
    ensures Budget(entries[i := e], s) == Budget(entries, s) - BudgetOf(entries[i], s) + BudgetOf(e, s)
  {
    var n := |entries| - 1;
    if i < n {
      BudgetUpdate(entries[..n], i, e, s);
      assert entries[i := e][..n] == entries[..n][i := e];
    } else {
      assert entries[i := e][..n] == entries[..n];
    }
  }

  /** Every accepted dispatch of a scan costs exactly one unit of the budget. */
  lemma {:induction false} ScanSpendsBudget(
    entries: seq<FailedEvent>, batch: seq<nat>, dispatches: seq<Dispatch>, s: Settings)
    requires |batch| == |dispatches| && NoRepeats(batch)
    requires forall p :: 0 <= p < |batch| ==>
               batch[p] < |entries| && entries[batch[p]].Active() && entries[batch[p]].attempts < s.maxAttempts
    ensures Budget(Scanned(entries, batch, dispatches, s), s) == Budget(entries, s) - CountSent(dispatches)
  {
    if batch != [] {
      var n := |batch| - 1;
      ScanSpendsBudget(entries, batch[..n], dispatches[..n], s);
      var before := Scanned(entries, batch[..n], dispatches[..n], s);
      ScannedAt(entries, batch[..n], dispatches[..n], s);
      assert batch[n] !in batch[..n];
      BudgetUpdate(before, batch[n], Dispatched(before[batch[n]], dispatches[n], s), s);
    }
  }

  lemma {:induction false} StepSpendsBudget(entries: seq<FailedEvent>, actions: seq<Action>, a: Action, s: Settings)
    requires s.maxAttempts >= 1 && Invariant(entries, actions, s) && Enabled(entries, a, s)
    ensures var now := Next(entries, a, s);
            && (a.Record? ==>
                  Budget(now, s) == Budget(entries, s) + (if |now| > |entries| then s.maxAttempts else 0))
            && (a.Scan? ==> Budget(now, s) == Budget(entries, s) - CountSent(a.dispatches))
            && (a.LostScan? || a.ManualReplay? ==> Budget(now, s) <= Budget(entries, s))
            && |entries| <= |now| <= |entries| + (if a.Record? then 1 else 0)
  {
    match a
    case Record(f) =>
      BudgetAppend(entries, NewEntry(f, s), s);
      var existing := NewestActive(entries, f.source, f.operation, |entries|);
      if existing.Some? {
        BudgetUpdate(entries, existing.value, Refreshed(entries[existing.value], f, s), s);
      }
    case Scan(now, batch, dispatches) =>
      forall p | 0 <= p < |batch|
        ensures batch[p] < |entries| && entries[batch[p]].Active() && entries[batch[p]].attempts < s.maxAttempts
      {
        assert Due(entries, now, s.maxAttempts, batch[p]);
      }
      ScanSpendsBudget(entries, batch, dispatches, s);
    case LostScan(_, _, _) =>
    case ManualReplay(id, fate, now) =>
      var i := Find(entries, id);
      if i.Some? {
        assert EntrySound(entries[i.value], Dispatches(actions, i.value), s);
        BudgetUpdate(entries, i.value, Resolve(entries[i.value], now), s);
      }
  }

  /** Over a run, all automatic dispatches together stay within MAX for each entry ever opened. */
  lemma {:induction false} DispatchesWithinBudget(actions: seq<Action>, s: Settings)
    requires s.maxAttempts >= 1 && Legal(actions, s)
    ensures AllDispatches(actions) + Budget(Run(actions, s), s) <= s.maxAttempts * |Run(actions, s)|
    ensures Budget(Run(actions, s), s) >= 0
  {
    if actions != [] {
      var init, last := actions[..|actions| - 1], actions[|actions| - 1];
      DispatchesWithinBudget(init, s);
      InvariantHolds(init, s);
      StepSpendsBudget(Run(init, s), init, last, s);
      OneMoreRound(s.maxAttempts, |Run(init, s)|);
    }
    BudgetLeft(actions, s);
  }

  lemma {:induction false} BudgetLeft(actions: seq<Action>, s: Settings)
    requires s.maxAttempts >= 1 && Legal(actions, s)
    ensures Budget(Run(actions, s), s) >= 0
  {
    InvariantHolds(actions, s);
    var entries := Run(actions, s);
    forall i | 0 <= i < |entries| && entries[i].Active() ensures entries[i].attempts < s.maxAttempts {
      assert EntrySound(entries[i], Dispatches(actions, i), s);
    }
    BudgetNotNegative(entries, s);
  }

  lemma {:induction false} BudgetNotNegative(entries: seq<FailedEvent>, s: Settings)
    requires forall i :: 0 <= i < |entries| && entries[i].Active() ==> entries[i].attempts < s.maxAttempts
    ensures Budget(entries, s) >= 0
  {
    if entries != [] {
      BudgetNotNegative(entries[..|entries| - 1], s);
    }
  }
}
