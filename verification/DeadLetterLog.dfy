/** What a dead letter says about its past, column by column, after any run. */
module DeadLetterLog {
  import opened Basics
  import opened Sequences
  import opened Backoff
  import opened DeadLetters
  import opened DeadLetterRuns

  /**
   What happened to an entry: the first and the last failure recorded on it, the last correlation id
   that was not empty (or the first of all), its committed dispatches and manual replays, and when the
   last of each was.
   */
  datatype Past = Past(
    first: Failure, last: Failure, correlationId: Option<string>,
    dispatches: nat, dispatchedAt: Option<Time>, replays: nat, replayedAt: Option<Time>)

  /** When a committed scan dispatched row `i`, if it did. */
  function SentAt(batch: seq<nat>, dispatches: seq<Dispatch>, i: nat): Option<Time>
    requires |batch| == |dispatches|
  {
    if batch == [] then None
    else
      var n := |batch| - 1;
      if batch[n] == i && dispatches[n].Sent? then Some(dispatches[n].at) else SentAt(batch[..n], dispatches[..n], i)
  }

  /** The failure concerns row `i`: an active entry of its operation, or a new one if there is none. */
  ghost predicate Concerns(entries: seq<FailedEvent>, f: Failure, i: nat) {
    if i < |entries| then
      && entries[i].source == f.source && entries[i].operation == f.operation
      && (entries[i].status == Pending || entries[i].status == Retrying)
    else
      && i == |entries|
      && forall j :: 0 <= j < |entries| && entries[j].source == f.source && entries[j].operation == f.operation ==>
           entries[j].status == Exhausted || entries[j].status == Resolved
  }

  ghost function PastStep(past: Option<Past>, entries: seq<FailedEvent>, a: Action, i: nat, s: Settings): Option<Past>
    requires Enabled(entries, a, s)
  {
    match a
    case Record(f) =>
      if !Concerns(entries, f, i) then past
      else if past.None? then Some(Past(f, f, f.correlationId, 0, None, 0, None))
      else
        Some(past.value.(
          last := f,
          correlationId :=
            if f.correlationId.None? || f.correlationId.value == "" then past.value.correlationId
            else f.correlationId))
    case Scan(_, batch, dispatches) =>
      var at := SentAt(batch, dispatches, i);
      if past.None? || at.None? then past
      else Some(past.value.(dispatches := past.value.dispatches + 1, dispatchedAt := at))
    case LostScan(_, _, _) => past
    case ManualReplay(id, fate, now) =>
      if past.Some? && i < |entries| && entries[i].id == id && fate == Committed
      then Some(past.value.(replays := past.value.replays + 1, replayedAt := Some(now)))
      else past
  }

  ghost function PastOf(actions: seq<Action>, i: nat, s: Settings): Option<Past>
    requires Legal(actions, s)
  {
    if actions == [] then None
    else
      var init := actions[..|actions| - 1];
      PastStep(PastOf(init, i, s), Run(init, s), actions[|actions| - 1], i, s)
  }

  /** What the columns then say. */
  ghost predicate Says(e: FailedEvent, p: Past) {
    && e.id == p.first.id && e.createdAt == p.first.now
    && e.source == p.last.source && e.operation == p.last.operation
    && e.payload == p.last.payload
    && e.errorText == (if |p.last.errorText| <= 2000 then p.last.errorText else p.last.errorText[..2000])
    && e.correlationId == p.correlationId
    && e.attempts == p.dispatches + p.replays
    && e.lastAttemptAt == p.dispatchedAt
    && e.resolvedAt == p.replayedAt
    && (e.status == Resolved <==> p.replays > 0)
  }

  /** Row `i` has a past exactly when it is there, and says what it was. */
  ghost predicate RowSays(entries: seq<FailedEvent>, i: nat, past: Option<Past>) {
    (past.Some? <==> i < |entries|) && (past.Some? ==> Says(entries[i], past.value))
  }

  // ---- One step ---------------------------------------------------------------------------

  lemma {:induction false} RecordSays(
    entries: seq<FailedEvent>, f: Failure, s: Settings, i: nat, past: Option<Past>)
    requires OneActive(entries) && Enabled(entries, Record(f), s) && RowSays(entries, i, past)
    ensures RowSays(Recorded(entries, f, s), i, PastStep(past, entries, Record(f), i, s))
  {
    var k := RecordedIs(entries, f, s);
    if i < |entries| && k < |entries| && i != k {
      assert i < k || k < i;
    }
  }

  lemma {:induction false} SentAtIs(batch: seq<nat>, dispatches: seq<Dispatch>, i: nat)
    requires |batch| == |dispatches| && NoRepeats(batch)
    ensures i !in batch ==> SentAt(batch, dispatches, i) == None
    ensures forall p :: 0 <= p < |batch| && batch[p] == i ==>
              SentAt(batch, dispatches, i) == if dispatches[p].Sent? then Some(dispatches[p].at) else None
  {
    if batch != [] {
      var n := |batch| - 1;
      SentAtIs(batch[..n], dispatches[..n], i);
      assert batch == batch[..n] + [batch[n]];
    }
  }

  lemma {:induction false} DispatchSays(e: FailedEvent, at: Time, s: Settings, past: Past)
    requires e.Active() && Says(e, past)
    ensures Says(Scheduled(e, at, s), past.(dispatches := past.dispatches + 1, dispatchedAt := Some(at)))
  {
  }

  /** What a scan does to one row, and when. */
  lemma {:induction false} ScanAt(entries: seq<FailedEvent>, a: Action, s: Settings, i: nat)
    requires a.Scan? && Enabled(entries, a, s)
    ensures |Next(entries, a, s)| == |entries|
    ensures var at := SentAt(a.batch, a.dispatches, i);
            i < |entries| ==>
              && (at.None? ==> Next(entries, a, s)[i] == entries[i])
              && (at.Some? ==> entries[i].Active() && Next(entries, a, s)[i] == Scheduled(entries[i], at.value, s))
  {
    DueInTable(entries, a.now, s, a.batch);
    ScannedAt(entries, a.batch, a.dispatches, s);
    SentAtIs(a.batch, a.dispatches, i);
    if i in a.batch {
      var p :| 0 <= p < |a.batch| && a.batch[p] == i;
      assert Due(entries, a.now, s.maxAttempts, a.batch[p]);
      assert Next(entries, a, s)[a.batch[p]] == Dispatched(entries[i], a.dispatches[p], s);
    }
  }

  lemma {:induction false} ScanSays(
    entries: seq<FailedEvent>, a: Action, s: Settings, i: nat, past: Option<Past>)
    requires a.Scan? && Enabled(entries, a, s) && RowSays(entries, i, past)
    ensures RowSays(Next(entries, a, s), i, PastStep(past, entries, a, i, s))
  {
    var at := SentAt(a.batch, a.dispatches, i);
    ScanAt(entries, a, s, i);
    if i < |entries| && at.Some? {
      DispatchSays(entries[i], at.value, s, past.value);
    }
  }

  lemma {:induction false} ReplaySays(
    entries: seq<FailedEvent>, a: Action, s: Settings, i: nat, past: Option<Past>)
    requires DistinctIds(entries) && a.ManualReplay? && RowSays(entries, i, past)
    ensures RowSays(Next(entries, a, s), i, PastStep(past, entries, a, i, s))
  {
    var found := Find(entries, a.id);
    if found.Some? && i < |entries| && i != found.value {
      assert entries[i].id != entries[found.value].id;
    }
  }

  lemma {:induction false} StepSays(
    entries: seq<FailedEvent>, a: Action, s: Settings, i: nat, past: Option<Past>)
    requires OneActive(entries) && DistinctIds(entries) && Enabled(entries, a, s) && RowSays(entries, i, past)
    ensures RowSays(Next(entries, a, s), i, PastStep(past, entries, a, i, s))
  {
    match a
    case Record(f) => RecordSays(entries, f, s, i, past);
    case Scan(_, _, _) => ScanSays(entries, a, s, i, past);
    case LostScan(_, _, _) =>
    case ManualReplay(_, _, _) => ReplaySays(entries, a, s, i, past);
  }

  // ---- Runs -------------------------------------------------------------------------------

  /**
   Over every run, through scans, lost scans and replays: an entry has the payload and the error of the
   last failure recorded on it, the id and time of the first, an attempt for each committed dispatch and
   replay, and the times of the last of each.
   */
  lemma {:induction false} EntrySaysPast(actions: seq<Action>, s: Settings, i: nat)
    requires s.maxAttempts >= 1 && Legal(actions, s)
    ensures RowSays(Run(actions, s), i, PastOf(actions, i, s))
  {
    if actions != [] {
      var init, last := actions[..|actions| - 1], actions[|actions| - 1];
      EntrySaysPast(init, s, i);
      InvariantHolds(init, s);
      StepSays(Run(init, s), last, s, i, PastOf(init, i, s));
    }
  }

  /** The dispatches in its past are those that the attempt limit counts. */
  lemma {:induction false} PastDispatches(actions: seq<Action>, s: Settings, i: nat)
    requires s.maxAttempts >= 1 && Legal(actions, s) && i < |Run(actions, s)|
    ensures PastOf(actions, i, s).Some? && PastOf(actions, i, s).value.dispatches == Dispatches(actions, i)
  {
    EntrySaysPast(actions, s, i);
    var init, last := actions[..|actions| - 1], actions[|actions| - 1];
    assert actions == init + [last];
    EntrySaysPast(init, s, i);
    InvariantHolds(init, s);
    if last.Scan? {
      SentAtIs(last.batch, last.dispatches, i);
      SentToAt(last.batch, last.dispatches, i);
    }
    if i < |Run(init, s)| {
      PastDispatches(init, s, i);
    }
  }
}
