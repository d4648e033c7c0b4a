/**
 The dead-letter queue: failed operations are recorded, dispatched again with growing delays,
 and retired when their attempts are spent.
 */
module DeadLetters {
  import opened Basics
  import opened Sequences
  import opened Backoff

  const ERROR_LIMIT := 2000

  datatype Status = Pending | Retrying | Exhausted | Resolved

  datatype FailedEvent = FailedEvent(
    id: Uuid,
    source: string,
    operation: string,
    correlationId: Option<string>,
    payload: string,
    errorText: string,
    status: Status,
    attempts: nat,
    createdAt: Time,
    lastAttemptAt: Option<Time>,
    nextRetryAt: Option<Time>,
    resolvedAt: Option<Time>)
  {
    predicate Active() { status == Pending || status == Retrying }
  }

  // ---- Recording a failure ----------------------------------------------------------------

  datatype Failure = Failure(
    source: string, operation: string, payload: string, errorText: string,
    correlationId: Option<string>, id: Uuid, now: Time)

  predicate ActiveFor(e: FailedEvent, source: string, operation: string) {
    e.source == source && e.operation == operation && e.Active()
  }

  /** The newest active entry of an operation among the first `n`, if any. */
  function NewestActive(entries: seq<FailedEvent>, source: string, operation: string, n: nat): (r: Option<nat>)
    requires n <= |entries|
    ensures r.Some? ==> r.value < n && ActiveFor(entries[r.value], source, operation)
    ensures r.None? ==> forall i :: 0 <= i < n ==> !ActiveFor(entries[i], source, operation)
    ensures r.Some? ==> forall i :: 0 <= i < n && ActiveFor(entries[i], source, operation) ==>
              entries[i].createdAt <= entries[r.value].createdAt
  {
    if n == 0 then None
    else
      var newest := NewestActive(entries, source, operation, n - 1);
      if ActiveFor(entries[n - 1], source, operation) &&
         (newest.None? || entries[n - 1].createdAt > entries[newest.value].createdAt)
      then Some(n - 1)
      else newest
  }

  /** An active entry takes the new payload and error; its attempts and schedule carry on. */
  function Refreshed(e: FailedEvent, f: Failure, s: Settings): FailedEvent {
    e.(errorText := Take(f.errorText, ERROR_LIMIT),
       payload := f.payload,
       correlationId := if f.correlationId.Some? && f.correlationId.value != "" then f.correlationId
                        else e.correlationId,
       nextRetryAt := if e.nextRetryAt.None? then Some(f.now + ComputeBackoff(s, e.attempts))
                      else e.nextRetryAt)
  }

  function NewEntry(f: Failure, s: Settings): FailedEvent {
    FailedEvent(f.id, f.source, f.operation, f.correlationId, f.payload, Take(f.errorText, ERROR_LIMIT),
                Pending, 0, f.now, None, Some(f.now + ComputeBackoff(s, 0)), None)
  }

  function Recorded(entries: seq<FailedEvent>, f: Failure, s: Settings): seq<FailedEvent> {
    var existing := NewestActive(entries, f.source, f.operation, |entries|);
    if existing.Some? then entries[existing.value := Refreshed(entries[existing.value], f, s)]
    else entries + [NewEntry(f, s)]
  }

  /**
   Row `i` takes a failure: the active row of its operation, or a new one if there is none.  It then
   has the failure's payload and at most 2000 characters of its error; a correlation id that is
   missing or empty leaves the one there was; and no other row changes.
   */
  ghost predicate RecordedOn(before: seq<FailedEvent>, now: seq<FailedEvent>, f: Failure, s: Settings, i: nat) {
    && i < |now|
    && (forall j :: 0 <= j < |before| && j != i ==> j < |now| && now[j] == before[j])
    && now[i].source == f.source && now[i].operation == f.operation
    && now[i].payload == f.payload
    && now[i].errorText == (if |f.errorText| <= 2000 then f.errorText else f.errorText[..2000])
    && if i < |before| then
         var e := before[i];
         && |now| == |before|
         && e.source == f.source && e.operation == f.operation && (e.status == Pending || e.status == Retrying)
         && now[i].id == e.id && now[i].status == e.status && now[i].attempts == e.attempts
         && now[i].createdAt == e.createdAt && now[i].lastAttemptAt == e.lastAttemptAt
         && now[i].resolvedAt == e.resolvedAt
         && now[i].correlationId ==
            (if f.correlationId.None? || f.correlationId.value == "" then e.correlationId else f.correlationId)
         && now[i].nextRetryAt ==
            (if e.nextRetryAt.None? then Some(f.now + ComputeBackoff(s, e.attempts)) else e.nextRetryAt)
       else
         && i == |before| && |now| == |before| + 1
         && (forall j :: 0 <= j < |before| && before[j].source == f.source && before[j].operation == f.operation ==>
               before[j].status == Exhausted || before[j].status == Resolved)
         && now[i].id == f.id && now[i].status == Pending && now[i].attempts == 0
         && now[i].createdAt == f.now && now[i].lastAttemptAt == None && now[i].resolvedAt == None
         && now[i].correlationId == f.correlationId
         && now[i].nextRetryAt == Some(f.now + ComputeBackoff(s, 0))
  }

  lemma {:induction false} RecordedIs(entries: seq<FailedEvent>, f: Failure, s: Settings) returns (i: nat)
    ensures RecordedOn(entries, Recorded(entries, f, s), f, s, i)
    ensures forall j: nat :: j < |entries| && ActiveFor(entries[j], f.source, f.operation) ==>
              i < |entries| && entries[j].createdAt <= entries[i].createdAt
  {
    var existing := NewestActive(entries, f.source, f.operation, |entries|);
    i := if existing.Some? then existing.value else |entries|;
  }

  // ---- Automatic retries ------------------------------------------------------------------

  predicate Due(entries: seq<FailedEvent>, now: Time, maxAttempts: nat, i: nat) {
    && i < |entries|
    && entries[i].Active()
    && entries[i].attempts < maxAttempts
    && (entries[i].nextRetryAt.None? || entries[i].nextRetryAt.value <= now)
  }

  /** Ascending, nulls first. */
  predicate NotLater(a: Option<Time>, b: Option<Time>) {
    a.None? || (b.Some? && a.value <= b.value)
  }

  /** `fetch_due_retries`: due entries, longest overdue first, at most `limit`; ties in any order. */
  ghost predicate IsDueBatch(entries: seq<FailedEvent>, now: Time, s: Settings, batch: seq<nat>) {
    && NoRepeats(batch)
    && |batch| <= s.batchSize
    && (forall p :: 0 <= p < |batch| ==> Due(entries, now, s.maxAttempts, batch[p]))
    && (forall p, q :: 0 <= p < q < |batch| ==>
          NotLater(entries[batch[p]].nextRetryAt, entries[batch[q]].nextRetryAt))
    && (forall i: nat :: Due(entries, now, s.maxAttempts, i) && i !in batch ==>
          |batch| == s.batchSize &&
          forall p :: 0 <= p < |batch| ==> NotLater(entries[batch[p]].nextRetryAt, entries[i].nextRetryAt))
  }

  /** Handing an operation to the broker: accepted, with the time read just after, or refused. */
  datatype Dispatch = Sent(at: Time) | BrokerError

  /** `mark_retry_scheduled`. */
  function Scheduled(e: FailedEvent, at: Time, s: Settings): FailedEvent {
    var attempts := e.attempts + 1;
    if attempts >= s.maxAttempts then
      e.(attempts := attempts, lastAttemptAt := Some(at), status := Exhausted, nextRetryAt := None)
    else
      e.(attempts := attempts, lastAttemptAt := Some(at), status := Retrying,
         nextRetryAt := Some(at + ComputeBackoff(s, attempts)))
  }

  function Dispatched(e: FailedEvent, d: Dispatch, s: Settings): FailedEvent {
    match d
    case Sent(at) => Scheduled(e, at, s)
    case BrokerError => e
  }

  function Scanned(entries: seq<FailedEvent>, batch: seq<nat>, dispatches: seq<Dispatch>, s: Settings)
    : (r: seq<FailedEvent>)
    requires |batch| == |dispatches| && forall p :: 0 <= p < |batch| ==> batch[p] < |entries|
    ensures |r| == |entries|
  {
    if batch == [] then entries
    else
      var n := |batch| - 1;
      var before := Scanned(entries, batch[..n], dispatches[..n], s);
      before[batch[n] := Dispatched(before[batch[n]], dispatches[n], s)]
  }

  function CountSent(dispatches: seq<Dispatch>): (n: nat)
    ensures n <= |dispatches|
  {
    if dispatches == [] then 0
    else CountSent(dispatches[..|dispatches| - 1]) + (if dispatches[|dispatches| - 1].Sent? then 1 else 0)
  }

  // ---- Manual replay ----------------------------------------------------------------------

  /** The entry with an id, whatever its status. */
  function Find(entries: seq<FailedEvent>, id: Uuid): (r: Option<nat>)
    ensures r.Some? ==> r.value < |entries| && entries[r.value].id == id
    ensures r.None? ==> forall i :: 0 <= i < |entries| ==> entries[i].id != id
  {
    if entries == [] then None
    else if entries[|entries| - 1].id == id then Some(|entries| - 1)
    else Find(entries[..|entries| - 1], id)
  }

  function Resolve(e: FailedEvent, now: Time): FailedEvent {
    e.(attempts := e.attempts + 1, status := Resolved, nextRetryAt := None, resolvedAt := Some(now))
  }

  /** The broker refuses the task; or it takes it, and then the commit fails or succeeds. */
  datatype ReplayFate = Refused | RolledBack | Committed

  datatype ReplayResult = NotFound | BrokerDown | CommitFailed | Replayed

  function Replay(entries: seq<FailedEvent>, id: Uuid, fate: ReplayFate, now: Time): seq<FailedEvent> {
    match Find(entries, id)
    case None => entries
    case Some(i) => if fate == Committed then entries[i := Resolve(entries[i], now)] else entries
  }

  // ---- The operations ---------------------------------------------------------------------

  class DeadLetterQueue {
    var entries: seq<FailedEvent>
    const settings: Settings

    constructor (settings: Settings)
      ensures entries == [] && this.settings == settings
    {
      entries := [];
      this.settings := settings;
    }

    method RecordFailure(source: string, operation: string, payload: string, errorText: string,
                         correlationId: Option<string>, id: Uuid, now: Time)
      returns (recorded: Uuid)
      modifies this`entries
      ensures entries == Recorded(old(entries),
                                  Failure(source, operation, payload, errorText, correlationId, id, now), settings)
      ensures exists i: nat :: i < |entries| && entries[i].id == recorded &&
                RecordedOn(old(entries), entries,
                           Failure(source, operation, payload, errorText, correlationId, id, now), settings, i)
    {
      ghost var f := Failure(source, operation, payload, errorText, correlationId, id, now);
      var existing := NewestActive(entries, source, operation, |entries|);
      if existing.Some? {
        var i, e := existing.value, entries[existing.value];
        e := e.(errorText := Take(errorText, ERROR_LIMIT), payload := payload);
        if correlationId.Some? && correlationId.value != "" {
          e := e.(correlationId := correlationId);
        }
        if e.nextRetryAt.None? {
          e := e.(nextRetryAt := Some(now + ComputeBackoff(settings, e.attempts)));
        }
        entries := entries[i := e];
        assert RecordedOn(old(entries), entries, f, settings, i);
        return e.id;
      }
      var failed := FailedEvent(
        id, source, operation, correlationId, payload, Take(errorText, ERROR_LIMIT), Pending, 0, now,
        None, Some(now + ComputeBackoff(settings, 0)), None);
      entries := entries + [failed];
      assert RecordedOn(old(entries), entries, f, settings, |old(entries)|);
      return failed.id;
    }

    method MarkRetryScheduled(i: nat, now: Time)
      requires i < |entries|
      modifies this`entries
      ensures entries == old(entries)[i := Scheduled(old(entries)[i], now, settings)]
    {
      var e := entries[i];
      e := e.(attempts := e.attempts + 1, lastAttemptAt := Some(now));
      if e.attempts >= settings.maxAttempts {
        e := e.(status := Exhausted, nextRetryAt := None);
      } else {
        e := e.(status := Retrying, nextRetryAt := Some(now + ComputeBackoff(settings, e.attempts)));
      }
      entries := entries[i := e];
    }

    /** `process_due_retries`: a dispatch that the broker refuses leaves its entry for the next scan. */
    method ProcessDueRetries(now: Time, batch: seq<nat>, dispatches: seq<Dispatch>) returns (dispatched: nat)
      requires IsDueBatch(entries, now, settings, batch) && |dispatches| == |batch|
      modifies this`entries
      ensures entries == Scanned(old(entries), batch, dispatches, settings)
      ensures dispatched == CountSent(dispatches)
    {
      dispatched := 0;
      for p := 0 to |batch|
        invariant entries == Scanned(old(entries), batch[..p], dispatches[..p], settings)
        invariant dispatched == CountSent(dispatches[..p])
      {
        assert batch[..p + 1][..p] == batch[..p] && dispatches[..p + 1][..p] == dispatches[..p];
        match dispatches[p] {
          case BrokerError =>
          case Sent(at) =>
            MarkRetryScheduled(batch[p], at);
            dispatched := dispatched + 1;
        }
      }
      assert batch[..|batch|] == batch && dispatches[..|batch|] == dispatches;
    }

    /** `_retry_failed_events`: a commit that fails takes the schedule back, but not the tasks sent. */
    method RetryFailedEvents(now: Time, batch: seq<nat>, dispatches: seq<Dispatch>, commits: bool)
      returns (dispatched: Option<nat>)
      requires IsDueBatch(entries, now, settings, batch) && |dispatches| == |batch|
      modifies this`entries
      ensures entries == if commits then Scanned(old(entries), batch, dispatches, settings) else old(entries)
      ensures dispatched == if commits then Some(CountSent(dispatches)) else None
    {
      var entriesBefore := entries;
      var n := ProcessDueRetries(now, batch, dispatches);
      if !commits {
        entries := entriesBefore;
        return None;
      }
      return Some(n);
    }

    /** `replay_failed_event`: a broker error surfaces before anything is written. */
    method ReplayFailedEvent(id: Uuid, fate: ReplayFate, now: Time) returns (result: ReplayResult)
      modifies this`entries
      ensures entries == Replay(old(entries), id, fate, now)
      ensures result ==
              if Find(old(entries), id).None? then NotFound
              else match fate case Refused => BrokerDown case RolledBack => CommitFailed case Committed => Replayed
    {
      var entriesBefore := entries;
      var found := Find(entries, id);
      if found.None? {
        return NotFound;
      }
      if fate == Refused {
        return BrokerDown;
      }
      var failed := entries[found.value];
      failed := failed.(attempts := failed.attempts + 1);
      failed := failed.(status := Resolved, nextRetryAt := None, resolvedAt := Some(now));
      entries := entries[found.value := failed];
      if fate == RolledBack {
        entries := entriesBefore;
        return CommitFailed;
      }
      return Replayed;
    }
  }
}
