/** What an outbox row says about its deliveries, column by column, in any run of any workers. */
module DeliveryLog {
  import opened Basics
  import opened Sequences
  import opened Schema
  import opened Publisher
  import opened Workers

  // ---- How the deliveries of a row ended --------------------------------------------------

  /** How a transaction's delivery of row `i` ended, if it holds that row. */
  function EndOf(batch: seq<nat>, outcomes: seq<Outcome>, i: nat): seq<Outcome>
    requires |batch| == |outcomes|
  {
    if batch == [] then []
    else
      var n := |batch| - 1;
      if batch[n] == i then [outcomes[n]] else EndOf(batch[..n], outcomes[..n], i)
  }

  /** The committed deliveries of row `i` in one step: none, or one. */
  ghost function LogStep(c: Cluster, a: Action, l: Limits, i: nat): seq<Outcome>
    requires Enabled(c, a, l)
  {
    if a.Commit? then EndOf(c.held[a.w].batch, c.held[a.w].outcomes, i) else []
  }

  /** The committed deliveries of row `i` over a run, in order. */
  ghost function Log(c: Cluster, actions: seq<Action>, l: Limits, i: nat): seq<Outcome>
    requires Legal(c, actions, l)
    decreases |actions|
  {
    if actions == [] then []
    else LogStep(c, actions[0], l, i) + Log(Next(c, actions[0], l), actions[1..], l, i)
  }

  /** The error text after some deliveries: that of the last failure, at most 1000 characters of it. */
  function ErrorAfter(log: seq<Outcome>, start: Option<string>): Option<string> {
    if log == [] then start
    else
      match log[|log| - 1]
      case Acked(_) => ErrorAfter(log[..|log| - 1], start)
      case Unacked(_, error) => Some(if |error| <= 1000 then error else error[..1000])
  }

  /** What the columns say after these deliveries. */
  ghost predicate Says(before: OutboxRow, now: OutboxRow, log: seq<Outcome>, max: nat) {
    && now.pos == before.pos && now.change == before.change
    && now.attempts == before.attempts + |log|
    && now.lastError == ErrorAfter(log, before.lastError)
    && (forall j :: 0 <= j < |log| - 1 ==> log[j].Unacked?)
    && if log == [] then now.status == before.status && now.publishedAt == before.publishedAt
       else
         match log[|log| - 1]
         case Acked(at) => now.status == Published && now.publishedAt == Some(at)
         case Unacked(_, _) =>
           && now.publishedAt == before.publishedAt
           && now.status == if now.attempts >= max then Dead else Pending
  }

  lemma {:induction false} ErrorAfterConcat(a: seq<Outcome>, b: seq<Outcome>, start: Option<string>)
    ensures ErrorAfter(a + b, start) == ErrorAfter(b, ErrorAfter(a, start))
    decreases |b|
  {
    if b == [] {
      assert a + b == a;
    } else {
      assert (a + b)[..|a + b| - 1] == a + b[..|b| - 1];
      ErrorAfterConcat(a, b[..|b| - 1], start);
    }
  }

  /** One delivery, then the rest. */
  lemma {:induction false} SaysOn(
    a: OutboxRow, b: OutboxRow, d: OutboxRow, first: seq<Outcome>, rest: seq<Outcome>, max: nat)
    requires |first| <= 1 && Says(a, b, first, max) && Says(b, d, rest, max)
    requires b.status != Pending ==> rest == []
    ensures Says(a, d, first + rest, max)
  {
    ErrorAfterConcat(first, rest, a.lastError);
    if rest == [] {
      assert first + rest == first;
    } else {
      assert (first + rest)[|first + rest| - 1] == rest[|rest| - 1];
    }
  }

  // ---- One step ---------------------------------------------------------------------------

  lemma {:induction false} EndOfOther(batch: seq<nat>, outcomes: seq<Outcome>, i: nat)
    requires |batch| == |outcomes| && i !in batch
    ensures EndOf(batch, outcomes, i) == []
  {
    if batch != [] {
      EndOfOther(batch[..|batch| - 1], outcomes[..|batch| - 1], i);
    }
  }

  lemma {:induction false} EndOfOwn(batch: seq<nat>, outcomes: seq<Outcome>, p: nat)
    requires |batch| == |outcomes| && NoRepeats(batch) && p < |batch|
    ensures EndOf(batch, outcomes, batch[p]) == [outcomes[p]]
  {
    var n := |batch| - 1;
    if p < n {
      EndOfOwn(batch[..n], outcomes[..n], p);
    }
  }

  lemma {:induction false} MarkedSays(row: OutboxRow, o: Outcome, max: nat)
    requires row.status == Pending
    ensures Says(row, Marked(row, o, max), [o], max)
  {
    assert [o][..0] == [];
  }

  lemma {:induction false} CommitSays(c: Cluster, w: Worker, l: Limits, i: nat)
    requires Inv(c, l) && Enabled(c, Commit(w), l) && i < |c.rows|
    ensures var log := LogStep(c, Commit(w), l, i);
            && |log| <= 1 && (c.rows[i].status != Pending ==> log == [])
            && i < |Next(c, Commit(w), l).rows|
            && Says(c.rows[i], Next(c, Commit(w), l).rows[i], log, l.maxAttempts)
  {
    var h := c.held[w];
    assert HoldsPending(c, h);
    ProcessedAt(c.rows, h.batch, h.outcomes, l.maxAttempts);
    if i in h.batch {
      var p: nat :| p < |h.batch| && h.batch[p] == i;
      EndOfOwn(h.batch, h.outcomes, p);
      assert Next(c, Commit(w), l).rows[h.batch[p]] == Marked(c.rows[i], h.outcomes[p], l.maxAttempts);
      MarkedSays(c.rows[i], h.outcomes[p], l.maxAttempts);
    } else {
      EndOfOther(h.batch, h.outcomes, i);
    }
  }

  lemma {:induction false} StepSays(c: Cluster, a: Action, l: Limits, i: nat)
    requires Inv(c, l) && Enabled(c, a, l) && i < |c.rows|
    ensures var log := LogStep(c, a, l, i);
            && |log| <= 1 && (c.rows[i].status != Pending ==> log == [])
            && i < |Next(c, a, l).rows|
            && Says(c.rows[i], Next(c, a, l).rows[i], log, l.maxAttempts)
  {
    if a.Commit? {
      CommitSays(c, a.w, l, i);
    }
  }

  // ---- Runs -------------------------------------------------------------------------------

  /**
   Over any run of any workers, with crashes: a row counts its committed deliveries, keeps the error
   of the last one that failed, is published with the time of the one that succeeded, if any, which
   is then the last; and is dead exactly when the last one failed and MAX were made.
   */
  lemma {:induction false} RowSaysDeliveries(c: Cluster, actions: seq<Action>, l: Limits, i: nat)
    requires Inv(c, l) && l.maxAttempts >= 1 && Legal(c, actions, l) && i < |c.rows|
    ensures i < |Run(c, actions, l).rows|
    ensures c.rows[i].status != Pending ==> Log(c, actions, l, i) == []
    ensures Says(c.rows[i], Run(c, actions, l).rows[i], Log(c, actions, l, i), l.maxAttempts)
    decreases |actions|
  {
    if actions != [] {
      var a, rest := actions[0], actions[1..];
      var next := Next(c, a, l);
      StepSays(c, a, l, i);
      OneStep(c, a, l);
      ProtocolSafe(c, [a], l);
      RowSaysDeliveries(next, rest, l, i);
      SaysOn(c.rows[i], next.rows[i], Run(next, rest, l).rows[i],
             LogStep(c, a, l, i), Log(next, rest, l, i), l.maxAttempts);
    }
  }

  lemma {:induction false} OneStep(c: Cluster, a: Action, l: Limits)
    requires Enabled(c, a, l)
    ensures Legal(c, [a], l) && Run(c, [a], l) == Next(c, a, l)
  {
    assert [a][1..] == [];
  }
}
