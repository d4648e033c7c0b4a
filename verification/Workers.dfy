/**
 Many publisher workers at once.  Each holds the rows it locked until it commits; a crash
 drops its uncommitted marks and its locks, but not what it already delivered.
 */
module Workers {
  import opened Basics
  import opened Sequences
  import opened Schema
  import opened Publisher

  type Worker = nat

  /** A transaction in progress: the rows locked, and how the deliveries made so far ended. */
  datatype Held = Held(batch: seq<nat>, outcomes: seq<Outcome>)

  /** Committed rows, open transactions, the index, and the rows it has ever applied. */
  datatype Cluster = Cluster(
    rows: seq<OutboxRow>, held: map<Worker, Held>, index: map<Uuid, Point>, delivered: set<nat>)

  datatype Action =
    | Begin(w: Worker, batch: seq<nat>)
    | Deliver(w: Worker, outcome: Outcome)
    | Commit(w: Worker)
    | Crash(w: Worker)
    | Enqueue(added: seq<OutboxRow>)

  /** Rows that some transaction has locked. */
  ghost function Locked(held: map<Worker, Held>): set<nat> {
    set w, i | w in held && i in held[w].batch :: i
  }

  ghost predicate Enabled(c: Cluster, a: Action, l: Limits) {
    match a
    case Begin(w, batch) => w !in c.held && IsBatch(c.rows, Locked(c.held), l.batchSize, batch)
    case Deliver(w, _) =>
      w in c.held && |c.held[w].outcomes| < |c.held[w].batch| &&
      c.held[w].batch[|c.held[w].outcomes|] < |c.rows|
    case Commit(w) =>
      w in c.held && |c.held[w].outcomes| == |c.held[w].batch| &&
      forall p :: 0 <= p < |c.held[w].batch| ==> c.held[w].batch[p] < |c.rows|
    case Crash(w) => w in c.held
    case Enqueue(added) =>
      forall i :: 0 <= i < |added| ==> added[i].status == Pending && added[i].attempts == 0
  }

  ghost function Next(c: Cluster, a: Action, l: Limits): Cluster
    requires Enabled(c, a, l)
  {
    match a
    case Begin(w, batch) => c.(held := c.held[w := Held(batch, [])])
    case Deliver(w, outcome) =>
      var h := c.held[w];
      var i := h.batch[|h.outcomes|];
      c.(held := c.held[w := h.(outcomes := h.outcomes + [outcome])],
         index := Indexed(c.index, c.rows[i].change, outcome),
         delivered := if Applied(outcome) then c.delivered + {i} else c.delivered)
    case Commit(w) =>
      c.(rows := Processed(c.rows, c.held[w].batch, c.held[w].outcomes, l.maxAttempts),
         held := c.held - {w})
    case Crash(w) => c.(held := c.held - {w})
    case Enqueue(added) => c.(rows := c.rows + added)
  }

  // ---- What every step keeps --------------------------------------------------------------

  /** A transaction holds pending rows, and what it delivered is on record. */
  ghost predicate HoldsPending(c: Cluster, h: Held) {
    && NoRepeats(h.batch)
    && |h.outcomes| <= |h.batch|
    && (forall p :: 0 <= p < |h.batch| ==> h.batch[p] < |c.rows| && c.rows[h.batch[p]].status == Pending)
    && (forall p :: 0 <= p < |h.outcomes| && Applied(h.outcomes[p]) ==> h.batch[p] in c.delivered)
  }

  /** No row is held by two transactions. */
  ghost predicate Disjoint(held: map<Worker, Held>) {
    forall v, w, p, q :: v in held && w in held && v != w &&
                         0 <= p < |held[v].batch| && 0 <= q < |held[w].batch| ==>
      held[v].batch[p] != held[w].batch[q]
  }

  /** What a row's status says about its attempts and its delivery. */
  ghost predicate RowSound(c: Cluster, i: nat, l: Limits)
    requires i < |c.rows|
  {
    var row := c.rows[i];
    match row.status
    case Pending => row.attempts < l.maxAttempts
    case Dead => row.attempts == l.maxAttempts
    case Published => 1 <= row.attempts <= l.maxAttempts && i in c.delivered
  }

  /** Every point of the index came from a row that was delivered. */
  ghost predicate FromRow(c: Cluster, id: Uuid, i: nat)
    requires id in c.index
  {
    i < |c.rows| && i in c.delivered && c.rows[i].change.eventId == id && c.index[id] == PointOf(c.rows[i].change)
  }

  ghost predicate Inv(c: Cluster, l: Limits) {
    && (forall w :: w in c.held ==> HoldsPending(c, c.held[w]))
    && Disjoint(c.held)
    && (forall i :: 0 <= i < |c.rows| ==> RowSound(c, i, l))
    && (forall id :: id in c.index ==> exists i :: FromRow(c, id, i))
  }

  /** No row is lost or rewritten, and published and dead rows never change again. */
  ghost predicate Evolves(c: Cluster, d: Cluster) {
    && |c.rows| <= |d.rows|
    && c.delivered <= d.delivered
    && forall i :: 0 <= i < |c.rows| ==>
         && d.rows[i].pos == c.rows[i].pos
         && d.rows[i].change == c.rows[i].change
         && (c.rows[i].status != Pending ==> d.rows[i] == c.rows[i])
  }

  lemma {:induction false} BeginKeeps(c: Cluster, w: Worker, batch: seq<nat>, l: Limits)
    requires Inv(c, l) && Enabled(c, Begin(w, batch), l)
    ensures Inv(Next(c, Begin(w, batch), l), l) && Evolves(c, Next(c, Begin(w, batch), l))
  {
    var d := Next(c, Begin(w, batch), l);
    forall p | 0 <= p < |batch|
      ensures batch[p] < |c.rows| && c.rows[batch[p]].status == Pending && batch[p] !in Locked(c.held)
    {
      assert Eligible(c.rows, Locked(c.held), batch[p]);
    }
    forall v, p | v in c.held && 0 <= p < |c.held[v].batch| ensures c.held[v].batch[p] in Locked(c.held) {
      assert c.held[v].batch[p] in c.held[v].batch;
    }
    forall v | v in d.held ensures HoldsPending(d, d.held[v]) {
      if v != w { assert HoldsPending(c, c.held[v]); }
    }
    SamePoints(c, d);
    SameRows(c, d, l);
  }

  /** A step that leaves index and rows alone keeps what is said of them. */
  lemma {:induction false} SamePoints(c: Cluster, d: Cluster)
    requires d.index == c.index && Evolves(c, d)
    requires forall id :: id in c.index ==> exists i :: FromRow(c, id, i)
    ensures forall id :: id in d.index ==> exists i :: FromRow(d, id, i)
  {
    forall id | id in d.index ensures exists i :: FromRow(d, id, i) {
      var i :| FromRow(c, id, i);
      assert FromRow(d, id, i);
    }
  }

  lemma {:induction false} SameRows(c: Cluster, d: Cluster, l: Limits)
    requires d.rows == c.rows && c.delivered <= d.delivered
    requires forall i :: 0 <= i < |c.rows| ==> RowSound(c, i, l)
    ensures forall i :: 0 <= i < |d.rows| ==> RowSound(d, i, l)
  {
    forall i | 0 <= i < |d.rows| ensures RowSound(d, i, l) {
      assert RowSound(c, i, l);
    }
  }

  lemma {:induction false} DeliverKeepsHolds(c: Cluster, w: Worker, outcome: Outcome, l: Limits)
    requires Inv(c, l) && Enabled(c, Deliver(w, outcome), l)
    ensures var d := Next(c, Deliver(w, outcome), l);
            (forall v :: v in d.held ==> HoldsPending(d, d.held[v])) && Disjoint(d.held)
  {
    var d := Next(c, Deliver(w, outcome), l);
    forall v | v in d.held ensures HoldsPending(d, d.held[v]) && d.held[v].batch == c.held[v].batch {
      assert HoldsPending(c, c.held[v]);
    }
  }

  lemma {:induction false} DeliverKeepsPoints(c: Cluster, w: Worker, outcome: Outcome, l: Limits)
    requires Inv(c, l) && Enabled(c, Deliver(w, outcome), l)
    ensures var d := Next(c, Deliver(w, outcome), l);
            forall id :: id in d.index ==> exists i :: FromRow(d, id, i)
  {
    var d, h := Next(c, Deliver(w, outcome), l), c.held[w];
    var i := h.batch[|h.outcomes|];
    forall id | id in d.index ensures exists j :: FromRow(d, id, j) {
      if Applied(outcome) && id == c.rows[i].change.eventId {
        assert FromRow(d, id, i);
      } else {
        var j :| FromRow(c, id, j);
        assert FromRow(d, id, j);
      }
    }
  }

  lemma {:induction false} DeliverKeeps(c: Cluster, w: Worker, outcome: Outcome, l: Limits)
    requires Inv(c, l) && Enabled(c, Deliver(w, outcome), l)
    ensures Inv(Next(c, Deliver(w, outcome), l), l) && Evolves(c, Next(c, Deliver(w, outcome), l))
  {
    DeliverKeepsHolds(c, w, outcome, l);
    DeliverKeepsPoints(c, w, outcome, l);
    SameRows(c, Next(c, Deliver(w, outcome), l), l);
  }

  /** Commit marks exactly the rows held, each by its own outcome. */
  lemma {:induction false} CommitMarks(c: Cluster, w: Worker, l: Limits)
    requires Inv(c, l) && Enabled(c, Commit(w), l) && l.maxAttempts >= 1
    ensures Evolves(c, Next(c, Commit(w), l))
    ensures forall i :: 0 <= i < |c.rows| ==> RowSound(Next(c, Commit(w), l), i, l)
    ensures forall i :: 0 <= i < |c.rows| && i !in c.held[w].batch ==> Next(c, Commit(w), l).rows[i] == c.rows[i]
  {
    var d, h := Next(c, Commit(w), l), c.held[w];
    assert HoldsPending(c, h);
    ProcessedAt(c.rows, h.batch, h.outcomes, l.maxAttempts);
    ProcessedKeepsChanges(c.rows, h.batch, h.outcomes, l.maxAttempts);
    forall i | 0 <= i < |c.rows|
      ensures RowSound(d, i, l) && (c.rows[i].status != Pending ==> d.rows[i] == c.rows[i])
    {
      assert RowSound(c, i, l);
      if i in h.batch {
        var p :| 0 <= p < |h.batch| && h.batch[p] == i;
        assert d.rows[h.batch[p]] == Marked(c.rows[i], h.outcomes[p], l.maxAttempts);
        assert h.outcomes[p].Acked? ==> i in c.delivered;
      }
    }
  }

  lemma {:induction false} CommitKeeps(c: Cluster, w: Worker, l: Limits)
    requires Inv(c, l) && Enabled(c, Commit(w), l) && l.maxAttempts >= 1
    ensures Inv(Next(c, Commit(w), l), l) && Evolves(c, Next(c, Commit(w), l))
  {
    var d := Next(c, Commit(w), l);
    CommitMarks(c, w, l);
    SamePoints(c, d);
    forall v | v in d.held ensures HoldsPending(d, d.held[v]) {
      assert HoldsPending(c, c.held[v]);
      forall p | 0 <= p < |d.held[v].batch| ensures d.held[v].batch[p] !in c.held[w].batch {
        assert forall q :: 0 <= q < |c.held[w].batch| ==> c.held[v].batch[p] != c.held[w].batch[q];
      }
    }
  }

  lemma {:induction false} EnqueueKeeps(c: Cluster, added: seq<OutboxRow>, l: Limits)
    requires Inv(c, l) && Enabled(c, Enqueue(added), l) && l.maxAttempts >= 1
    ensures Inv(Next(c, Enqueue(added), l), l) && Evolves(c, Next(c, Enqueue(added), l))
  {
    var d := Next(c, Enqueue(added), l);
    forall i | 0 <= i < |d.rows| ensures RowSound(d, i, l) {
      if i < |c.rows| { assert RowSound(c, i, l); } else { assert d.rows[i] == added[i - |c.rows|]; }
    }
    SamePoints(c, d);
    forall v | v in d.held ensures HoldsPending(d, d.held[v]) {
      assert HoldsPending(c, c.held[v]);
    }
  }

  lemma {:induction false} CrashKeeps(c: Cluster, w: Worker, l: Limits)
    requires Inv(c, l) && Enabled(c, Crash(w), l)
    ensures Inv(Next(c, Crash(w), l), l) && Evolves(c, Next(c, Crash(w), l))
  {
    var d := Next(c, Crash(w), l);
    forall v | v in d.held ensures HoldsPending(d, d.held[v]) {
      assert HoldsPending(c, c.held[v]);
    }
    SameRows(c, d, l);
    SamePoints(c, d);
  }

  // ---- Runs -------------------------------------------------------------------------------

  ghost predicate Legal(c: Cluster, actions: seq<Action>, l: Limits)
    decreases |actions|
  {
    actions != [] ==> Enabled(c, actions[0], l) && Legal(Next(c, actions[0], l), actions[1..], l)
  }

  ghost function Run(c: Cluster, actions: seq<Action>, l: Limits): Cluster
    requires Legal(c, actions, l)
    decreases |actions|
  {
    if actions == [] then c else Run(Next(c, actions[0], l), actions[1..], l)
  }

  const EMPTY := Cluster([], map[], map[], {})

  lemma {:induction false} EmptySound(l: Limits)
    ensures Inv(EMPTY, l)
  {
  }

  /**
   Over any run of any number of workers, with any deliveries and crashes: held batches are
   disjoint, statuses agree with attempts, a published row was delivered, no row is lost, and
   published and dead rows never change again.
   */
  lemma {:induction false} ProtocolSafe(c: Cluster, actions: seq<Action>, l: Limits)
    requires Inv(c, l) && l.maxAttempts >= 1 && Legal(c, actions, l)
    ensures Inv(Run(c, actions, l), l) && Evolves(c, Run(c, actions, l))
    decreases |actions|
  {
    if actions != [] {
      match actions[0] {
        case Begin(w, batch) => BeginKeeps(c, w, batch, l);
        case Deliver(w, outcome) => DeliverKeeps(c, w, outcome, l);
        case Commit(w) => CommitKeeps(c, w, l);
        case Crash(w) => CrashKeeps(c, w, l);
        case Enqueue(added) => EnqueueKeeps(c, added, l);
      }
      ProtocolSafe(Next(c, actions[0], l), actions[1..], l);
    }
  }
}
