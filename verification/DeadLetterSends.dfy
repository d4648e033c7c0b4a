/**
 Every task that automatic retries send, not only the dispatches that are counted: a scan that is
 rolled back has sent its tasks all the same.
 */
module DeadLetterSends {
  import opened Arithmetic
  import opened Basics
  import opened Backoff
  import opened DeadLetters
  import opened DeadLetterRuns

  // ---- One entry --------------------------------------------------------------------------

  /** Tasks that a lost scan sent for row `i`. */
  function LostIn(a: Action, i: nat): nat {
    if a.LostScan? && |a.dispatches| <= |a.batch| then SentTo(a.batch[..|a.dispatches|], a.dispatches, i) else 0
  }

  /** Tasks that any scan sent for row `i`. */
  function SentIn(a: Action, i: nat): nat {
    if a.Scan? && |a.dispatches| == |a.batch| then SentTo(a.batch, a.dispatches, i) else LostIn(a, i)
  }

  function Sends(actions: seq<Action>, i: nat): nat {
    if actions == [] then 0
    else Sends(actions[..|actions| - 1], i) + SentIn(actions[|actions| - 1], i)
  }

  function LostSends(actions: seq<Action>, i: nat): nat {
    if actions == [] then 0
    else LostSends(actions[..|actions| - 1], i) + LostIn(actions[|actions| - 1], i)
  }

  function LostScans(actions: seq<Action>): nat {
    if actions == [] then 0
    else LostScans(actions[..|actions| - 1]) + (if actions[|actions| - 1].LostScan? then 1 else 0)
  }

  lemma {:induction false} SendsSplit(actions: seq<Action>, i: nat)
    ensures Sends(actions, i) == Dispatches(actions, i) + LostSends(actions, i)
  {
    if actions != [] {
      SendsSplit(actions[..|actions| - 1], i);
    }
  }

  /** A scan sends an entry's task at most once. */
  lemma {:induction false} LostOnce(entries: seq<FailedEvent>, a: Action, s: Settings, i: nat)
    requires Enabled(entries, a, s)
    ensures LostIn(a, i) <= if a.LostScan? then 1 else 0
  {
    if a.LostScan? {
      var made := a.batch[..|a.dispatches|];
      SentToAt(made, a.dispatches, i);
      if i in made {
        var p :| 0 <= p < |made| && made[p] == i;
      }
    }
  }

  /**
   Over every run, an entry's task is sent at most MAX times by scans that commit, and at most
   once by each scan that does not.
   */
  lemma {:induction false} SendsPerEntry(actions: seq<Action>, s: Settings, i: nat)
    requires s.maxAttempts >= 1 && Legal(actions, s)
    ensures Dispatches(actions, i) <= s.maxAttempts
    ensures Sends(actions, i) == Dispatches(actions, i) + LostSends(actions, i)
    ensures LostSends(actions, i) <= LostScans(actions)
  {
    InvariantHolds(actions, s);
    if i < |Run(actions, s)| {
      assert EntrySound(Run(actions, s)[i], Dispatches(actions, i), s);
    }
    SendsSplit(actions, i);
    if actions != [] {
      var init, last := actions[..|actions| - 1], actions[|actions| - 1];
      SendsPerEntry(init, s, i);
      LostOnce(Run(init, s), last, s, i);
    }
  }

  // ---- All entries ------------------------------------------------------------------------

  function AllSends(actions: seq<Action>): nat {
    if actions == [] then 0
    else
      var last := actions[|actions| - 1];
      AllSends(actions[..|actions| - 1]) + (if last.Scan? || last.LostScan? then CountSent(last.dispatches) else 0)
  }

  function AllLostSends(actions: seq<Action>): nat {
    if actions == [] then 0
    else
      var last := actions[|actions| - 1];
      AllLostSends(actions[..|actions| - 1]) + (if last.LostScan? then CountSent(last.dispatches) else 0)
  }

  lemma {:induction false} AllSendsSplit(actions: seq<Action>)
    ensures AllSends(actions) == AllDispatches(actions) + AllLostSends(actions)
  {
    if actions != [] {
      AllSendsSplit(actions[..|actions| - 1]);
    }
  }

  lemma {:induction false} LostBatches(actions: seq<Action>, s: Settings)
    requires Legal(actions, s)
    ensures AllLostSends(actions) <= s.batchSize * LostScans(actions)
  {
    if actions != [] {
      var init := actions[..|actions| - 1];
      LostBatches(init, s);
      OneMoreRound(s.batchSize, LostScans(init));
    }
  }

  /**
   Over every run, all tasks sent by automatic retries are the counted dispatches, which stay
   within MAX for each entry opened, and those of lost scans, at most a batch each.
   */
  lemma {:induction false} SendsWithinBudget(actions: seq<Action>, s: Settings)
    requires s.maxAttempts >= 1 && Legal(actions, s)
    ensures AllSends(actions) == AllDispatches(actions) + AllLostSends(actions)
    ensures AllSends(actions) <= s.maxAttempts * |Run(actions, s)| + s.batchSize * LostScans(actions)
  {
    AllSendsSplit(actions);
    DispatchesWithinBudget(actions, s);
    LostBatches(actions, s);
  }

  // ---- Two runs ---------------------------------------------------------------------------

  function Attempts(max: nat): Settings {
    Settings(60, 3600, max, 1)
  }

  const FAILURE := Failure("jira", "jira_poll", "", "", None, 7, 0)

  const SCAN := Scan(60, [0], [Sent(60)])

  const LOST_SCAN := LostScan(60, [0], [Sent(60)])

  function Opened(max: nat): FailedEvent {
    NewEntry(FAILURE, Attempts(max))
  }

  lemma {:induction false} OpenedIsDue(max: nat)
    requires max >= 1
    ensures IsDueBatch([Opened(max)], 60, Attempts(max), [0])
  {
    assert Opened(max).nextRetryAt == Some(60);
    assert Due([Opened(max)], 60, max, 0);
  }

  lemma {:induction false} FirstStep(max: nat)
    ensures Legal([Record(FAILURE)], Attempts(max)) && Run([Record(FAILURE)], Attempts(max)) == [Opened(max)]
  {
    var none: seq<Action> := [];
    assert [Record(FAILURE)][..0] == none && Run(none, Attempts(max)) == [];
    assert Recorded([], FAILURE, Attempts(max)) == [] + [Opened(max)];
  }

  lemma {:induction false} OneStepMore(actions: seq<Action>, a: Action, s: Settings)
    requires Legal(actions, s) && Enabled(Run(actions, s), a, s)
    ensures Legal(actions + [a], s) && Run(actions + [a], s) == Next(Run(actions, s), a, s)
    ensures AllSends(actions + [a]) ==
            AllSends(actions) + (if a.Scan? || a.LostScan? then CountSent(a.dispatches) else 0)
  {
    assert (actions + [a])[..|actions|] == actions;
  }

  /** With one attempt, one entry and one lost scan, the task is sent twice. */
  lemma {:induction false} LostScanSendsAgain()
    ensures Legal([Record(FAILURE), LOST_SCAN, SCAN], Attempts(1))
    ensures |Run([Record(FAILURE), LOST_SCAN, SCAN], Attempts(1))| == 1
    ensures AllSends([Record(FAILURE), LOST_SCAN, SCAN]) == 2
  {
    var first := [Record(FAILURE)];
    FirstStep(1);
    OpenedIsDue(1);
    OneStepMore(first, LOST_SCAN, Attempts(1));
    OneStepMore(first + [LOST_SCAN], SCAN, Attempts(1));
    assert CountSent([Sent(60)]) == 1;
    assert AllSends(first) == 0;
    assert first + [LOST_SCAN] + [SCAN] == [Record(FAILURE), LOST_SCAN, SCAN];
  }

  lemma {:induction false} ScannedOnce(max: nat)
    ensures Scanned([Opened(max)], [0], [Sent(60)], Attempts(max)) == [Scheduled(Opened(max), 60, Attempts(max))]
  {
    var batch, none: seq<nat> := [0], [];
    assert batch[..0] == none && [Sent(60)][..0] == [];
  }

  /** An entry whose task was sent stays in the queue: the task's success is never reported to it. */
  lemma {:induction false} DispatchedNotResolved()
    ensures Legal([Record(FAILURE), SCAN], Attempts(2))
    ensures AllSends([Record(FAILURE), SCAN]) == 1
    ensures var entries := Run([Record(FAILURE), SCAN], Attempts(2));
            |entries| == 1 && entries[0].status == Retrying && entries[0].nextRetryAt == Some(180)
  {
    var first := [Record(FAILURE)];
    FirstStep(2);
    OpenedIsDue(2);
    OneStepMore(first, SCAN, Attempts(2));
    assert CountSent([Sent(60)]) == 1;
    assert AllSends(first) == 0;
    assert first + [SCAN] == [Record(FAILURE), SCAN];
    ScannedOnce(2);
  }
}
