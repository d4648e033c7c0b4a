/** Reading a whole Jira search result page by page. */
module Jira {
  import opened Basics

  /** One answer of the search endpoint; a body may lack the total. */
  datatype Answer<+T> = Answer(issues: seq<T>, total: Option<int>) | ApiError

  datatype Result<+T> = Ok(value: T) | Raised

  function TotalOf<T>(a: Answer<T>): int
    requires a.Answer?
  {
    if a.total.Some? then a.total.value else 0
  }

  /**
   A server holding a fixed result list: an answer is a slice from the requested start, of any
   size, even an empty one.  Nothing is said of the totals it reports.
   */
  ghost predicate Serves<T(!new)>(search: nat -> Answer<T>, results: seq<T>) {
    forall start: nat :: start <= |results| && search(start).Answer? ==>
      var n := |search(start).issues|;
      && start + n <= |results|
      && search(start).issues == results[start..start + n]
  }

  function Onto<T>(issues: seq<T>, r: Result<seq<T>>): Result<seq<T>> {
    if r.Ok? then Ok(issues + r.value) else Raised
  }

  /** What is collected from `start` on: pages until one is empty or reaches the reported total. */
  function Collected<T(!new)>(search: nat -> Answer<T>, ghost results: seq<T>, start: nat): Result<seq<T>>
    requires Serves(search, results) && start <= |results|
    decreases |results| - start
  {
    var answer := search(start);
    if answer.ApiError? then Raised
    else
      var end := start + |answer.issues|;
      if answer.issues == [] || end >= TotalOf(answer) then Ok(answer.issues)
      else Onto(answer.issues, Collected(search, results, end))
  }

  method SearchIssues<T(!new)>(search: nat -> Answer<T>, ghost results: seq<T>) returns (r: Result<seq<T>>)
    requires Serves(search, results)
    ensures r == Collected(search, results, 0)
  {
    var issues: seq<T> := [];
    var startAt: nat := 0;
    ghost var all := Collected(search, results, 0);
    assert all.Ok? ==> issues + all.value == all.value;
    while true
      invariant startAt <= |results| && issues == results[..startAt]
      invariant Collected(search, results, 0) == Onto(issues, Collected(search, results, startAt))
      decreases |results| - startAt
    {
      var data := search(startAt);
      if data.ApiError? {
        return Raised;
      }
      var batch := data.issues;
      ghost var rest := Collected(search, results, startAt + |batch|);
      assert rest.Ok? ==> issues + (batch + rest.value) == (issues + batch) + rest.value;
      issues := issues + batch;
      var total := TotalOf(data);
      startAt := startAt + |batch|;
      if batch == [] || startAt >= total {
        return Ok(issues);
      }
    }
  }

  /** Every page that leaves issues unread has some and reports a total beyond its own end. */
  ghost predicate PagesReachOn<T(!new)>(search: nat -> Answer<T>, results: seq<T>, start: nat)
    requires Serves(search, results) && start <= |results|
    decreases |results| - start
  {
    search(start).Answer? ==>
      var end := start + |search(start).issues|;
      end < |results| ==>
        && search(start).issues != []
        && TotalOf(search(start)) > end
        && PagesReachOn(search, results, end)
  }

  lemma {:induction false} CollectedIsPrefix<T(!new)>(search: nat -> Answer<T>, results: seq<T>, start: nat)
    requires Serves(search, results) && start <= |results|
    ensures var r := Collected(search, results, start);
            r.Ok? ==> start + |r.value| <= |results| && r.value == results[start..start + |r.value|]
    decreases |results| - start
  {
    var answer := search(start);
    if answer.Answer? && answer.issues != [] {
      CollectedIsPrefix(search, results, start + |answer.issues|);
    }
  }

  /**
   Whatever the page sizes, a search that does not fail returns the whole list in order,
   without repeats, exactly when no page before the end is empty or understates the total.
   */
  lemma {:induction false} CollectsAllIff<T(!new)>(search: nat -> Answer<T>, results: seq<T>, start: nat)
    requires Serves(search, results) && start <= |results|
    ensures var r := Collected(search, results, start);
            r.Ok? ==> (r.value == results[start..] <==> PagesReachOn(search, results, start))
    decreases |results| - start
  {
    var answer := search(start);
    if answer.Answer? {
      var end := start + |answer.issues|;
      if answer.issues != [] && end < TotalOf(answer) {
        CollectsAllIff(search, results, end);
        CollectedIsPrefix(search, results, end);
        var rest := Collected(search, results, end);
        assert results[start..] == answer.issues + results[end..];
        if rest.Ok? && answer.issues + rest.value == results[start..] {
          assert rest.value == (answer.issues + rest.value)[|answer.issues|..] == results[end..];
        }
        if end == |results| {
          assert results[end..] == [];
        }
      } else if end < |results| {
        assert |results[start..]| > |answer.issues|;
      }
    }
  }

  /** It reports the true total, and no empty page while issues remain. */
  ghost predicate Truthful<T(!new)>(search: nat -> Answer<T>, results: seq<T>) {
    forall s: nat :: s <= |results| && search(s).Answer? ==>
      search(s).total == Some(|results|) && (s < |results| ==> search(s).issues != [])
  }

  /** Such a server is read to the end. */
  lemma {:induction false} TruePagesReachOn<T(!new)>(search: nat -> Answer<T>, results: seq<T>, start: nat)
    requires Serves(search, results) && start <= |results|
    requires Truthful(search, results)
    ensures PagesReachOn(search, results, start)
    decreases |results| - start
  {
    if search(start).Answer? && start < |results| {
      TruePagesReachOn(search, results, start + |search(start).issues|);
    }
  }

  lemma {:induction false} WholeResult<T(!new)>(search: nat -> Answer<T>, results: seq<T>)
    requires Serves(search, results) && Truthful(search, results)
    ensures Collected(search, results, 0) == Raised || Collected(search, results, 0) == Ok(results)
  {
    CollectsAllIff(search, results, 0);
    TruePagesReachOn(search, results, 0);
    assert results[0..] == results;
  }

  /** A server with two issues that reports two, but answers the second request with an empty page. */
  function Stalling(start: nat): Answer<nat> {
    Answer(if start == 0 then [0] else [], Some(2))
  }

  /** A server with two issues, one a page, that never says how many there are. */
  function Untold(start: nat): Answer<nat> {
    Answer(if start < 2 then [start] else [], None)
  }

  /** Without a total, or at an empty page, the search ends after the first issue. */
  lemma {:induction false} CutShort()
    ensures Serves(Untold, [0, 1]) && Serves(Stalling, [0, 1])
    ensures Collected(Untold, [0, 1], 0) == Ok([0]) && Collected(Stalling, [0, 1], 0) == Ok([0])
    ensures !PagesReachOn(Untold, [0, 1], 0) && !PagesReachOn(Stalling, [0, 1], 0)
  {
    var results: seq<nat>, page: seq<nat> := [0, 1], [0];
    assert page + [] == page;
    assert results[0..1] == [0] && results[1..2] == [1] && results[1..1] == results[2..2] == [];
    assert Collected(Stalling, results, 1) == Ok([]) && !PagesReachOn(Stalling, results, 1);
  }
}
