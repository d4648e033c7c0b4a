/** GitHub webhook deliveries: each named delivery takes effect once, whatever is sent again or fails. */
module Webhook {
  import opened Basics
  import opened Keyset
  import opened Schema
  import opened Events

  /**
   How processing a delivery ends: it raises before the commit, before or after the upsert ran;
   it completes; or it commits and then raises while updating its log.
   */
  datatype Fate = Rejected(upserted: bool) | Completed | CommittedThenFailed

  /** A delivery, already parsed, with the values that processing it draws. */
  datatype Delivery = Delivery(
    id: string,
    commits: Option<seq<EventCreate>>,
    pullRequest: Option<EventCreate>,
    fate: Fate,
    correlationId: string,
    now: Time,
    ids: seq<Uuid>,
    positions: seq<Pos>)
  {
    function Batch(): seq<EventCreate> {
      (if commits.Some? then commits.value else []) + (if pullRequest.Some? then [pullRequest.value] else [])
    }

    ghost predicate Supplied() {
      |ids| >= |Batch()| && |positions| >= |Batch()|
    }

    predicate Commits() { !fate.Rejected? }

    function Items(): seq<Item>
      requires Supplied()
    {
      ItemsFor(FirstOccurrences(Batch()), ids, positions, now, Some(correlationId))
    }
  }

  datatype Response = Duplicate | Processed(eventsCreated: nat) | Raised

  /** The committed event store and the delivery ids on record. */
  datatype State = State(db: Store, delivered: set<string>)

  predicate Seen(s: State, d: Delivery) {
    d.id != "" && d.id in s.delivered
  }

  function Handled(s: State, d: Delivery): State
    requires d.Supplied()
  {
    if Seen(s, d) || !d.Commits() then s
    else State(UpsertAll(s.db, d.Items()), s.delivered + (if d.id != "" then {d.id} else {}))
  }

  function ResponseTo(s: State, d: Delivery): Response
    requires d.Supplied()
  {
    if Seen(s, d) then Duplicate
    else if d.fate == Completed then Processed(|d.Items()|)
    else Raised
  }

  /** What a delivery upserts: its commits in order, then its pull request, each key once, in its own name. */
  lemma {:induction false} ItemsAre(d: Delivery)
    requires d.Supplied()
    ensures var commits := if d.commits.Some? then d.commits.value else [];
            && |d.Batch()| == |commits| + (if d.pullRequest.Some? then 1 else 0)
            && (forall i :: 0 <= i < |commits| ==> d.Batch()[i] == commits[i])
            && (d.pullRequest.Some? ==> d.Batch()[|commits|] == d.pullRequest.value)
    ensures forall i :: 0 <= i < |d.Items()| ==>
              var item := d.Items()[i];
              && item.data in d.Batch()
              && item.eventId == d.ids[i] && item.pos == d.positions[i] && item.now == d.now
              && item.changedBy == Some(d.correlationId)
    ensures forall e :: e in d.Batch() ==>
              exists i :: 0 <= i < |d.Items()| && d.Items()[i].NaturalKey() == e.NaturalKey()
  {
    var firsts := FirstOccurrences(d.Batch());
    forall e | e in firsts ensures e in d.Batch() {
      FirstsSubmitted(d.Batch(), e);
    }
    forall e | e in d.Batch() ensures exists i :: 0 <= i < |d.Items()| && d.Items()[i].NaturalKey() == e.NaturalKey() {
      assert e.NaturalKey() in KeysOf(firsts);
      var f :| f in firsts && f.NaturalKey() == e.NaturalKey();
      var i :| 0 <= i < |firsts| && firsts[i] == f;
      assert d.Items()[i].data == f;
    }
  }

  class WebhookEndpoint {
    const store: EventStore
    var delivered: set<string>

    ghost function Current(): State
      reads this, store
    {
      State(store.State(), delivered)
    }

    constructor (store: EventStore)
      ensures this.store == store && delivered == {}
    {
      this.store := store;
      delivered := {};
    }

    /** `github_webhook`: the delivery id, and all its events, in one transaction. */
    method GithubWebhook(d: Delivery) returns (response: Response)
      requires d.Supplied() && Constraints(store.State()) && FreshIds(store.State(), d.ids)
      modifies this`delivered, store
      ensures Current() == Handled(old(Current()), d)
      ensures response == ResponseTo(old(Current()), d)
    {
      var deliveredBefore, eventsBefore, versionsBefore, outboxBefore :=
        delivered, store.events, store.versions, store.outbox;
      if d.id != "" {
        if d.id in delivered {
          return Duplicate;
        }
        delivered := delivered + {d.id};
      }
      var eventDataList := [];
      if d.commits.Some? {
        for i := 0 to |d.commits.value|
          invariant eventDataList == d.commits.value[..i]
        {
          eventDataList := eventDataList + [d.commits.value[i]];
        }
        assert d.commits.value[..|d.commits.value|] == d.commits.value;
      }
      if d.pullRequest.Some? {
        eventDataList := eventDataList + [d.pullRequest.value];
      }
      assert eventDataList == d.Batch();
      var results: seq<Event> := [];
      if d.fate != Rejected(false) {
        results := store.UpsertEventsBulk(eventDataList, Some(d.correlationId), d.now, d.ids, d.positions);
      }
      match d.fate {
        case Rejected(_) =>
          delivered := deliveredBefore;
          store.events, store.versions, store.outbox := eventsBefore, versionsBefore, outboxBefore;
          return Raised;
        case Completed =>
          return Processed(|results|);
        case CommittedThenFailed =>
          return Raised;
      }
    }
  }

  // ---- Runs -------------------------------------------------------------------------------

  ghost predicate AllSupplied(ds: seq<Delivery>) {
    forall i :: 0 <= i < |ds| ==> ds[i].Supplied()
  }

  function Run(ds: seq<Delivery>): State
    requires AllSupplied(ds)
  {
    if ds == [] then State(EMPTY, {})
    else Handled(Run(ds[..|ds| - 1]), ds[|ds| - 1])
  }

  /** A delivery with this id that commits is among `ds`. */
  predicate Succeeded(ds: seq<Delivery>, id: string) {
    exists i :: 0 <= i < |ds| && ds[i].Commits() && ds[i].id == id
  }

  /** A delivery takes effect when it commits and no earlier one with its id did. */
  predicate TakesEffect(before: seq<Delivery>, d: Delivery) {
    d.Commits() && (d.id == "" || !Succeeded(before, d.id))
  }

  /** The first successful delivery of each id, and every successful one without an id. */
  function FirstSuccesses(ds: seq<Delivery>): (r: seq<Delivery>)
    ensures forall i :: 0 <= i < |r| ==> r[i] in ds && r[i].Commits()
  {
    if ds == [] then []
    else
      var init, last := ds[..|ds| - 1], ds[|ds| - 1];
      assert ds == init + [last];
      if TakesEffect(init, last) then FirstSuccesses(init) + [last] else FirstSuccesses(init)
  }

  function ItemsOfAll(ds: seq<Delivery>): seq<Item>
    requires AllSupplied(ds)
  {
    if ds == [] then [] else ItemsOfAll(ds[..|ds| - 1]) + ds[|ds| - 1].Items()
  }

  lemma {:induction false} ItemsOfAllAppend(ds: seq<Delivery>, d: Delivery)
    requires AllSupplied(ds) && d.Supplied()
    ensures AllSupplied(ds + [d]) && ItemsOfAll(ds + [d]) == ItemsOfAll(ds) + d.Items()
  {
    assert (ds + [d])[..|ds|] == ds;
  }

  lemma {:induction false} SucceededAppend(ds: seq<Delivery>, d: Delivery, id: string)
    ensures Succeeded(ds + [d], id) <==> Succeeded(ds, id) || (d.Commits() && d.id == id)
  {
    if Succeeded(ds, id) {
      var i :| 0 <= i < |ds| && ds[i].Commits() && ds[i].id == id;
      assert (ds + [d])[i] == ds[i];
    }
    assert (ds + [d])[|ds|] == d;
  }

  lemma {:induction false} FirstSuccessesSupplied(ds: seq<Delivery>)
    requires AllSupplied(ds)
    ensures AllSupplied(FirstSuccesses(ds))
  {
    forall i | 0 <= i < |FirstSuccesses(ds)| ensures FirstSuccesses(ds)[i].Supplied() {
      assert FirstSuccesses(ds)[i] in ds;
    }
  }

  /** An id is on record exactly when a delivery of it committed. */
  lemma {:induction false} OnRecordIff(ds: seq<Delivery>, id: string)
    requires AllSupplied(ds)
    ensures id in Run(ds).delivered <==> id != "" && Succeeded(ds, id)
  {
    if ds != [] {
      var init, last := ds[..|ds| - 1], ds[|ds| - 1];
      OnRecordIff(init, id);
      assert ds == init + [last];
      SucceededAppend(init, last, id);
    }
  }

  lemma {:induction false} HandledIff(before: seq<Delivery>, d: Delivery)
    requires AllSupplied(before) && d.Supplied()
    ensures Handled(Run(before), d).db ==
            if TakesEffect(before, d) then UpsertAll(Run(before).db, d.Items()) else Run(before).db
  {
    OnRecordIff(before, d.id);
  }

  /**
   For any deliveries, with ids sent again and arbitrary failures: the store is what applying
   only the first successful delivery of each id gives, in order.
   */
  lemma {:induction false} ExactlyOnce(ds: seq<Delivery>)
    requires AllSupplied(ds)
    ensures AllSupplied(FirstSuccesses(ds))
    ensures Run(ds).db == UpsertAll(EMPTY, ItemsOfAll(FirstSuccesses(ds)))
  {
    FirstSuccessesSupplied(ds);
    if ds != [] {
      var init, last := ds[..|ds| - 1], ds[|ds| - 1];
      ExactlyOnce(init);
      HandledIff(init, last);
      if TakesEffect(init, last) {
        ItemsOfAllAppend(FirstSuccesses(init), last);
        UpsertAllConcat(EMPTY, ItemsOfAll(FirstSuccesses(init)), last.Items());
      }
    }
  }

  /**
   What a delivery does and answers, after any others.  It is a duplicate exactly when it has an id of
   which an earlier delivery committed.  Otherwise, unless it raises before the commit, its items are
   upserted and its id goes on record, even if it raises after that; and it answers with their number.
   */
  lemma {:induction false} DeliveryIs(before: seq<Delivery>, d: Delivery)
    requires AllSupplied(before) && d.Supplied()
    ensures var s, answer := Run(before), ResponseTo(Run(before), d);
            var duplicate :=
              d.id != "" && exists i :: 0 <= i < |before| && before[i].id == d.id && !before[i].fate.Rejected?;
            && (answer == Duplicate <==> duplicate)
            && (answer == Raised <==> !duplicate && d.fate != Completed)
            && (!duplicate && d.fate == Completed ==> answer == Processed(|d.Items()|))
            && Handled(s, d) ==
               (if duplicate || d.fate.Rejected? then s
                else State(UpsertAll(s.db, d.Items()), s.delivered + (if d.id == "" then {} else {d.id})))
  {
    OnRecordIff(before, d.id);
    if Succeeded(before, d.id) {
      var i :| 0 <= i < |before| && before[i].Commits() && before[i].id == d.id;
      assert before[i].id == d.id && !before[i].fate.Rejected?;
    }
    if i :| 0 <= i < |before| && before[i].id == d.id && !before[i].fate.Rejected? {
      assert before[i].Commits();
    }
  }

  /** No id takes effect twice, and every id on record took effect. */
  lemma {:induction false} OnePerId(ds: seq<Delivery>)
    ensures forall i, j :: 0 <= i < j < |FirstSuccesses(ds)| && FirstSuccesses(ds)[i].id != "" ==>
              FirstSuccesses(ds)[i].id != FirstSuccesses(ds)[j].id
    ensures forall id :: id != "" && Succeeded(ds, id) ==> exists d :: d in FirstSuccesses(ds) && d.id == id
  {
    if ds != [] {
      var init, last := ds[..|ds| - 1], ds[|ds| - 1];
      OnePerId(init);
      assert ds == init + [last];
      var firsts := FirstSuccesses(init);
      forall i | 0 <= i < |firsts| ensures Succeeded(init, firsts[i].id) {
        assert firsts[i] in init;
      }
      forall id | id != "" && Succeeded(ds, id) ensures exists d :: d in FirstSuccesses(ds) && d.id == id {
        SucceededAppend(init, last, id);
        if Succeeded(init, id) {
          var d :| d in firsts && d.id == id;
          assert d in FirstSuccesses(ds);
        } else {
          assert last in FirstSuccesses(ds);
        }
      }
    }
  }
}
