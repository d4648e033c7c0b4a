/**
 `list_events`: pages of the events table, newest first, resumed by the (timestamp, id) of
 the last event returned, while other writers change the table between pages.
 */
module Listing {
  import opened Arithmetic
  import opened Basics
  import opened Sequences
  import opened Keyset
  import opened Schema

  datatype Filters = Filters(
    source: Option<string>,
    authorId: Option<string>,
    eventType: Option<string>,
    dateFrom: Option<Time>,
    dateTo: Option<Time>)

  /** An absent or empty text filters nothing. */
  predicate TextMatches(filter: Option<string>, value: string) {
    filter.None? || filter.value == "" || filter.value == value
  }

  predicate Matches(f: Filters, ev: Event) {
    && TextMatches(f.source, ev.source)
    && TextMatches(f.authorId, ev.authorId)
    && TextMatches(f.eventType, ev.eventType)
    && (f.dateFrom.Some? ==> ev.timestamp >= f.dateFrom.value)
    && (f.dateTo.Some? ==> ev.timestamp <= f.dateTo.value)
  }

  /** Descending order is ascending order of the negated columns. */
  function Turned(p: Pos): Pos {
    Pos(0 - p.ts, 0 - p.id)
  }

  /** The place of an event, as a cursor names it. */
  function PlaceOf(ev: Event): Pos {
    Pos(ev.timestamp, ev.id)
  }

  /** The position in a listing ordered by timestamp descending, then id descending. */
  function Rank(ev: Event): Pos {
    Turned(PlaceOf(ev))
  }

  function RankAt(cursor: Option<Pos>): Option<Pos> {
    if cursor.None? then None else Some(Turned(cursor.value))
  }

  /** SELECT ... WHERE the filters match. */
  function Listed(table: seq<Event>, f: Filters): (r: seq<Entry<Event>>)
    ensures forall i :: 0 <= i < |r| ==>
              r[i].item in table && Matches(f, r[i].item) && r[i].pos == Rank(r[i].item)
  {
    if table == [] then []
    else
      var last := table[|table| - 1];
      Listed(table[..|table| - 1], f) + (if Matches(f, last) then [Entry(Rank(last), last)] else [])
  }

  datatype ListPage = ListPage(items: seq<Entry<Event>>, hasMore: bool, nextCursor: Option<Pos>)

  /** `list_events`: a cursor is returned only when more remains. */
  function ListEvents(table: seq<Event>, f: Filters, cursor: Option<Pos>, limit: nat): ListPage {
    var page := ReadPage(Listed(table, f), RankAt(cursor), limit);
    var next :=
      if page.hasMore && page.rows != [] then Some(PlaceOf(page.rows[|page.rows| - 1].item)) else None;
    ListPage(page.rows, page.hasMore, next)
  }

  /** One page from each successive state of the table, until no cursor is returned. */
  function Walk(tables: seq<seq<Event>>, f: Filters, cursor: Option<Pos>, limit: nat): seq<ListPage> {
    if tables == [] then []
    else
      var page := ListEvents(tables[0], f, cursor, limit);
      if page.nextCursor.None? then [page]
      else [page] + Walk(tables[1..], f, page.nextCursor, limit)
  }

  predicate Completed(pages: seq<ListPage>) {
    pages != [] && pages[|pages| - 1].nextCursor.None?
  }

  function Returned(pages: seq<ListPage>): seq<Entry<Event>> {
    if pages == [] then [] else pages[0].items + Returned(pages[1..])
  }

  /** The primary key. */
  ghost predicate DistinctIds(table: seq<Event>) {
    forall i, j :: 0 <= i < j < |table| ==> table[i].id != table[j].id
  }

  lemma {:induction false} ListedCorrect(table: seq<Event>, f: Filters)
    requires DistinctIds(table)
    ensures Distinct(Listed(table, f))
    ensures forall i :: 0 <= i < |table| && Matches(f, table[i]) ==>
              Entry(Rank(table[i]), table[i]) in Listed(table, f)
  {
    if table != [] {
      var init, last := table[..|table| - 1], table[|table| - 1];
      ListedCorrect(init, f);
      var r := Listed(init, f);
      forall i | 0 <= i < |r| ensures r[i].pos != Rank(last) {
        assert r[i].item in init;
      }
      forall i | 0 <= i < |table| && Matches(f, table[i])
        ensures Entry(Rank(table[i]), table[i]) in Listed(table, f)
      {
        if i < |init| {
          assert init[i] == table[i];
        }
      }
    }
  }

  /** What remains to be listed at a cursor, in order. */
  function Remaining(table: seq<Event>, f: Filters, cursor: Option<Pos>): seq<Entry<Event>> {
    Upcoming(Listed(table, f), RankAt(cursor))
  }

  lemma {:induction false} RemainingCorrect(table: seq<Event>, f: Filters, cursor: Option<Pos>)
    requires DistinctIds(table)
    ensures Ascending(Remaining(table, f, cursor)) && AllPast(Remaining(table, f, cursor), RankAt(cursor))
    ensures forall i :: 0 <= i < |Remaining(table, f, cursor)| ==>
              var e := Remaining(table, f, cursor)[i];
              e.item in table && Matches(f, e.item) && e.pos == Rank(e.item)
  {
    ListedCorrect(table, f);
    UpcomingOrdered(Listed(table, f), RankAt(cursor));
    forall i | 0 <= i < |Remaining(table, f, cursor)|
      ensures var e := Remaining(table, f, cursor)[i];
              e.item in table && Matches(f, e.item) && e.pos == Rank(e.item)
    {
      assert Remaining(table, f, cursor)[i] in Listed(table, f);
    }
  }

  lemma {:induction false} RemainingHolds(table: seq<Event>, f: Filters, cursor: Option<Pos>, ev: Event)
    requires DistinctIds(table) && ev in table && Matches(f, ev) && Past(Rank(ev), RankAt(cursor))
    ensures Entry(Rank(ev), ev) in Remaining(table, f, cursor)
  {
    ListedCorrect(table, f);
    var i :| 0 <= i < |table| && table[i] == ev;
    UpcomingHolds(Listed(table, f), RankAt(cursor), Entry(Rank(ev), ev));
  }

  lemma {:induction false} PageIsFront(table: seq<Event>, f: Filters, cursor: Option<Pos>, limit: nat)
    requires limit >= 1
    ensures var all, page := Remaining(table, f, cursor), ListEvents(table, f, cursor, limit);
            && page.items == Take(all, limit)
            && (page.hasMore <==> |all| > limit)
            && page.nextCursor == if |all| > limit then Some(PlaceOf(all[limit - 1].item)) else None
  {
    ReadPageIsFront(Listed(table, f), RankAt(cursor), limit);
  }

  /**
   One page, in the columns of the events: newest first, by timestamp and then id; events of the
   table that match the filters and come after the cursor; and the next cursor, if more remains,
   is the timestamp and id of the last.
   */
  lemma {:induction false} PageNewestFirst(table: seq<Event>, f: Filters, cursor: Option<Pos>, limit: nat)
    requires DistinctIds(table) && limit >= 1
    ensures var page := ListEvents(table, f, cursor, limit);
            && |page.items| <= limit
            && (forall i, j :: 0 <= i < j < |page.items| ==>
                  var a, b := page.items[i].item, page.items[j].item;
                  a.timestamp > b.timestamp || (a.timestamp == b.timestamp && a.id > b.id))
            && (page.nextCursor.Some? <==> page.hasMore)
            && (page.hasMore ==>
                  && |page.items| == limit
                  && page.nextCursor.value.ts == page.items[limit - 1].item.timestamp
                  && page.nextCursor.value.id == page.items[limit - 1].item.id)
    ensures var page := ListEvents(table, f, cursor, limit);
            forall i :: 0 <= i < |page.items| ==>
              var ev := page.items[i].item;
              && ev in table
              && (f.source.None? || f.source.value == "" || ev.source == f.source.value)
              && (f.authorId.None? || f.authorId.value == "" || ev.authorId == f.authorId.value)
              && (f.eventType.None? || f.eventType.value == "" || ev.eventType == f.eventType.value)
              && (f.dateFrom.None? || f.dateFrom.value <= ev.timestamp)
              && (f.dateTo.None? || ev.timestamp <= f.dateTo.value)
              && (|| cursor.None? || ev.timestamp < cursor.value.ts
                  || (ev.timestamp == cursor.value.ts && ev.id < cursor.value.id))
  {
    PageIsFront(table, f, cursor, limit);
    RemainingCorrect(table, f, cursor);
  }

  /**
   What a page leaves out, in the same terms: an event that matches and comes after the cursor is on
   the page, or more is reported and it is older than the last one, or as old with a smaller id.
   */
  lemma {:induction false} LeftForLater(
    table: seq<Event>, f: Filters, cursor: Option<Pos>, limit: nat, ev: Event)
    requires DistinctIds(table) && limit >= 1 && ev in table
    requires f.source.None? || f.source.value == "" || ev.source == f.source.value
    requires f.authorId.None? || f.authorId.value == "" || ev.authorId == f.authorId.value
    requires f.eventType.None? || f.eventType.value == "" || ev.eventType == f.eventType.value
    requires f.dateFrom.None? || f.dateFrom.value <= ev.timestamp
    requires f.dateTo.None? || ev.timestamp <= f.dateTo.value
    requires || cursor.None? || ev.timestamp < cursor.value.ts
             || (ev.timestamp == cursor.value.ts && ev.id < cursor.value.id)
    ensures var page := ListEvents(table, f, cursor, limit);
            || (exists i :: 0 <= i < |page.items| && page.items[i].item == ev)
            || (&& page.nextCursor.Some?
                && (|| ev.timestamp < page.nextCursor.value.ts
                    || (ev.timestamp == page.nextCursor.value.ts && ev.id < page.nextCursor.value.id)))
  {
    PageIsFront(table, f, cursor, limit);
    RemainingCorrect(table, f, cursor);
    RemainingHolds(table, f, cursor, ev);
    OnPageOrAfter(Remaining(table, f, cursor), limit, ev);
  }

  lemma {:induction false} OnPageOrAfter(all: seq<Entry<Event>>, limit: nat, ev: Event)
    requires limit >= 1 && Ascending(all) && Entry(Rank(ev), ev) in all
    ensures || (exists i :: 0 <= i < |Take(all, limit)| && Take(all, limit)[i].item == ev)
            || (|all| > limit && Precedes(all[limit - 1].pos, Rank(ev)))
  {
    var e := Entry(Rank(ev), ev);
    if e in Take(all, limit) {
      var i :| 0 <= i < |Take(all, limit)| && Take(all, limit)[i] == e;
      assert Take(all, limit)[i].item == ev;
    } else {
      LeftOut(all, limit, e);
    }
  }

  lemma {:induction false} WalkTurnsPage(tables: seq<seq<Event>>, f: Filters, cursor: Option<Pos>, limit: nat)
    requires tables != [] && ListEvents(tables[0], f, cursor, limit).nextCursor.Some?
    ensures var page := ListEvents(tables[0], f, cursor, limit);
            var pages, rest := Walk(tables, f, cursor, limit), Walk(tables[1..], f, page.nextCursor, limit);
            && pages == [page] + rest
            && Returned(pages) == page.items + Returned(rest)
            && (Completed(pages) <==> Completed(rest))
  {
    var page := ListEvents(tables[0], f, cursor, limit);
    OnePageMore(page, Walk(tables[1..], f, page.nextCursor, limit));
  }

  lemma {:induction false} OnePageMore(page: ListPage, rest: seq<ListPage>)
    ensures Returned([page] + rest) == page.items + Returned(rest)
    ensures page.nextCursor.Some? ==> (Completed([page] + rest) <==> Completed(rest))
  {
    assert ([page] + rest)[1..] == rest;
  }

  lemma {:induction false} WalkStops(tables: seq<seq<Event>>, f: Filters, cursor: Option<Pos>, limit: nat)
    requires tables != [] && ListEvents(tables[0], f, cursor, limit).nextCursor.None?
    ensures var page := ListEvents(tables[0], f, cursor, limit);
            && Walk(tables, f, cursor, limit) == [page]
            && Returned(Walk(tables, f, cursor, limit)) == page.items
  {
    var page := ListEvents(tables[0], f, cursor, limit);
    assert [page][1..] == [];
    assert page.items + [] == page.items;
  }

  /** A walk returns only rows past the cursor it started from. */
  lemma {:induction false} WalkStaysPast(
    tables: seq<seq<Event>>, f: Filters, cursor: Option<Pos>, limit: nat)
    requires limit >= 1 && forall i :: 0 <= i < |tables| ==> DistinctIds(tables[i])
    ensures AllPast(Returned(Walk(tables, f, cursor, limit)), RankAt(cursor))
    decreases |tables|
  {
    if tables != [] {
      PageIsFront(tables[0], f, cursor, limit);
      RemainingCorrect(tables[0], f, cursor);
      var page := ListEvents(tables[0], f, cursor, limit);
      if page.nextCursor.Some? {
        WalkStaysPast(tables[1..], f, page.nextCursor, limit);
        WalkTurnsPage(tables, f, cursor, limit);
        assert Past(RankAt(page.nextCursor).value, RankAt(cursor));
      } else {
        WalkStops(tables, f, cursor, limit);
      }
    }
  }

  lemma {:induction false} OccursOnce<T>(s: seq<Entry<T>>, i: nat)
    requires Ascending(s) && i < |s|
    ensures multiset(s)[s[i]] == 1
  {
    assert s == s[..i] + [s[i]] + s[i + 1..];
    assert s[i] !in s[..i] && s[i] !in s[i + 1..];
  }

  lemma {:induction false} OccursNowhere<T>(s: seq<Entry<T>>, e: Entry<T>, after: Option<Pos>)
    requires AllPast(s, after) && !Past(e.pos, after)
    ensures multiset(s)[e] == 0
  {
    assert e !in s;
  }

  lemma {:induction false} ReturnedOnce(
    tables: seq<seq<Event>>, f: Filters, cursor: Option<Pos>, limit: nat, ev: Event)
    requires limit >= 1 && Matches(f, ev) && Past(Rank(ev), RankAt(cursor))
    requires forall i :: 0 <= i < |tables| ==> DistinctIds(tables[i]) && ev in tables[i]
    requires Completed(Walk(tables, f, cursor, limit))
    ensures multiset(Returned(Walk(tables, f, cursor, limit)))[Entry(Rank(ev), ev)] == 1
    decreases |tables|
  {
    var e, all := Entry(Rank(ev), ev), Remaining(tables[0], f, cursor);
    PageIsFront(tables[0], f, cursor, limit);
    RemainingCorrect(tables[0], f, cursor);
    RemainingHolds(tables[0], f, cursor, ev);
    var i :| 0 <= i < |all| && all[i] == e;
    var page := ListEvents(tables[0], f, cursor, limit);
    if page.nextCursor.None? {
      WalkStops(tables, f, cursor, limit);
      OnPage(all, limit, i);
    } else {
      WalkTurnsPage(tables, f, cursor, limit);
      var rest := Returned(Walk(tables[1..], f, page.nextCursor, limit));
      CountAcross(page.items, rest, e);
      if i < limit {
        OnPage(all, limit, i);
        WalkStaysPast(tables[1..], f, page.nextCursor, limit);
        OccursNowhere(rest, e, RankAt(page.nextCursor));
      } else {
        OffPage(all, limit, i);
        ReturnedOnce(tables[1..], f, page.nextCursor, limit, ev);
      }
    }
  }

  /**
   Whatever others insert, update or delete between pages, an event that matches the filters
   and stays unmodified for the whole of a completed walk is returned exactly once.
   */
  lemma {:induction false} WalkReturnsOnce(
    tables: seq<seq<Event>>, f: Filters, cursor: Option<Pos>, limit: nat, ev: Event)
    requires limit >= 1 && Matches(f, ev)
    requires || cursor.None? || ev.timestamp < cursor.value.ts
             || (ev.timestamp == cursor.value.ts && ev.id < cursor.value.id)
    requires forall i :: 0 <= i < |tables| ==> DistinctIds(tables[i]) && ev in tables[i]
    requires Completed(Walk(tables, f, cursor, limit))
    ensures multiset(Returned(Walk(tables, f, cursor, limit)))[Entry(Rank(ev), ev)] == 1
  {
    ReturnedOnce(tables, f, cursor, limit, ev);
  }

  lemma {:induction false} CountAcross<T>(a: seq<T>, b: seq<T>, e: T)
    ensures multiset(a + b)[e] == multiset(a)[e] + multiset(b)[e]
  {
  }

  lemma {:induction false} OnPage(all: seq<Entry<Event>>, limit: nat, i: nat)
    requires Ascending(all) && i < limit && i < |all|
    ensures multiset(Take(all, limit))[all[i]] == 1
    ensures |all| > limit ==> !Precedes(all[limit - 1].pos, all[i].pos)
  {
    OccursOnce(Take(all, limit), i);
  }

  lemma {:induction false} OffPage(all: seq<Entry<Event>>, limit: nat, i: nat)
    requires Ascending(all) && 1 <= limit <= i < |all|
    ensures multiset(Take(all, limit))[all[i]] == 0
    ensures Precedes(all[limit - 1].pos, all[i].pos)
  {
    assert all[i] !in Take(all, limit);
  }

  /** Pages needed for `rest` rows: one even when nothing is left, otherwise ceil(rest / limit). */
  function PagesFor(rest: nat, limit: nat): (r: nat)
    requires limit >= 1
    ensures r >= 1
    decreases rest
  {
    if rest <= limit then 1 else 1 + PagesFor(rest - limit, limit)
  }

  lemma {:induction false} PagesForIsCeiling(rest: nat, limit: nat)
    requires limit >= 1
    ensures rest <= limit * PagesFor(rest, limit)
    ensures rest > 0 ==> rest > limit * (PagesFor(rest, limit) - 1)
    decreases rest
  {
    if rest > limit {
      PagesForIsCeiling(rest - limit, limit);
      OneMoreRound(limit, PagesFor(rest, limit) - 1);
      OneMoreRound(limit, PagesFor(rest - limit, limit) - 1);
    }
  }

  /** A completed walk that returns these rows on so many pages. */
  ghost predicate Gives(walk: seq<ListPage>, rows: seq<Entry<Event>>, pages: nat) {
    Completed(walk) && Returned(walk) == rows && |walk| == pages
  }

  /** The cursor of a reader that has seen the first `n` events of a listing. */
  function PlaceAt(listing: seq<Entry<Event>>, n: nat): Option<Pos>
    requires n <= |listing|
  {
    if n == 0 then None else Some(PlaceOf(listing[n - 1].item))
  }

  lemma {:induction false} RankedPlace(table: seq<Event>, f: Filters, listing: seq<Entry<Event>>, n: nat)
    requires DistinctIds(table) && listing == OrderBy(Listed(table, f)) && n <= |listing|
    ensures RankAt(PlaceAt(listing, n)) == CursorAt(listing, n)
  {
    ListedCorrect(table, f);
    OrderByAscends(Listed(table, f));
    if n > 0 {
      assert listing[n - 1] in Listed(table, f);
    }
  }

  /**
   On a table nobody changes, a walk from the `n`-th row returns the rest of the filtered
   listing in descending order, on ceil(rest / limit) pages, or on one page when none is left.
   */
  lemma {:induction false} FixedWalk(
    tables: seq<seq<Event>>, table: seq<Event>, f: Filters, listing: seq<Entry<Event>>, n: nat, limit: nat)
    requires DistinctIds(table) && limit >= 1 && listing == OrderBy(Listed(table, f)) && n <= |listing|
    requires forall i :: 0 <= i < |tables| ==> tables[i] == table
    requires |tables| >= PagesFor(|listing| - n, limit)
    ensures Gives(Walk(tables, f, PlaceAt(listing, n), limit), listing[n..], PagesFor(|listing| - n, limit))
    decreases |tables|
  {
    if n + limit < |listing| {
      MorePages(|listing|, n, limit);
      FixedWalk(tables[1..], table, f, listing, n + limit, limit);
      FixedTurn(tables, f, listing, n, limit, PagesFor(|listing| - (n + limit), limit));
    } else {
      FixedStop(tables, f, listing, n, limit);
    }
  }

  lemma {:induction false} FixedStop(
    tables: seq<seq<Event>>, f: Filters, listing: seq<Entry<Event>>, n: nat, limit: nat)
    requires tables != [] && DistinctIds(tables[0]) && limit >= 1
    requires listing == OrderBy(Listed(tables[0], f)) && n <= |listing| <= n + limit
    ensures Gives(Walk(tables, f, PlaceAt(listing, n), limit), listing[n..], 1)
  {
    FixedPage(tables[0], f, listing, n, limit);
    WalkStops(tables, f, PlaceAt(listing, n), limit);
  }

  lemma {:induction false} FixedTurn(
    tables: seq<seq<Event>>, f: Filters, listing: seq<Entry<Event>>, n: nat, limit: nat, pages: nat)
    requires tables != [] && DistinctIds(tables[0]) && limit >= 1
    requires listing == OrderBy(Listed(tables[0], f)) && n + limit < |listing|
    requires Gives(Walk(tables[1..], f, PlaceAt(listing, n + limit), limit), listing[n + limit..], pages)
    ensures Gives(Walk(tables, f, PlaceAt(listing, n), limit), listing[n..], pages + 1)
  {
    FixedPage(tables[0], f, listing, n, limit);
    WalkTurnsPage(tables, f, PlaceAt(listing, n), limit);
  }

  lemma {:induction false} MorePages(total: nat, n: nat, limit: nat)
    requires limit >= 1 && n + limit < total
    ensures PagesFor(total - n, limit) == 1 + PagesFor(total - (n + limit), limit)
  {
    assert total - n - limit == total - (n + limit);
  }

  /** A page of a table nobody changes, read after its first `n` rows. */
  lemma {:induction false} FixedPage(
    table: seq<Event>, f: Filters, listing: seq<Entry<Event>>, n: nat, limit: nat)
    requires DistinctIds(table) && limit >= 1 && listing == OrderBy(Listed(table, f)) && n <= |listing|
    ensures var page := ListEvents(table, f, PlaceAt(listing, n), limit);
            if n + limit < |listing| then
              && page.nextCursor == PlaceAt(listing, n + limit)
              && page.items + listing[n + limit..] == listing[n..]
            else page.nextCursor == None && page.items == listing[n..]
  {
    RemainingAt(table, f, listing, n);
    PageIsFront(table, f, PlaceAt(listing, n), limit);
    if n + limit < |listing| {
      Rejoin(listing, n, limit);
    }
  }

  lemma {:induction false} Rejoin<T>(s: seq<T>, n: nat, limit: nat)
    requires n + limit <= |s|
    ensures Take(s[n..], limit) + s[n + limit..] == s[n..]
  {
  }

  lemma {:induction false} RemainingAt(table: seq<Event>, f: Filters, listing: seq<Entry<Event>>, n: nat)
    requires DistinctIds(table) && listing == OrderBy(Listed(table, f)) && n <= |listing|
    ensures Remaining(table, f, PlaceAt(listing, n)) == listing[n..]
  {
    ListedCorrect(table, f);
    OrderByAscends(Listed(table, f));
    RankedPlace(table, f, listing, n);
    AfterOrderBy(Listed(table, f), CursorAt(listing, n));
    AfterCursor(listing, n);
  }

  /** Newest first, by timestamp and then id. */
  ghost predicate NewestFirst(rows: seq<Entry<Event>>) {
    forall i, j :: 0 <= i < j < |rows| ==>
      || rows[i].item.timestamp > rows[j].item.timestamp
      || (rows[i].item.timestamp == rows[j].item.timestamp && rows[i].item.id > rows[j].item.id)
  }

  ghost predicate Holds(rows: seq<Entry<Event>>, ev: Event) {
    exists i :: 0 <= i < |rows| && rows[i].item == ev
  }

  /**
   The whole of a table nobody changes, in the columns of the events: a walk from the start is
   completed on ceil(n / limit) pages, newest first, and returns just the events that match.
   */
  lemma {:induction false} WholeWalk(tables: seq<seq<Event>>, table: seq<Event>, f: Filters, limit: nat)
    requires DistinctIds(table) && limit >= 1
    requires forall i :: 0 <= i < |tables| ==> tables[i] == table
    requires |tables| >= PagesFor(|Listed(table, f)|, limit)
    ensures var walk := Walk(tables, f, None, limit);
            && Completed(walk) && |walk| == PagesFor(|Returned(walk)|, limit)
            && NewestFirst(Returned(walk))
            && forall ev :: Holds(Returned(walk), ev) <==>
                 && ev in table
                 && (f.source.None? || f.source.value == "" || ev.source == f.source.value)
                 && (f.authorId.None? || f.authorId.value == "" || ev.authorId == f.authorId.value)
                 && (f.eventType.None? || f.eventType.value == "" || ev.eventType == f.eventType.value)
                 && (f.dateFrom.None? || f.dateFrom.value <= ev.timestamp)
                 && (f.dateTo.None? || ev.timestamp <= f.dateTo.value)
  {
    var listing := OrderBy(Listed(table, f));
    FixedWalk(tables, table, f, listing, 0, limit);
    assert listing[0..] == listing;
    ListingNewestFirst(table, f);
    forall ev ensures Holds(listing, ev) <==> ev in table && Matches(f, ev) {
      InListingIff(table, f, ev);
    }
  }

  lemma {:induction false} ListingNewestFirst(table: seq<Event>, f: Filters)
    requires DistinctIds(table)
    ensures NewestFirst(OrderBy(Listed(table, f)))
  {
    ListingRows(table, f);
  }

  lemma {:induction false} ListingRows(table: seq<Event>, f: Filters)
    requires DistinctIds(table)
    ensures var listing := OrderBy(Listed(table, f));
            && Ascending(listing)
            && forall i :: 0 <= i < |listing| ==>
                 && listing[i].item in table && Matches(f, listing[i].item)
                 && listing[i].pos == Rank(listing[i].item)
  {
    ListedCorrect(table, f);
    OrderByAscends(Listed(table, f));
    var listing := OrderBy(Listed(table, f));
    forall i | 0 <= i < |listing|
      ensures listing[i].item in table && Matches(f, listing[i].item) && listing[i].pos == Rank(listing[i].item)
    {
      assert listing[i] in Listed(table, f);
    }
  }

  lemma {:induction false} InListingIff(table: seq<Event>, f: Filters, ev: Event)
    requires DistinctIds(table)
    ensures var listing := OrderBy(Listed(table, f));
            Holds(listing, ev) <==> ev in table && Matches(f, ev)
  {
    var listing := OrderBy(Listed(table, f));
    ListingRows(table, f);
    if ev in table && Matches(f, ev) {
      var t :| 0 <= t < |table| && table[t] == ev;
      ListedCorrect(table, f);
      OrderByContents(Listed(table, f));
      assert Entry(Rank(ev), ev) in Listed(table, f);
      assert Entry(Rank(ev), ev) in listing;
      var i :| 0 <= i < |listing| && listing[i] == Entry(Rank(ev), ev);
      assert listing[i].item == ev;
    }
  }
}
