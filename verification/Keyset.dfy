/**
 Keyset pagination: reading a table in the order of a (timestamp, id) position, one page at
 a time, resuming after the position of the last row seen.  The change feed and the event
 listing are both instances.
 */
module Keyset {
  import opened Arithmetic
  import opened Basics
  import opened Sequences

  datatype Pos = Pos(ts: int, id: int)

  /** Strict order of positions: the timestamp first, the id to break ties. */
  predicate Precedes(a: Pos, b: Pos) {
    a.ts < b.ts || (a.ts == b.ts && a.id < b.id)
  }

  datatype Entry<+T> = Entry(pos: Pos, item: T)

  /** The WHERE clause of a resumed query. */
  predicate Past(p: Pos, after: Option<Pos>) {
    after.None? || Precedes(after.value, p)
  }

  ghost predicate Ascending<T>(s: seq<Entry<T>>) {
    forall i, j :: 0 <= i < j < |s| ==> Precedes(s[i].pos, s[j].pos)
  }

  ghost predicate Distinct<T>(table: seq<Entry<T>>) {
    forall i, j :: 0 <= i < j < |table| ==> table[i].pos != table[j].pos
  }

  /** Every row of `s` is a row of `t`. */
  ghost predicate Drawn<T>(s: seq<Entry<T>>, t: seq<Entry<T>>) {
    forall i :: 0 <= i < |s| ==> s[i] in t
  }

  /** ORDER BY position, of a table stored in any order. */
  function OrderBy<T>(table: seq<Entry<T>>): (r: seq<Entry<T>>)
    ensures |r| == |table|
  {
    if table == [] then []
    else Insert(table[|table| - 1], OrderBy(table[..|table| - 1]))
  }

  function Insert<T>(e: Entry<T>, s: seq<Entry<T>>): (r: seq<Entry<T>>)
    ensures |r| == |s| + 1
  {
    if s == [] || Precedes(s[|s| - 1].pos, e.pos) then s + [e]
    else Insert(e, s[..|s| - 1]) + [s[|s| - 1]]
  }

  function After<T>(s: seq<Entry<T>>, after: Option<Pos>): (r: seq<Entry<T>>)
    ensures |r| <= |s|
  {
    if s == [] then []
    else
      var last := s[|s| - 1];
      After(s[..|s| - 1], after) + (if Past(last.pos, after) then [last] else [])
  }

  /** SELECT ... WHERE position > after ORDER BY position LIMIT limit. */
  function Fetch<T>(table: seq<Entry<T>>, after: Option<Pos>, limit: nat): seq<Entry<T>> {
    Take(OrderBy(After(table, after)), limit)
  }

  datatype Page<+T> = Page(rows: seq<Entry<T>>, hasMore: bool)

  /** One row more than the limit is fetched to learn whether anything remains. */
  function ReadPage<T>(table: seq<Entry<T>>, after: Option<Pos>, limit: nat): Page<T> {
    var rows := Fetch(table, after, limit + 1);
    Page(Take(rows, limit), |rows| > limit)
  }

  /** The cursor of a reader that has seen the first `n` rows of `feed`. */
  function CursorAt<T>(feed: seq<Entry<T>>, n: nat): Option<Pos>
    requires n <= |feed|
  {
    if n == 0 then None else Some(feed[n - 1].pos)
  }

  // ---- Ordering ---------------------------------------------------------------------------

  lemma {:induction false} InsertContents<T>(e: Entry<T>, s: seq<Entry<T>>)
    ensures multiset(Insert(e, s)) == multiset(s) + multiset{e}
  {
    if s != [] {
      assert s == s[..|s| - 1] + [s[|s| - 1]];
      InsertContents(e, s[..|s| - 1]);
    }
  }

  lemma {:induction false} InsertAscending<T>(e: Entry<T>, s: seq<Entry<T>>)
    requires Ascending(s) && forall i :: 0 <= i < |s| ==> s[i].pos != e.pos
    ensures Ascending(Insert(e, s))
    ensures Drawn(Insert(e, s), s + [e])
  {
    if s == [] || Precedes(s[|s| - 1].pos, e.pos) {
    } else {
      var init, last := s[..|s| - 1], s[|s| - 1];
      InsertAscending(e, init);
      var r := Insert(e, init);
      forall i | 0 <= i < |r| ensures Precedes(r[i].pos, last.pos) && r[i] in s + [e] {
        var k :| 0 <= k < |init + [e]| && (init + [e])[k] == r[i];
        assert k < |init| ==> s[k] == r[i] && (s + [e])[k] == r[i];
        assert (s + [e])[|s|] == e;
      }
      assert (s + [e])[|s| - 1] == last;
    }
  }

  lemma {:induction false} OrderByAscends<T>(table: seq<Entry<T>>)
    requires Distinct(table)
    ensures Ascending(OrderBy(table)) && Drawn(OrderBy(table), table)
    ensures var s := OrderBy(table);
            forall i, j :: 0 <= i < j < |s| ==>
              s[i].pos.ts < s[j].pos.ts || (s[i].pos.ts == s[j].pos.ts && s[i].pos.id < s[j].pos.id)
  {
    if table != [] {
      var init, last := table[..|table| - 1], table[|table| - 1];
      OrderByAscends(init);
      var s := OrderBy(init);
      assert table == init + [last];
      NotIn(s, init, last.pos);
      InsertAscending(last, s);
      var r := Insert(last, s);
      forall i | 0 <= i < |r| ensures r[i] in table {
        var k :| 0 <= k < |s + [last]| && (s + [last])[k] == r[i];
        assert k < |s| ==> s[k] in init;
      }
    }
  }

  /** ORDER BY loses and repeats no row. */
  lemma {:induction false} OrderByContents<T>(table: seq<Entry<T>>)
    ensures multiset(OrderBy(table)) == multiset(table)
    ensures Drawn(table, OrderBy(table))
  {
    if table != [] {
      var init, last := table[..|table| - 1], table[|table| - 1];
      OrderByContents(init);
      assert table == init + [last];
      InsertContents(last, OrderBy(init));
    }
    forall i | 0 <= i < |table| ensures table[i] in OrderBy(table) {
      assert table[i] in multiset(OrderBy(table));
    }
  }

  lemma {:induction false} NotIn<T>(s: seq<Entry<T>>, t: seq<Entry<T>>, p: Pos)
    requires Drawn(s, t) && forall i :: 0 <= i < |t| ==> t[i].pos != p
    ensures forall i :: 0 <= i < |s| ==> s[i].pos != p
  {
    forall i | 0 <= i < |s| ensures s[i].pos != p {
      assert s[i] in t;
    }
  }

  /** An ascending table is its own order. */
  lemma {:induction false} OrderByAscending<T>(s: seq<Entry<T>>)
    requires Ascending(s)
    ensures OrderBy(s) == s
  {
    if s != [] {
      var init, last := s[..|s| - 1], s[|s| - 1];
      OrderByAscending(init);
      assert s == init + [last];
    }
  }

  lemma {:induction false} InsertAfterPrefix<T>(e: Entry<T>, a: seq<Entry<T>>, b: seq<Entry<T>>)
    requires forall i :: 0 <= i < |a| ==> Precedes(a[i].pos, e.pos)
    ensures Insert(e, a + b) == a + Insert(e, b)
  {
    if b == [] {
      assert a + b == a;
    } else if Precedes(b[|b| - 1].pos, e.pos) {
      assert a + b + [e] == a + (b + [e]);
    } else {
      var init, last := b[..|b| - 1], b[|b| - 1];
      assert (a + b)[..|a + b| - 1] == a + init;
      InsertAfterPrefix(e, a, init);
      assert a + Insert(e, init) + [last] == a + (Insert(e, init) + [last]);
    }
  }

  // ---- Growth -----------------------------------------------------------------------------

  ghost predicate AllPast<T>(rows: seq<Entry<T>>, after: Option<Pos>) {
    forall i :: 0 <= i < |rows| ==> Past(rows[i].pos, after)
  }

  lemma {:induction false} GrowthKeepsPrefixWhenPast<T>(
    table: seq<Entry<T>>, added: seq<Entry<T>>, n: nat)
    requires Distinct(table + added) && n <= |table|
    requires AllPast(added, CursorAt(OrderBy(table), n))
    ensures OrderBy(table + added)[..n] == OrderBy(table)[..n]
    decreases |added|
  {
    if added == [] {
      assert table + added == table;
    } else {
      var init, e := added[..|added| - 1], added[|added| - 1];
      assert table + added == table + init + [e];
      DistinctPrefix(table + init, [e]);
      GrowthKeepsPrefixWhenPast(table, init, n);
      OrderByAscends(table + init);
      InsertKeepsPrefix(e, OrderBy(table + init), n, OrderBy(table));
      OrderByAppend(table + init, e);
    }
  }

  lemma {:induction false} InsertKeepsPrefix<T>(e: Entry<T>, s: seq<Entry<T>>, n: nat, before: seq<Entry<T>>)
    requires Ascending(s) && n <= |s| && n <= |before| && s[..n] == before[..n]
    requires Past(e.pos, CursorAt(before, n))
    ensures Insert(e, s)[..n] == before[..n]
  {
    assert n > 0 ==> s[n - 1] == s[..n][n - 1] == before[n - 1];
    assert s == s[..n] + s[n..];
    InsertAfterPrefix(e, s[..n], s[n..]);
  }

  lemma {:induction false} DistinctPrefix<T>(a: seq<Entry<T>>, b: seq<Entry<T>>)
    requires Distinct(a + b)
    ensures Distinct(a)
  {
    forall i, j | 0 <= i < j < |a| ensures a[i].pos != a[j].pos {
      assert (a + b)[i] == a[i] && (a + b)[j] == a[j];
    }
  }

  /**
   Rows inserted behind a reader: what the reader has seen stays a prefix of the feed exactly
   when every inserted row lies past the reader's cursor.
   */
  lemma {:induction false} GrowthKeepsPrefixIff<T>(table: seq<Entry<T>>, added: seq<Entry<T>>, n: nat)
    requires Distinct(table + added) && n <= |table|
    ensures AllPast(added, CursorAt(OrderBy(table), n)) <==>
            OrderBy(table + added)[..n] == OrderBy(table)[..n]
  {
    var before, now := OrderBy(table), OrderBy(table + added);
    DistinctPrefix(table, added);
    OrderByAscends(table);
    OrderByAscends(table + added);
    OrderByContents(table + added);
    if AllPast(added, CursorAt(before, n)) {
      GrowthKeepsPrefixWhenPast(table, added, n);
    }
    if now[..n] == before[..n] {
      forall k | 0 <= k < |added| ensures Past(added[k].pos, CursorAt(before, n)) {
        var e := (table + added)[|table| + k];
        assert e in now;
        var i :| 0 <= i < |now| && now[i] == e;
        forall j | 0 <= j < n ensures now[j].pos != e.pos {
          assert now[j] == now[..n][j] == before[j];
          assert before[j] in table;
          var t :| 0 <= t < |table| && table[t] == before[j];
          assert (table + added)[t] == table[t];
        }
        assert n > 0 ==> now[n - 1] == now[..n][n - 1] == before[n - 1];
      }
    }
  }

  // ---- Resuming ---------------------------------------------------------------------------

  lemma {:induction false} AfterDrawn<T>(s: seq<Entry<T>>, after: Option<Pos>)
    ensures Drawn(After(s, after), s) && AllPast(After(s, after), after)
  {
    if s != [] {
      var init, last := s[..|s| - 1], s[|s| - 1];
      var r := After(init, after);
      AfterDrawn(init, after);
      assert s == init + [last];
      forall i | 0 <= i < |r| ensures r[i] in s {
        assert r[i] in init;
      }
    }
  }

  lemma {:induction false} AfterHolds<T>(s: seq<Entry<T>>, after: Option<Pos>, i: nat)
    requires i < |s| && Past(s[i].pos, after)
    ensures s[i] in After(s, after)
  {
    if i < |s| - 1 {
      AfterHolds(s[..|s| - 1], after, i);
    }
  }

  lemma {:induction false} AfterDistinct<T>(s: seq<Entry<T>>, after: Option<Pos>)
    requires Distinct(s)
    ensures Distinct(After(s, after))
  {
    if s != [] {
      var init, last := s[..|s| - 1], s[|s| - 1];
      assert s == init + [last];
      DistinctPrefix(init, [last]);
      AfterDistinct(init, after);
      AfterDrawn(init, after);
      NotIn(After(init, after), init, last.pos);
    }
  }

  lemma {:induction false} AfterMembers<T>(s: seq<Entry<T>>, after: Option<Pos>)
    ensures Drawn(After(s, after), s) && AllPast(After(s, after), after)
    ensures forall i :: 0 <= i < |s| && Past(s[i].pos, after) ==> s[i] in After(s, after)
    ensures Distinct(s) ==> Distinct(After(s, after))
  {
    AfterDrawn(s, after);
    forall i | 0 <= i < |s| && Past(s[i].pos, after) ensures s[i] in After(s, after) {
      AfterHolds(s, after, i);
    }
    if Distinct(s) {
      AfterDistinct(s, after);
    }
  }

  lemma {:induction false} InsertLast<T>(e: Entry<T>, s: seq<Entry<T>>, t: seq<Entry<T>>)
    requires Drawn(t, s) && forall i :: 0 <= i < |s| ==> Precedes(s[i].pos, e.pos)
    ensures Insert(e, t) == t + [e]
  {
    assert t != [] ==> t[|t| - 1] in s;
  }

  lemma {:induction false} AfterInsert<T>(e: Entry<T>, s: seq<Entry<T>>, after: Option<Pos>)
    requires Ascending(s) && forall i :: 0 <= i < |s| ==> s[i].pos != e.pos
    ensures After(Insert(e, s), after) ==
            if Past(e.pos, after) then Insert(e, After(s, after)) else After(s, after)
  {
    if s == [] || Precedes(s[|s| - 1].pos, e.pos) {
      AfterAppend(s, e, after);
      AfterMembers(s, after);
      InsertLast(e, s, After(s, after));
    } else {
      var init, last := s[..|s| - 1], s[|s| - 1];
      calc {
        After(Insert(e, s), after);
        { assert s == init + [last]; InsertBefore(e, init, last); }
        After(Insert(e, init) + [last], after);
        { AfterAppend(Insert(e, init), last, after); }
        After(Insert(e, init), after) + (if Past(last.pos, after) then [last] else []);
        { AfterInsert(e, init, after); }
        (if Past(e.pos, after) then Insert(e, After(init, after)) else After(init, after))
          + (if Past(last.pos, after) then [last] else []);
        { InsertBefore(e, After(init, after), last); }
        if Past(e.pos, after) then Insert(e, After(s, after)) else After(s, after);
      }
    }
  }

  lemma {:induction false} InsertBefore<T>(e: Entry<T>, s: seq<Entry<T>>, last: Entry<T>)
    ensures !Precedes(last.pos, e.pos) ==> Insert(e, s + [last]) == Insert(e, s) + [last]
  {
    assert (s + [last])[..|s|] == s;
  }

  lemma {:induction false} OrderByAppend<T>(s: seq<Entry<T>>, e: Entry<T>)
    ensures OrderBy(s + [e]) == Insert(e, OrderBy(s))
  {
    assert (s + [e])[..|s|] == s;
  }

  lemma {:induction false} AfterAppend<T>(s: seq<Entry<T>>, e: Entry<T>, after: Option<Pos>)
    ensures After(s + [e], after) ==
            if Past(e.pos, after) then After(s, after) + [e] else After(s, after)
  {
    assert (s + [e])[..|s|] == s;
  }

  lemma {:induction false} AfterOrderByMore<T>(init: seq<Entry<T>>, last: Entry<T>, after: Option<Pos>)
    requires Distinct(init + [last]) && OrderBy(After(init, after)) == After(OrderBy(init), after)
    ensures OrderBy(After(init + [last], after)) == After(OrderBy(init + [last]), after)
  {
    DistinctPrefix(init, [last]);
    LastIsOther(init, last);
    OrderByAscends(init);
    NotIn(OrderBy(init), init, last.pos);
    AfterInsert(last, OrderBy(init), after);
    OrderByAppend(init, last);
    AfterAppend(init, last, after);
    OrderByAppend(After(init, after), last);
  }

  lemma {:induction false} LastIsOther<T>(init: seq<Entry<T>>, last: Entry<T>)
    requires Distinct(init + [last])
    ensures forall i :: 0 <= i < |init| ==> init[i].pos != last.pos
  {
    forall i | 0 <= i < |init| ensures init[i].pos != last.pos {
      assert (init + [last])[i] == init[i] && (init + [last])[|init|] == last;
    }
  }

  /** Filtering before or after sorting makes no difference. */
  lemma {:induction false} AfterOrderBy<T>(table: seq<Entry<T>>, after: Option<Pos>)
    requires Distinct(table)
    ensures OrderBy(After(table, after)) == After(OrderBy(table), after)
  {
    if table != [] {
      var init, last := table[..|table| - 1], table[|table| - 1];
      assert table == init + [last];
      DistinctPrefix(init, [last]);
      AfterOrderBy(init, after);
      AfterOrderByMore(init, last, after);
    }
  }

  lemma {:induction false} AfterNothing<T>(s: seq<Entry<T>>, after: Option<Pos>)
    requires forall i :: 0 <= i < |s| ==> !Past(s[i].pos, after)
    ensures After(s, after) == []
  {
    if s != [] {
      AfterNothing(s[..|s| - 1], after);
    }
  }

  lemma {:induction false} AfterCursor<T>(feed: seq<Entry<T>>, n: nat)
    requires Ascending(feed) && n <= |feed|
    ensures After(feed, CursorAt(feed, n)) == feed[n..]
  {
    if n == |feed| {
      AfterNothing(feed, CursorAt(feed, n));
    } else {
      var init, last := feed[..|feed| - 1], feed[|feed| - 1];
      assert CursorAt(init, n) == CursorAt(feed, n);
      AfterCursor(init, n);
      assert feed[n..] == init[n..] + [last];
    }
  }

  /**
   A page read by a reader that has seen `n` rows: the next `limit` rows of the feed, and
   `hasMore` exactly when rows remain past them.
   */
  lemma {:induction false} ReadPageIsNextSlice<T>(table: seq<Entry<T>>, n: nat, limit: nat)
    requires Distinct(table) && n <= |table|
    ensures var feed := OrderBy(table);
            var page := ReadPage(table, CursorAt(feed, n), limit);
            var m := Min(n + limit, |feed|);
            && page.rows == feed[n..m]
            && (page.hasMore <==> m < |feed|)
  {
    var feed := OrderBy(table);
    OrderByAscends(table);
    AfterOrderBy(table, CursorAt(feed, n));
    AfterCursor(feed, n);
    TakeTwice(feed, n, limit);
  }

  lemma {:induction false} TakeTwice<T>(feed: seq<T>, n: nat, limit: nat)
    requires n <= |feed|
    ensures var m := Min(n + limit, |feed|);
            && Take(Take(feed[n..], limit + 1), limit) == feed[n..m]
            && (|Take(feed[n..], limit + 1)| > limit <==> m < |feed|)
  {
  }

  // ---- From any cursor --------------------------------------------------------------------

  /** What is unread at a cursor, in order. */
  function Upcoming<T>(table: seq<Entry<T>>, cursor: Option<Pos>): seq<Entry<T>> {
    OrderBy(After(table, cursor))
  }

  lemma {:induction false} ReadPageIsFront<T>(table: seq<Entry<T>>, cursor: Option<Pos>, limit: nat)
    ensures var unread, page := Upcoming(table, cursor), ReadPage(table, cursor, limit);
            page.rows == Take(unread, limit) && (page.hasMore <==> |unread| > limit)
  {
    var unread := Upcoming(table, cursor);
    assert Take(Take(unread, limit + 1), limit) == Take(unread, limit);
  }

  lemma {:induction false} UpcomingOrdered<T>(table: seq<Entry<T>>, cursor: Option<Pos>)
    requires Distinct(table)
    ensures Ascending(Upcoming(table, cursor)) && AllPast(Upcoming(table, cursor), cursor)
    ensures forall i :: 0 <= i < |Upcoming(table, cursor)| ==> Upcoming(table, cursor)[i] in table
  {
    var after, unread := After(table, cursor), Upcoming(table, cursor);
    AfterDrawn(table, cursor);
    AfterDistinct(table, cursor);
    OrderByAscends(after);
    forall i | 0 <= i < |unread| ensures Past(unread[i].pos, cursor) && unread[i] in table {
      assert unread[i] in after;
    }
  }

  lemma {:induction false} UpcomingHolds<T>(table: seq<Entry<T>>, cursor: Option<Pos>, e: Entry<T>)
    requires e in table && Past(e.pos, cursor)
    ensures e in Upcoming(table, cursor)
  {
    var i :| 0 <= i < |table| && table[i] == e;
    AfterHolds(table, cursor, i);
    OrderByContents(After(table, cursor));
  }

  lemma {:induction false} LeftOut<T>(unread: seq<Entry<T>>, limit: nat, e: Entry<T>)
    requires Ascending(unread) && e in unread && e !in Take(unread, limit)
    ensures |unread| > limit && (limit > 0 ==> Precedes(unread[limit - 1].pos, e.pos))
  {
    var i: nat :| i < |unread| && unread[i] == e;
    if i < limit {
      InFront(unread, limit, i);
    }
  }

  lemma {:induction false} InFront<T>(s: seq<T>, n: nat, i: nat)
    requires i < n && i < |s|
    ensures s[i] in Take(s, n)
  {
    assert Take(s, n)[i] == s[i];
  }
}
