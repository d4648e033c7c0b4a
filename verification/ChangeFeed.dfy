/**
 The change feed: consumers poll the outbox in (created_at, id) order and fold what they
 read into a replica of the events.
 */
module ChangeFeed {
  import opened Arithmetic
  import opened Basics
  import opened Sequences
  import opened Keyset
  import opened Schema
  import opened Events
  import opened History

  // ---- A reader of a growing table --------------------------------------------------------

  /** `poll_changes`: the page and the cursor to resume from; an empty page keeps the cursor. */
  datatype Response<+T> = Response(rows: seq<Entry<T>>, nextCursor: Option<Pos>, hasMore: bool)

  function PollChanges<T>(table: seq<Entry<T>>, cursor: Option<Pos>, limit: nat): Response<T> {
    var page := ReadPage(table, cursor, limit);
    var next := if page.rows == [] then cursor else Some(page.rows[|page.rows| - 1].pos);
    Response(page.rows, next, page.hasMore)
  }

  datatype Reader<+T> = Reader(table: seq<Entry<T>>, cursor: Option<Pos>, returned: seq<Entry<T>>)

  /** Rows are appended to the table, then the reader polls. */
  datatype Visit<+T> = Visit(added: seq<Entry<T>>, limit: nat)

  function Read<T>(r: Reader<T>, v: Visit<T>): Reader<T> {
    var response := PollChanges(r.table + v.added, r.cursor, v.limit);
    Reader(r.table + v.added, response.nextCursor, r.returned + response.rows)
  }

  function ReaderAfter<T>(visits: seq<Visit<T>>): Reader<T> {
    if visits == [] then Reader([], None, [])
    else Read(ReaderAfter(visits[..|visits| - 1]), visits[|visits| - 1])
  }

  /** What was returned is the beginning of the ordered table: nothing skipped, nothing repeated. */
  ghost predicate ReadsPrefix<T>(r: Reader<T>) {
    var n := |r.returned|;
    && n <= |r.table|
    && r.returned == OrderBy(r.table)[..n]
    && r.cursor == CursorAt(OrderBy(r.table), n)
  }

  /** Every row added before a visit lies past the cursor the reader then holds. */
  ghost predicate AddsAhead<T>(visits: seq<Visit<T>>) {
    visits != [] ==>
      var init, last := visits[..|visits| - 1], visits[|visits| - 1];
      AddsAhead(init) && AllPast(last.added, ReaderAfter(init).cursor)
  }

  /** After every visit the reader has read a prefix. */
  ghost predicate AlwaysReadsPrefix<T>(visits: seq<Visit<T>>) {
    && ReadsPrefix(ReaderAfter(visits))
    && (visits != [] ==> AlwaysReadsPrefix(visits[..|visits| - 1]))
  }

  /** A poll extends what was read by the next slice of the ordered table. */
  lemma {:induction false} PollExtendsPrefix<T>(table: seq<Entry<T>>, n: nat, limit: nat)
    requires Distinct(table) && n <= |table|
    ensures var feed := OrderBy(table);
            var response := PollChanges(table, CursorAt(feed, n), limit);
            var m := n + |response.rows|;
            && m == Min(n + limit, |feed|)
            && response.rows == feed[n..m]
            && feed[..n] + response.rows == feed[..m]
            && response.nextCursor == CursorAt(feed, m)
            && (response.hasMore <==> m < |feed|)
  {
    var feed := OrderBy(table);
    var m := Min(n + limit, |feed|);
    ReadPageIsNextSlice(table, n, limit);
    Slices(feed, n, m);
    CursorMoves(feed, n, m);
  }

  /**
   For any cursor, and in the columns of the rows: a page ascends by created_at, then id, holds
   rows of the table past the cursor, and the next cursor is that of its last row.
   */
  lemma {:induction false} PageInTimeOrder<T>(table: seq<Entry<T>>, cursor: Option<Pos>, limit: nat)
    requires Distinct(table)
    ensures var response := PollChanges(table, cursor, limit);
            var rows := response.rows;
            && |rows| <= limit
            && response.nextCursor == (if rows == [] then cursor else Some(rows[|rows| - 1].pos))
            && (forall i, j :: 0 <= i < j < |rows| ==>
                  || rows[i].pos.ts < rows[j].pos.ts
                  || (rows[i].pos.ts == rows[j].pos.ts && rows[i].pos.id < rows[j].pos.id))
            && forall i :: 0 <= i < |rows| ==>
                 && rows[i] in table
                 && (|| cursor.None? || cursor.value.ts < rows[i].pos.ts
                     || (cursor.value.ts == rows[i].pos.ts && cursor.value.id < rows[i].pos.id))
  {
    ReadPageIsFront(table, cursor, limit);
    UpcomingOrdered(table, cursor);
  }

  /** What a page leaves unread comes after its last row, in the same terms, and the page says so. */
  lemma {:induction false} UnreadIsLater<T>(table: seq<Entry<T>>, cursor: Option<Pos>, limit: nat, e: Entry<T>)
    requires Distinct(table) && e in table && e !in PollChanges(table, cursor, limit).rows
    requires || cursor.None? || cursor.value.ts < e.pos.ts
             || (cursor.value.ts == e.pos.ts && cursor.value.id < e.pos.id)
    ensures var response := PollChanges(table, cursor, limit);
            && response.hasMore && |response.rows| == limit
            && (limit > 0 ==>
                  var last := response.nextCursor;
                  && last.Some?
                  && (|| last.value.ts < e.pos.ts
                      || (last.value.ts == e.pos.ts && last.value.id < e.pos.id)))
  {
    ReadPageIsFront(table, cursor, limit);
    UpcomingOrdered(table, cursor);
    UpcomingHolds(table, cursor, e);
    LeftOut(Upcoming(table, cursor), limit, e);
  }

  lemma {:induction false} CursorMoves<T>(feed: seq<Entry<T>>, n: nat, m: nat)
    requires n <= m <= |feed|
    ensures var rows := feed[n..m];
            (if rows == [] then CursorAt(feed, n) else Some(rows[|rows| - 1].pos)) == CursorAt(feed, m)
  {
    assert m > n ==> feed[n..m][m - n - 1] == feed[m - 1];
  }

  lemma {:induction false} Slices<T>(s: seq<T>, n: nat, m: nat)
    requires n <= m <= |s|
    ensures s[..n] + s[n..m] == s[..m] && |s[n..m]| == m - n
    ensures m > n ==> s[n..m][m - n - 1] == s[m - 1]
  {
  }

  lemma {:induction false} ReadKeepsPrefix<T>(r: Reader<T>, v: Visit<T>)
    requires ReadsPrefix(r) && Distinct(r.table + v.added) && AllPast(v.added, r.cursor)
    ensures ReadsPrefix(Read(r, v))
  {
    var n, table := |r.returned|, r.table + v.added;
    GrowthKeepsPrefixIff(r.table, v.added, n);
    CursorOfPrefix(OrderBy(r.table), OrderBy(table), n);
    PollReadsPrefix(Reader(table, r.cursor, r.returned), v.limit);
  }

  lemma {:induction false} PollReadsPrefix<T>(r: Reader<T>, limit: nat)
    requires ReadsPrefix(r) && Distinct(r.table)
    ensures var response := PollChanges(r.table, r.cursor, limit);
            ReadsPrefix(Reader(r.table, response.nextCursor, r.returned + response.rows))
  {
    var n, response := |r.returned|, PollChanges(r.table, r.cursor, limit);
    PollFrom(r.table, r.cursor, n, limit);
    PrefixRead(Reader(r.table, response.nextCursor, r.returned + response.rows), n + |response.rows|);
  }

  lemma {:induction false} PollFrom<T>(table: seq<Entry<T>>, cursor: Option<Pos>, n: nat, limit: nat)
    requires Distinct(table) && n <= |table| && cursor == CursorAt(OrderBy(table), n)
    ensures var response := PollChanges(table, cursor, limit);
            var m := n + |response.rows|;
            && m <= |table|
            && OrderBy(table)[..n] + response.rows == OrderBy(table)[..m]
            && response.nextCursor == CursorAt(OrderBy(table), m)
  {
    PollExtendsPrefix(table, n, limit);
  }

  lemma {:induction false} PrefixRead<T>(r: Reader<T>, m: nat)
    requires m <= |r.table| && r.returned == OrderBy(r.table)[..m] && r.cursor == CursorAt(OrderBy(r.table), m)
    ensures ReadsPrefix(r)
  {
    assert |OrderBy(r.table)[..m]| == m;
  }

  lemma {:induction false} CursorOfPrefix<T>(a: seq<Entry<T>>, b: seq<Entry<T>>, n: nat)
    requires n <= |a| && n <= |b| && a[..n] == b[..n]
    ensures CursorAt(a, n) == CursorAt(b, n)
  {
    assert n > 0 ==> a[n - 1] == a[..n][n - 1] == b[..n][n - 1];
  }

  lemma {:induction false} ReadKeepsPrefixIff<T>(r: Reader<T>, v: Visit<T>)
    requires ReadsPrefix(r) && Distinct(r.table + v.added)
    ensures AllPast(v.added, r.cursor) <==> ReadsPrefix(Read(r, v))
  {
    if AllPast(v.added, r.cursor) {
      ReadKeepsPrefix(r, v);
    } else if ReadsPrefix(Read(r, v)) {
      var n, m, now := |r.returned|, |Read(r, v).returned|, OrderBy(r.table + v.added);
      assert r.returned == Read(r, v).returned[..n] == now[..m][..n] == now[..n];
      GrowthKeepsPrefixIff(r.table, v.added, n);
    }
  }

  /**
   The feed walk.  For any page limits and any growth, every poll leaves the reader with
   exactly the beginning of the ordered feed if and only if no row is ever added at or
   behind the reader's cursor.
   */
  lemma {:induction false} FeedWalkIff<T>(visits: seq<Visit<T>>)
    requires Distinct(ReaderAfter(visits).table)
    ensures AddsAhead(visits) <==> AlwaysReadsPrefix(visits)
  {
    if visits != [] {
      var init, last := visits[..|visits| - 1], visits[|visits| - 1];
      DistinctPrefix(ReaderAfter(init).table, last.added);
      FeedWalkIff(init);
      if AlwaysReadsPrefix(init) {
        ReadKeepsPrefixIff(ReaderAfter(init), last);
      }
    }
  }

  /** The clock is monotone: every row added is created later than all rows there are. */
  ghost predicate AddsLater<T>(visits: seq<Visit<T>>) {
    visits != [] ==>
      var init, last := visits[..|visits| - 1], visits[|visits| - 1];
      && AddsLater(init)
      && forall i, j :: 0 <= i < |ReaderAfter(init).table| && 0 <= j < |last.added| ==>
           ReaderAfter(init).table[i].pos.ts < last.added[j].pos.ts
  }

  lemma {:induction false} LaterIsAhead<T>(r: Reader<T>, added: seq<Entry<T>>)
    requires Distinct(r.table) && ReadsPrefix(r)
    requires forall i, j :: 0 <= i < |r.table| && 0 <= j < |added| ==> r.table[i].pos.ts < added[j].pos.ts
    ensures AllPast(added, r.cursor)
  {
    OrderByAscends(r.table);
    if |r.returned| > 0 {
      assert OrderBy(r.table)[|r.returned| - 1] in r.table;
    }
  }

  /**
   Under a monotone clock every reader has, after every poll, read a beginning of the feed, in
   the order of created_at, then id.
   */
  lemma {:induction false} ClockedWalk<T>(visits: seq<Visit<T>>)
    requires Distinct(ReaderAfter(visits).table) && AddsLater(visits)
    ensures AddsAhead(visits) && AlwaysReadsPrefix(visits)
    ensures var read := ReaderAfter(visits).returned;
            forall i, j :: 0 <= i < j < |read| ==>
              || read[i].pos.ts < read[j].pos.ts
              || (read[i].pos.ts == read[j].pos.ts && read[i].pos.id < read[j].pos.id)
  {
    if visits != [] {
      var init, last := visits[..|visits| - 1], visits[|visits| - 1];
      DistinctPrefix(ReaderAfter(init).table, last.added);
      ClockedWalk(init);
      LaterIsAhead(ReaderAfter(init), last.added);
    }
    FeedWalkIff(visits);
    OrderByAscends(ReaderAfter(visits).table);
  }

  /** One round of `stream_changes`: every row sent moves the position that the next round starts from. */
  method StreamRound<T>(table: seq<Entry<T>>, after: Option<Pos>, limit: nat)
    returns (sent: seq<Entry<T>>, next: Option<Pos>)
    ensures sent == PollChanges(table, after, limit).rows
    ensures next == PollChanges(table, after, limit).nextCursor
  {
    var rows := Fetch(table, after, limit);
    assert Take(Fetch(table, after, limit + 1), limit) == rows;
    sent, next := [], after;
    for i := 0 to |rows|
      invariant sent == rows[..i]
      invariant next == if i == 0 then after else Some(rows[i - 1].pos)
    {
      next := Some(rows[i].pos);
      sent := sent + [rows[i]];
    }
    assert rows[..|rows|] == rows;
  }

  // ---- Replay -----------------------------------------------------------------------------

  function Feed(outbox: seq<OutboxRow>): (r: seq<Entry<Change>>)
    ensures |r| == |outbox|
    ensures forall i :: 0 <= i < |r| ==> r[i] == Entry(outbox[i].pos, outbox[i].change)
  {
    seq(|outbox|, i requires 0 <= i < |outbox| => Entry(outbox[i].pos, outbox[i].change))
  }

  /** Folding rows into a replica: the last row of an event wins. */
  function Apply(replica: map<Uuid, Change>, rows: seq<Entry<Change>>): map<Uuid, Change> {
    if rows == [] then replica
    else
      var last := rows[|rows| - 1].item;
      Apply(replica, rows[..|rows| - 1])[last.eventId := last]
  }

  function Replay(rows: seq<Entry<Change>>): map<Uuid, Change> {
    Apply(map[], rows)
  }

  lemma {:induction false} ApplyConcat(replica: map<Uuid, Change>, a: seq<Entry<Change>>, b: seq<Entry<Change>>)
    ensures Apply(replica, a + b) == Apply(Apply(replica, a), b)
    decreases |b|
  {
    if b == [] {
      assert a + b == a;
    } else {
      assert (a + b)[..|a + b| - 1] == a + b[..|b| - 1];
      ApplyConcat(replica, a, b[..|b| - 1]);
    }
  }

  /** The rows of one event. */
  function Of(id: Uuid, rows: seq<Entry<Change>>): seq<Entry<Change>> {
    if rows == [] then []
    else
      var last := rows[|rows| - 1];
      Of(id, rows[..|rows| - 1]) + (if last.item.eventId == id then [last] else [])
  }

  lemma {:induction false} OfAppend(id: Uuid, rows: seq<Entry<Change>>, e: Entry<Change>)
    ensures Of(id, rows + [e]) == if e.item.eventId == id then Of(id, rows) + [e] else Of(id, rows)
  {
    assert (rows + [e])[..|rows|] == rows;
  }

  lemma {:induction false} ReplayIsLast(rows: seq<Entry<Change>>, id: Uuid)
    ensures id in Replay(rows) <==> Of(id, rows) != []
    ensures id in Replay(rows) ==> Replay(rows)[id] == Of(id, rows)[|Of(id, rows)| - 1].item
  {
    if rows != [] {
      ReplayIsLast(rows[..|rows| - 1], id);
    }
  }

  /** Within one event, rows were written in feed order. */
  ghost predicate EventsAscend(rows: seq<Entry<Change>>) {
    forall i, j :: 0 <= i < j < |rows| && rows[i].item.eventId == rows[j].item.eventId ==>
      Precedes(rows[i].pos, rows[j].pos)
  }

  lemma {:induction false} OfInsert(id: Uuid, e: Entry<Change>, s: seq<Entry<Change>>)
    requires forall i :: 0 <= i < |s| && s[i].item.eventId == e.item.eventId ==> Precedes(s[i].pos, e.pos)
    ensures Of(id, Insert(e, s)) == if e.item.eventId == id then Of(id, s) + [e] else Of(id, s)
  {
    if s == [] || Precedes(s[|s| - 1].pos, e.pos) {
      OfAppend(id, s, e);
    } else {
      var init, last := s[..|s| - 1], s[|s| - 1];
      OfInsert(id, e, init);
      OfAppend(id, Insert(e, init), last);
    }
  }

  /** Sorting the feed does not disturb the order within an event. */
  lemma {:induction false} OfOrderBy(id: Uuid, rows: seq<Entry<Change>>)
    requires Distinct(rows) && EventsAscend(rows)
    ensures Of(id, OrderBy(rows)) == Of(id, rows)
  {
    if rows != [] {
      var init, last := rows[..|rows| - 1], rows[|rows| - 1];
      assert rows == init + [last];
      DistinctPrefix(init, [last]);
      OfOrderBy(id, init);
      OrderByAscends(init);
      var s: seq<Entry<Change>> := OrderBy(init);
      forall i | 0 <= i < |s| && s[i].item.eventId == last.item.eventId
        ensures Precedes(s[i].pos, last.pos)
      {
        assert s[i] in init;
      }
      OfInsert(id, last, s);
    }
  }

  lemma {:induction false} FeedAppend(outbox: seq<OutboxRow>, row: OutboxRow)
    ensures Feed(outbox + [row]) == Feed(outbox) + [Entry(row.pos, row.change)]
  {
  }

  lemma {:induction false} OfFeed(id: Uuid, outbox: seq<OutboxRow>)
    ensures Of(id, Feed(outbox)) == Feed(RowsOf(id, outbox))
  {
    if outbox != [] {
      var init, last := outbox[..|outbox| - 1], outbox[|outbox| - 1];
      assert outbox == init + [last];
      OfFeed(id, init);
      OfFeedMore(id, init, last);
    }
  }

  lemma {:induction false} OfFeedMore(id: Uuid, init: seq<OutboxRow>, last: OutboxRow)
    requires Of(id, Feed(init)) == Feed(RowsOf(id, init))
    ensures Of(id, Feed(init + [last])) == Feed(RowsOf(id, init + [last]))
  {
    FeedAppend(init, last);
    OfAppend(id, Feed(init), Entry(last.pos, last.change));
    RowsOfAppend(id, init, last);
    FeedAppend(RowsOf(id, init), last);
  }

  // ---- The whole system -------------------------------------------------------------------

  /** Every outbox row belongs to the event that its natural key names. */
  ghost predicate Owned(db: Store) {
    forall i :: 0 <= i < |db.outbox| ==>
      var c := db.outbox[i].change;
      && Key(c.source, c.externalId) in db.events
      && db.events[Key(c.source, c.externalId)].id == c.eventId
  }

  /** The replica holds, for every event and nothing else, what its row now says. */
  ghost predicate Mirrors(replica: map<Uuid, Change>, events: map<Key, Event>) {
    && (forall k :: k in events ==>
          var ev := events[k];
          && ev.id in replica
          && var c := replica[ev.id];
          && c.eventId == ev.id && c.source == ev.source && c.externalId == ev.externalId
          && c.eventType == ev.eventType && c.content == ev.content
          && c.version == ev.version && c.schemaVersion == ev.schemaVersion)
    && (forall id :: id in replica ==>
          var c := replica[id];
          && Key(c.source, c.externalId) in events
          && events[Key(c.source, c.externalId)].id == id)
  }

  /** Publishers change the delivery fields of rows and nothing that the feed shows. */
  ghost predicate SameFeed(a: seq<OutboxRow>, b: seq<OutboxRow>) {
    Feed(a) == Feed(b)
  }

  /**
   The store, everything submitted so far, and a consumer with its cursor, its replica and
   the number of rows it has read.
   */
  datatype System = System(
    db: Store, submitted: seq<Item>, cursor: Option<Pos>, replica: map<Uuid, Change>, read: nat)

  datatype Step =
    | Upsert(items: seq<Item>)
    | Publish(rows: seq<OutboxRow>)
    | Poll(limit: nat)

  const START := System(EMPTY, [], None, map[], 0)

  /** The new positions are distinct and later than every committed one. */
  ghost predicate LaterPositions(outbox: seq<OutboxRow>, items: seq<Item>) {
    && (forall i, j :: 0 <= i < j < |items| ==> items[i].pos != items[j].pos)
    && (forall i, j :: 0 <= i < |outbox| && 0 <= j < |items| ==> Precedes(outbox[i].pos, items[j].pos))
  }

  /** Under a monotone clock a call's rows come later than all committed ones. */
  lemma {:induction false} LaterByClock(outbox: seq<OutboxRow>, items: seq<Item>)
    requires forall i, j :: 0 <= i < j < |items| ==> items[i].pos.id != items[j].pos.id
    requires forall i, j :: 0 <= i < |outbox| && 0 <= j < |items| ==> outbox[i].pos.ts < items[j].pos.ts
    ensures LaterPositions(outbox, items)
  {
  }

  ghost predicate Enabled(s: System, step: Step) {
    match step
    case Upsert(items) =>
      DistinctKeys(items) && FreshItems(s.submitted + items) && LaterPositions(s.db.outbox, items)
    case Publish(rows) => SameFeed(rows, s.db.outbox)
    case Poll(limit) => limit >= 1
  }

  function Next(s: System, step: Step): System {
    match step
    case Upsert(items) => s.(db := UpsertAll(s.db, items), submitted := s.submitted + items)
    case Publish(rows) => s.(db := s.db.(outbox := rows))
    case Poll(limit) =>
      var response := PollChanges(Feed(s.db.outbox), s.cursor, limit);
      s.(cursor := response.nextCursor,
         replica := Apply(s.replica, response.rows),
         read := s.read + |response.rows|)
  }

  ghost predicate Invariant(s: System) {
    && FreshItems(s.submitted)
    && Consistent(s.db, s.submitted)
    && Owned(s.db)
    && Distinct(Feed(s.db.outbox)) && EventsAscend(Feed(s.db.outbox))
    && s.read <= |s.db.outbox|
    && s.cursor == CursorAt(OrderBy(Feed(s.db.outbox)), s.read)
    && s.replica == Replay(OrderBy(Feed(s.db.outbox))[..s.read])
  }

  // -- Upsert --

  lemma {:induction false} UpsertKeepsRecords(db: Store, submitted: seq<Item>, item: Item)
    requires Consistent(db, submitted) && FreshItems(submitted + [item]) && Owned(db)
    ensures Consistent(UpsertOne(db, item), submitted + [item]) && Owned(UpsertOne(db, item))
  {
    assert item.eventId !in DrawnIds(submitted) by {
      forall i | 0 <= i < |submitted| ensures submitted[i].eventId != item.eventId {
        assert (submitted + [item])[i] == submitted[i];
        assert (submitted + [item])[|submitted|] == item;
      }
    }
    ConsistentStep(db, submitted, item);
    OwnedStep(db, item);
  }

  lemma {:induction false} OwnedStep(db: Store, item: Item)
    requires Constraints(db) && Owned(db)
    ensures Owned(UpsertOne(db, item))
  {
    var rows := UpsertOne(db, item).outbox;
    forall i | 0 <= i < |rows|
      ensures var c := rows[i].change;
              && Key(c.source, c.externalId) in UpsertOne(db, item).events
              && UpsertOne(db, item).events[Key(c.source, c.externalId)].id == c.eventId
    {
      if i < |db.outbox| {
        assert rows[i] == db.outbox[i];
      }
    }
  }

  lemma {:induction false} UpsertAllKeepsRecords(db: Store, submitted: seq<Item>, items: seq<Item>)
    requires Consistent(db, submitted) && FreshItems(submitted + items) && Owned(db)
    ensures Consistent(UpsertAll(db, items), submitted + items) && Owned(UpsertAll(db, items))
    decreases |items|
  {
    if items == [] {
      assert submitted + items == submitted;
    } else {
      var init, last := items[..|items| - 1], items[|items| - 1];
      assert submitted + items == submitted + init + [last];
      FreshPrefix(submitted + init, last);
      UpsertAllKeepsRecords(db, submitted, init);
      UpsertKeepsRecords(UpsertAll(db, init), submitted + init, last);
    }
  }

  ghost predicate Keyed(events: map<Key, Event>) {
    forall k :: k in events ==> events[k].NaturalKey() == k
  }

  /** A call appends one row per item, at its position and for its key. */
  ghost predicate Appends(before: seq<OutboxRow>, now: seq<OutboxRow>, items: seq<Item>) {
    && |now| == |before| + |items|
    && (forall i :: 0 <= i < |before| ==> now[i] == before[i])
    && forall i :: 0 <= i < |items| ==>
         var row := now[|before| + i];
         && row.pos == items[i].pos
         && Key(row.change.source, row.change.externalId) == items[i].NaturalKey()
  }

  lemma {:induction false} UpsertAllAppends(db: Store, items: seq<Item>)
    requires Keyed(db.events)
    ensures Keyed(UpsertAll(db, items).events)
    ensures Appends(db.outbox, UpsertAll(db, items).outbox, items)
  {
    if items != [] {
      UpsertAllAppends(db, items[..|items| - 1]);
    }
  }

  lemma {:induction false} FreshPrefix(items: seq<Item>, item: Item)
    requires FreshItems(items + [item])
    ensures FreshItems(items)
  {
    forall i, j | 0 <= i < j < |items| ensures items[i].eventId != items[j].eventId {
      assert (items + [item])[i] == items[i] && (items + [item])[j] == items[j];
    }
  }

  /** New rows come after all old ones, and a call writes at most one row per event. */
  lemma {:induction false} AppendKeepsOrder(before: seq<OutboxRow>, db: Store, items: seq<Item>)
    requires Constraints(db) && Owned(db) && Appends(before, db.outbox, items)
    requires DistinctKeys(items) && LaterPositions(before, items)
    requires Distinct(Feed(before)) && EventsAscend(Feed(before))
    ensures Distinct(Feed(db.outbox)) && EventsAscend(Feed(db.outbox))
  {
    var n, now := |before|, db.outbox;
    forall i, j | 0 <= i < j < |now|
      ensures now[i].pos != now[j].pos
      ensures now[i].change.eventId == now[j].change.eventId ==> Precedes(now[i].pos, now[j].pos)
    {
      if j < n {
        assert Feed(before)[i].pos == now[i].pos && Feed(before)[j].pos == now[j].pos;
      } else if i < n {
        assert now[i] == before[i] && now[j].pos == items[j - n].pos;
      } else {
        SameCallOtherEvent(before, db, items, i - n, j - n);
      }
    }
  }

  lemma {:induction false} SameCallOtherEvent(before: seq<OutboxRow>, db: Store, items: seq<Item>, i: nat, j: nat)
    requires Constraints(db) && Owned(db) && Appends(before, db.outbox, items)
    requires DistinctKeys(items) && LaterPositions(before, items) && i < j < |items|
    ensures var a, b := db.outbox[|before| + i], db.outbox[|before| + j];
            a.change.eventId != b.change.eventId && a.pos != b.pos
  {
    assert items[i].NaturalKey() != items[j].NaturalKey();
  }

  /** What a reader has read stays the beginning of the feed when later rows are appended. */
  lemma {:induction false} AppendKeepsReading(before: seq<OutboxRow>, now: seq<OutboxRow>, items: seq<Item>, read: nat)
    requires Appends(before, now, items) && LaterPositions(before, items) && read <= |before|
    requires Distinct(Feed(now))
    ensures OrderBy(Feed(now))[..read] == OrderBy(Feed(before))[..read]
    ensures CursorAt(OrderBy(Feed(now)), read) == CursorAt(OrderBy(Feed(before)), read)
  {
    var added := Feed(now)[|before|..];
    assert Feed(now) == Feed(before) + added;
    DistinctPrefix(Feed(before), added);
    OrderByAscends(Feed(before));
    if read > 0 {
      assert OrderBy(Feed(before))[read - 1] in Feed(before);
      forall i | 0 <= i < |added| ensures Past(added[i].pos, CursorAt(OrderBy(Feed(before)), read)) {
        assert added[i].pos == now[|before| + i].pos == items[i].pos;
      }
    }
    GrowthKeepsPrefixWhenPast(Feed(before), added, read);
    assert read > 0 ==>
        OrderBy(Feed(now))[read - 1] == OrderBy(Feed(now))[..read][read - 1]
        == OrderBy(Feed(before))[..read][read - 1];
  }

  lemma {:induction false} InvariantUpsert(s: System, items: seq<Item>)
    requires Invariant(s) && Enabled(s, Upsert(items))
    ensures Invariant(Next(s, Upsert(items)))
  {
    var db := UpsertAll(s.db, items);
    UpsertAllKeepsRecords(s.db, s.submitted, items);
    UpsertAllAppends(s.db, items);
    AppendKeepsOrder(s.db.outbox, db, items);
    AppendKeepsReading(s.db.outbox, db.outbox, items, s.read);
  }

  lemma {:induction false} InvariantPublish(s: System, rows: seq<OutboxRow>)
    requires Invariant(s) && Enabled(s, Publish(rows))
    ensures Invariant(Next(s, Publish(rows)))
  {
    SameFeedConsistent(s.db, rows, s.submitted);
    forall i | 0 <= i < |rows| ensures rows[i].change == s.db.outbox[i].change {
      assert Feed(rows)[i] == Feed(s.db.outbox)[i];
    }
  }

  lemma {:induction false} InvariantPoll(s: System, limit: nat)
    requires Invariant(s) && Enabled(s, Poll(limit))
    ensures Invariant(Next(s, Poll(limit)))
  {
    PollMoves(s, limit);
  }

  /** A poll changes nothing but the consumer, which then has read a longer prefix. */
  lemma {:induction false} PollMoves(s: System, limit: nat)
    requires Distinct(Feed(s.db.outbox)) && s.read <= |s.db.outbox|
    requires s.cursor == CursorAt(OrderBy(Feed(s.db.outbox)), s.read)
    requires s.replica == Replay(OrderBy(Feed(s.db.outbox))[..s.read])
    ensures var next, feed := Next(s, Poll(limit)), OrderBy(Feed(s.db.outbox));
            && next.db == s.db && next.submitted == s.submitted && next.read <= |s.db.outbox|
            && next.cursor == CursorAt(feed, next.read) && next.replica == Replay(feed[..next.read])
  {
    PollReplays(Feed(s.db.outbox), s.read, limit);
  }

  /** A poll moves the cursor and the replica on to a longer prefix. */
  lemma {:induction false} PollReplays(table: seq<Entry<Change>>, read: nat, limit: nat)
    requires Distinct(table) && read <= |table|
    ensures var feed := OrderBy(table);
            var response := PollChanges(table, CursorAt(feed, read), limit);
            var n := read + |response.rows|;
            && n <= |table|
            && response.nextCursor == CursorAt(feed, n)
            && Apply(Replay(feed[..read]), response.rows) == Replay(feed[..n])
  {
    var feed := OrderBy(table);
    var rows := PollChanges(table, CursorAt(feed, read), limit).rows;
    PollFrom(table, CursorAt(feed, read), read, limit);
    ReplayMore(feed, read, rows, read + |rows|);
  }

  lemma {:induction false} ReplayMore(feed: seq<Entry<Change>>, read: nat, rows: seq<Entry<Change>>, n: nat)
    requires read <= |feed| && n <= |feed| && feed[..read] + rows == feed[..n]
    ensures Apply(Replay(feed[..read]), rows) == Replay(feed[..n])
  {
    ApplyConcat(map[], feed[..read], rows);
  }

  function Run(steps: seq<Step>): System {
    if steps == [] then START else Next(Run(steps[..|steps| - 1]), steps[|steps| - 1])
  }

  ghost predicate Legal(steps: seq<Step>) {
    forall i :: 0 <= i < |steps| ==> Enabled(Run(steps[..i]), steps[i])
  }

  /**
   In every interleaving of upserts, publisher runs and polls, the consumer's replica is the
   replay of the rows of the feed up to its cursor.
   */
  lemma {:induction false} ReplicaReplaysPrefix(steps: seq<Step>)
    requires Legal(steps)
    ensures Invariant(Run(steps))
  {
    if steps == [] {
      HistoryTheorem([]);
    } else {
      var init, last := steps[..|steps| - 1], steps[|steps| - 1];
      assert forall i :: 0 <= i < |init| ==> init[..i] == steps[..i];
      ReplicaReplaysPrefix(init);
      match last
      case Upsert(items) => InvariantUpsert(Run(init), items);
      case Publish(rows) => InvariantPublish(Run(init), rows);
      case Poll(limit) => InvariantPoll(Run(init), limit);
    }
  }

  /**
   Once a poll reports that nothing remains, the replica equals the events table on source,
   external id, event type, content, version and schema version.
   */
  lemma {:induction false} DrainedReplicaConverges(steps: seq<Step>, limit: nat)
    requires Legal(steps) && limit >= 1
    ensures var s := Run(steps);
            !PollChanges(Feed(s.db.outbox), s.cursor, limit).hasMore ==>
              Mirrors(Next(s, Poll(limit)).replica, s.db.events)
  {
    ReplicaReplaysPrefix(steps);
    if !PollChanges(Feed(Run(steps).db.outbox), Run(steps).cursor, limit).hasMore {
      LastPollMirrors(Run(steps), limit);
    }
  }

  lemma {:induction false} LastPollMirrors(s: System, limit: nat)
    requires Invariant(s) && limit >= 1 && !PollChanges(Feed(s.db.outbox), s.cursor, limit).hasMore
    ensures Mirrors(Next(s, Poll(limit)).replica, s.db.events)
  {
    InvariantPoll(s, limit);
    LastPollReadsAll(s, limit);
    FullyReadMirrors(Next(s, Poll(limit)));
  }

  lemma {:induction false} LastPollReadsAll(s: System, limit: nat)
    requires Invariant(s) && limit >= 1 && !PollChanges(Feed(s.db.outbox), s.cursor, limit).hasMore
    ensures Next(s, Poll(limit)).read == |s.db.outbox|
  {
    PollExtendsPrefix(Feed(s.db.outbox), s.read, limit);
  }

  lemma {:induction false} FullyReadMirrors(s: System)
    requires Invariant(s) && s.read == |s.db.outbox|
    ensures Mirrors(s.replica, s.db.events)
  {
    var feed := OrderBy(Feed(s.db.outbox));
    assert feed[..|feed|] == feed;
    FullReplayMirrors(s.db, s.submitted);
  }

  ghost predicate ShowsNewest(replica: map<Uuid, Change>, id: Uuid, rows: seq<OutboxRow>) {
    && (id in replica <==> rows != [])
    && (id in replica ==> replica[id] == rows[|rows| - 1].change)
  }

  lemma {:induction false} ReplayShowsNewest(outbox: seq<OutboxRow>, id: Uuid)
    requires Distinct(Feed(outbox)) && EventsAscend(Feed(outbox))
    ensures ShowsNewest(Replay(OrderBy(Feed(outbox))), id, RowsOf(id, outbox))
  {
    ReplayIsLast(OrderBy(Feed(outbox)), id);
    OfOrderBy(id, Feed(outbox));
    OfFeed(id, outbox);
  }

  lemma {:induction false} FullReplayMirrors(db: Store, submitted: seq<Item>)
    requires Consistent(db, submitted) && Owned(db)
    requires Distinct(Feed(db.outbox)) && EventsAscend(Feed(db.outbox))
    ensures Mirrors(Replay(OrderBy(Feed(db.outbox))), db.events)
  {
    var feed := OrderBy(Feed(db.outbox));
    forall id ensures ShowsNewest(Replay(feed), id, RowsOf(id, db.outbox)) {
      ReplayShowsNewest(db.outbox, id);
    }
    forall k | k in db.events
      ensures db.events[k].id in Replay(feed) && Replay(feed)[db.events[k].id] == ChangeOf(db.events[k])
    {
      assert Recorded(db, k, ContentsFor(k, submitted));
      assert ShowsNewest(Replay(feed), db.events[k].id, RowsOf(db.events[k].id, db.outbox));
    }
    forall id | id in Replay(feed)
      ensures var c := Replay(feed)[id];
              Key(c.source, c.externalId) in db.events && db.events[Key(c.source, c.externalId)].id == id
    {
      assert ShowsNewest(Replay(feed), id, RowsOf(id, db.outbox));
      var rows := RowsOf(id, db.outbox);
      assert rows[|rows| - 1] in db.outbox;
    }
  }

  lemma {:induction false} SameFeedConsistent(db: Store, rows: seq<OutboxRow>, submitted: seq<Item>)
    requires Consistent(db, submitted) && SameFeed(rows, db.outbox)
    ensures Consistent(db.(outbox := rows), submitted)
  {
    forall i | 0 <= i < |rows| ensures rows[i].change == db.outbox[i].change {
      assert Feed(rows)[i] == Feed(db.outbox)[i];
    }
    forall k ensures Recorded(db.(outbox := rows), k, ContentsFor(k, submitted)) {
      assert Recorded(db, k, ContentsFor(k, submitted));
      if k in db.events {
        var id := db.events[k].id;
        SameFeedRows(id, rows, db.outbox);
        SameFeedNumbers(RowsOf(id, rows), RowsOf(id, db.outbox));
      }
    }
  }

  ghost predicate SameChanges(a: seq<OutboxRow>, b: seq<OutboxRow>) {
    |a| == |b| && forall i :: 0 <= i < |a| ==> a[i].change == b[i].change
  }

  lemma {:induction false} SameFeedRows(id: Uuid, a: seq<OutboxRow>, b: seq<OutboxRow>)
    requires SameChanges(a, b)
    ensures SameChanges(RowsOf(id, a), RowsOf(id, b))
  {
    if a != [] {
      SameFeedRows(id, a[..|a| - 1], b[..|b| - 1]);
    }
  }

  lemma {:induction false} SameFeedNumbers(a: seq<OutboxRow>, b: seq<OutboxRow>)
    requires SameChanges(a, b)
    ensures Numbers(a) == Numbers(b)
  {
    if a != [] {
      SameFeedNumbers(a[..|a| - 1], b[..|b| - 1]);
    }
  }
}
