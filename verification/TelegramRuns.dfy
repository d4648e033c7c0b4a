/** Over any run, what was ingested is what the stored offset acknowledges. */
module TelegramRuns {
  import opened Basics
  import opened Keyset
  import opened Sequences
  import opened Schema
  import opened Events
  import opened History
  import opened SameHistories
  import opened Telegram
  import opened TelegramStream
  import Audit

  // ---- Runs -------------------------------------------------------------------------------

  /** Updates arrive, then a sync polls. */
  datatype Step = Step(arrived: seq<Received>, poll: Poll)

  /**
   The committed state, with all updates there ever were, and the events that committed syncs
   submitted, before and after deduplication.
   */
  datatype Track = Track(
    state: State, stream: seq<Received>, submitted: seq<EventCreate>, items: seq<Item>)

  const START := Track(State(EMPTY, None), [], [], [])

  ghost predicate Supplied(steps: seq<Step>) {
    forall i :: 0 <= i < |steps| ==> steps[i].poll.Supplied()
  }

  function Advance(t: Track, step: Step): Track
    requires step.poll.Supplied()
  {
    var p, stream := step.poll, t.stream + step.arrived;
    if p.fate != Committed then t.(stream := stream)
    else
      Track(Synced(t.state, p), stream, t.submitted + ParsedAll(p.updates, p), t.items + ItemsOf(p))
  }

  function Run(steps: seq<Step>): Track
    requires Supplied(steps)
  {
    if steps == [] then START else Advance(Run(steps[..|steps| - 1]), steps[|steps| - 1])
  }

  /** The API answers with the first unread updates, as many as it likes; the client validates them. */
  ghost predicate AnswersUnread(t: Track, step: Step) {
    exists answer :: answer <= Unread(t.stream + step.arrived, t.state.offset) && step.poll.updates == Validated(answer)
  }

  ghost predicate Legal(steps: seq<Step>)
    requires Supplied(steps)
  {
    steps != [] ==>
      Legal(steps[..|steps| - 1]) && AnswersUnread(Run(steps[..|steps| - 1]), steps[|steps| - 1])
  }

  // ---- Ingested exactly once --------------------------------------------------------------

  /** What an event says, leaving out when and with which payload it was ingested. */
  datatype Post = Post(
    key: Key, content: string, authorId: string, authorName: string, eventType: string, schemaVersion: int)

  function PostOf(e: EventCreate): Post {
    Post(Key(e.source, e.externalId), e.content, e.authorId, e.authorName, e.eventType, e.schemaVersion)
  }

  function PostsOf(batch: seq<EventCreate>): seq<Post> {
    if batch == [] then [] else PostsOf(batch[..|batch| - 1]) + [PostOf(batch[|batch| - 1])]
  }

  /** A message's id, its text behind the title or the id of its chat, and its author. */
  function PostFrom(m: Message): Post {
    var prefix :=
      if m.chat.None? then ""
      else if m.chat.value.title != "" then "[" + m.chat.value.title + "] "
      else "[chat:" + Digits.Signed(m.chat.value.id) + "] ";
    Post(Key("telegram", Digits.Signed(m.messageId)), prefix + m.text, m.authorId, m.authorName, "message", 1)
  }

  /** The posts in some updates, straight from the messages. */
  function Posts(updates: seq<Update>): seq<Post> {
    if updates == [] then []
    else
      var m := updates[|updates| - 1].message;
      Posts(updates[..|updates| - 1]) +
      (if m.Some? && m.value.text != "" then [PostFrom(m.value)] else [])
  }

  lemma {:induction false} PostsConcat(a: seq<Update>, b: seq<Update>)
    ensures Posts(a + b) == Posts(a) + Posts(b)
    decreases |b|
  {
    if b == [] {
      assert a + b == a;
    } else {
      assert (a + b)[..|a + b| - 1] == a + b[..|b| - 1];
      PostsConcat(a, b[..|b| - 1]);
    }
  }

  lemma {:induction false} PostsOfConcat(a: seq<EventCreate>, b: seq<EventCreate>)
    ensures PostsOf(a + b) == PostsOf(a) + PostsOf(b)
    decreases |b|
  {
    if b == [] {
      assert a + b == a;
    } else {
      assert (a + b)[..|a + b| - 1] == a + b[..|b| - 1];
      PostsOfConcat(a, b[..|b| - 1]);
    }
  }

  lemma {:induction false} PostsOfAppend(batch: seq<EventCreate>, e: EventCreate)
    ensures PostsOf(batch + [e]) == PostsOf(batch) + [PostOf(e)]
  {
    assert (batch + [e])[..|batch|] == batch;
  }

  lemma {:induction false} ParsedPosts(updates: seq<Update>, p: Poll)
    ensures PostsOf(ParsedAll(updates, p)) == Posts(updates)
  {
    if updates != [] {
      var init, last := updates[..|updates| - 1], updates[|updates| - 1];
      assert init + [last] == updates;
      ParsedPosts(init, p);
      calc {
        PostsOf(ParsedAll(updates, p));
        PostsOf(ParsedAll(init + [last], p));
        { ParsedOne(init, last, p); }
        Posts(init + [last]);
        Posts(updates);
      }
    }
  }

  lemma {:induction false} ParsedOne(init: seq<Update>, last: Update, p: Poll)
    requires PostsOf(ParsedAll(init, p)) == Posts(init)
    ensures PostsOf(ParsedAll(init + [last], p)) == Posts(init + [last])
  {
    assert (init + [last])[..|init|] == init;
    var e := ParsedUpdate(last, p);
    if e.Some? {
      PostsOfAppend(ParsedAll(init, p), e.value);
    } else {
      assert ParsedAll(init, p) + [] == ParsedAll(init, p) && Posts(init) + [] == Posts(init);
    }
  }

  lemma {:induction false} AscendingPrefix(a: seq<Received>, b: seq<Received>)
    requires AscendingIds(a + b)
    ensures AscendingIds(a)
  {
    forall i, j | 0 <= i < j < |a| ensures a[i].Id() < a[j].Id() {
      assert (a + b)[i] == a[i] && (a + b)[j] == a[j];
    }
  }

  /** The offset stands right behind the first `n` updates, and their posts were submitted. */
  ghost predicate Matched(stream: seq<Received>, n: nat, offset: Option<int>, submitted: seq<EventCreate>) {
    && n <= |stream|
    && offset == OffsetAt(stream, n)
    && PostsOf(submitted) == Posts(Validated(stream[..n]))
  }

  ghost predicate OnTrack(t: Track) {
    exists n: nat :: Matched(t.stream, n, t.state.offset, t.submitted)
  }

  lemma {:induction false} ArrivalsMatched(
    stream: seq<Received>, arrived: seq<Received>, n: nat, offset: Option<int>, submitted: seq<EventCreate>)
    requires Matched(stream, n, offset, submitted)
    ensures Matched(stream + arrived, n, offset, submitted)
  {
    assert (stream + arrived)[..n] == stream[..n];
  }

  lemma {:induction false} SubmitsNext(batch: seq<EventCreate>, read: seq<Update>, p: Poll)
    requires PostsOf(batch) == Posts(read)
    ensures PostsOf(batch + ParsedAll(p.updates, p)) == Posts(read + p.updates)
  {
    ParsedPosts(p.updates, p);
    PostsOfConcat(batch, ParsedAll(p.updates, p));
    PostsConcat(read, p.updates);
  }

  lemma {:induction false} AnswerIsSlice(stream: seq<Received>, n: nat, answer: seq<Received>)
    requires AscendingIds(stream) && n <= |stream| && answer <= Unread(stream, OffsetAt(stream, n))
    ensures n + |answer| <= |stream| && AscendingIds(answer)
    ensures forall k :: 0 <= k < |answer| ==> stream[n + k] == answer[k]
  {
    OffsetParts(stream, n);
    forall k | 0 <= k < |answer| ensures stream[n + k] == answer[k] {
      assert stream[n..][k] == answer[k];
    }
  }

  lemma {:induction false} ReadsOn(stream: seq<Received>, n: nat, answer: seq<Received>)
    requires AscendingIds(stream) && n <= |stream| && answer <= Unread(stream, OffsetAt(stream, n))
    ensures n + UpToSound(answer) <= |stream|
    ensures Validated(stream[..n + UpToSound(answer)]) == Validated(stream[..n]) + Validated(answer)
  {
    var k := UpToSound(answer);
    AnswerIsSlice(stream, n, answer);
    ValidatedUpToSound(answer);
    ValidatedConcat(stream[..n], answer[..k]);
    assert stream[..n + k] == stream[..n] + answer[..k];
  }

  /** The offset moves behind the last sound update of the answer. */
  lemma {:induction false} OffsetMoves(stream: seq<Received>, n: nat, answer: seq<Received>, p: Poll)
    requires AscendingIds(stream) && n <= |stream| && answer <= Unread(stream, OffsetAt(stream, n))
    requires p.updates == Validated(answer) && n + UpToSound(answer) <= |stream|
    ensures NextOffset(p, OffsetAt(stream, n)) == OffsetAt(stream, n + UpToSound(answer))
  {
    AnswerIsSlice(stream, n, answer);
    if UpToSound(answer) > 0 {
      LastSoundIsMax(answer);
    } else {
      NothingRead(answer);
    }
  }

  lemma {:induction false} NothingRead(answer: seq<Received>)
    requires UpToSound(answer) == 0
    ensures MaxId(Validated(answer)) == None
  {
    ValidatedUpToSound(answer);
  }

  /** A committed sync acknowledges exactly what it submits. */
  lemma {:induction false} CommitMatched(
    stream: seq<Received>, n: nat, offset: Option<int>, submitted: seq<EventCreate>, answer: seq<Received>, p: Poll)
    requires AscendingIds(stream) && Matched(stream, n, offset, submitted)
    requires answer <= Unread(stream, offset) && p.updates == Validated(answer)
    ensures Matched(stream, n + UpToSound(answer), NextOffset(p, offset), submitted + ParsedAll(p.updates, p))
  {
    ReadsOn(stream, n, answer);
    OffsetMoves(stream, n, answer, p);
    SubmitsNext(submitted, Validated(stream[..n]), p);
  }

  lemma {:induction false} StepKeepsTrack(t: Track, step: Step)
    requires step.poll.Supplied() && AscendingIds(t.stream + step.arrived)
    requires OnTrack(t) && AnswersUnread(t, step)
    ensures OnTrack(Advance(t, step))
  {
    var n: nat :| Matched(t.stream, n, t.state.offset, t.submitted);
    ArrivalsMatched(t.stream, step.arrived, n, t.state.offset, t.submitted);
    if step.poll.fate == Committed {
      var answer :| answer <= Unread(t.stream + step.arrived, t.state.offset) && step.poll.updates == Validated(answer);
      CommitMatched(t.stream + step.arrived, n, t.state.offset, t.submitted, answer, step.poll);
      Committing(t, step, n + UpToSound(answer));
    } else {
      OnTrackWith(Advance(t, step), n);
    }
  }

  lemma {:induction false} OnTrackWith(t: Track, n: nat)
    requires Matched(t.stream, n, t.state.offset, t.submitted)
    ensures OnTrack(t)
  {
  }

  lemma {:induction false} Committing(t: Track, step: Step, m: nat)
    requires step.poll.Supplied() && step.poll.fate == Committed
    requires Matched(t.stream + step.arrived, m, NextOffset(step.poll, t.state.offset),
                     t.submitted + ParsedAll(step.poll.updates, step.poll))
    ensures OnTrack(Advance(t, step))
  {
    OnTrackWith(Advance(t, step), m);
  }

  lemma {:induction false} StaysOnTrack(steps: seq<Step>)
    requires Supplied(steps) && Legal(steps) && AscendingIds(Run(steps).stream)
    ensures OnTrack(Run(steps))
  {
    if steps == [] {
      assert Matched([], 0, None, []);
    } else {
      var init, last := steps[..|steps| - 1], steps[|steps| - 1];
      AscendingPrefix(Run(init).stream, last.arrived);
      StaysOnTrack(init);
      StepKeepsTrack(Run(init), last);
    }
  }

  /**
   In any run of committed, failed and rolled-back syncs, the posts submitted are exactly those
   of the sound updates that the offset acknowledges, each once and in order.
   */
  lemma {:induction false} IngestedIsAcknowledged(steps: seq<Step>)
    requires Supplied(steps) && Legal(steps) && AscendingIds(Run(steps).stream)
    ensures var t := Run(steps);
            PostsOf(t.submitted) == Posts(Validated(Acknowledged(t.stream, t.state.offset)))
  {
    StaysOnTrack(steps);
    var t := Run(steps);
    var n: nat :| Matched(t.stream, n, t.state.offset, t.submitted);
    OffsetParts(t.stream, n);
  }

  // ---- What that leaves in the store ------------------------------------------------------

  lemma {:induction false} RunIsUpserts(steps: seq<Step>)
    requires Supplied(steps)
    ensures Run(steps).state.db == UpsertAll(EMPTY, Run(steps).items)
  {
    if steps != [] {
      var t := Run(steps[..|steps| - 1]);
      RunIsUpserts(steps[..|steps| - 1]);
      UpsertAllConcat(EMPTY, t.items, ItemsOf(steps[|steps| - 1].poll));
    }
  }

  lemma {:induction false} PostsOfAt(batch: seq<EventCreate>)
    ensures |PostsOf(batch)| == |batch|
    ensures forall i :: 0 <= i < |batch| ==> PostsOf(batch)[i] == PostOf(batch[i])
  {
    if batch != [] {
      PostsOfAt(batch[..|batch| - 1]);
    }
  }

  ghost predicate Named(posts: seq<Post>, k: Key) {
    exists i :: 0 <= i < |posts| && posts[i].key == k
  }

  /** The contents submitted for a key are those of its posts, perhaps not all of them. */
  ghost predicate DrawnFrom(contents: seq<string>, posts: seq<Post>, k: Key) {
    && (contents != [] <==> Named(posts, k))
    && forall i :: 0 <= i < |contents| ==> Posted(posts, k, contents[i])
  }

  ghost predicate Posted(posts: seq<Post>, k: Key, content: string) {
    exists j :: 0 <= j < |posts| && posts[j].key == k && posts[j].content == content
  }

  lemma {:induction false} PostedConcat(a: seq<Post>, b: seq<Post>, k: Key, content: string)
    requires Posted(a, k, content) || Posted(b, k, content)
    ensures Posted(a + b, k, content)
  {
    if Posted(a, k, content) {
      var j :| 0 <= j < |a| && a[j].key == k && a[j].content == content;
      assert (a + b)[j] == a[j];
    } else {
      var j :| 0 <= j < |b| && b[j].key == k && b[j].content == content;
      assert (a + b)[|a| + j] == b[j];
    }
  }

  lemma {:induction false} DrawnFromConcat(
    x: seq<string>, y: seq<string>, a: seq<Post>, b: seq<Post>, k: Key)
    requires DrawnFrom(x, a, k) && DrawnFrom(y, b, k)
    ensures DrawnFrom(x + y, a + b, k)
  {
    NamedConcat(a, b, k);
    forall i | 0 <= i < |x + y| ensures Posted(a + b, k, (x + y)[i]) {
      assert if i < |x| then Posted(a, k, x[i]) else Posted(b, k, y[i - |x|]);
      PostedConcat(a, b, k, (x + y)[i]);
    }
  }

  lemma {:induction false} NamedConcat(a: seq<Post>, b: seq<Post>, k: Key)
    ensures Named(a + b, k) <==> Named(a, k) || Named(b, k)
  {
    if Named(a, k) {
      var i :| 0 <= i < |a| && a[i].key == k;
      assert (a + b)[i].key == k;
    }
    if Named(b, k) {
      var i :| 0 <= i < |b| && b[i].key == k;
      assert (a + b)[|a| + i].key == k;
    }
    if Named(a + b, k) {
      var i :| 0 <= i < |a + b| && (a + b)[i].key == k;
      assert if i < |a| then a[i].key == k else b[i - |a|].key == k;
    }
  }

  lemma {:induction false} ContentsInDrawn(batch: seq<EventCreate>, k: Key)
    ensures DrawnFrom(ContentsIn(k, batch), PostsOf(batch), k)
  {
    if batch != [] {
      var init, last := batch[..|batch| - 1], batch[|batch| - 1];
      ContentsInDrawn(init, k);
      var own := if last.NaturalKey() == k then [last.content] else [];
      OneDrawn(last, k);
      DrawnFromConcat(ContentsIn(k, init), own, PostsOf(init), [PostOf(last)], k);
    }
  }

  lemma {:induction false} OneDrawn(e: EventCreate, k: Key)
    ensures DrawnFrom(if e.NaturalKey() == k then [e.content] else [], [PostOf(e)], k)
  {
    assert [PostOf(e)][0].key == e.NaturalKey();
  }

  /** Deduplication drops no key and adds no post. */
  lemma {:induction false} FirstsDrawn(batch: seq<EventCreate>, k: Key, contents: seq<string>)
    requires DrawnFrom(contents, PostsOf(FirstOccurrences(batch)), k)
    ensures DrawnFrom(contents, PostsOf(batch), k)
  {
    FirstsNamed(batch, k);
    forall i | 0 <= i < |contents| ensures Posted(PostsOf(batch), k, contents[i]) {
      FirstsInBatch(batch, k, contents[i]);
    }
  }

  lemma {:induction false} FirstsInBatch(batch: seq<EventCreate>, k: Key, content: string)
    requires Posted(PostsOf(FirstOccurrences(batch)), k, content)
    ensures Posted(PostsOf(batch), k, content)
  {
    var firsts := FirstOccurrences(batch);
    PostsOfAt(firsts);
    PostsOfAt(batch);
    var j :| 0 <= j < |firsts| && PostsOf(firsts)[j].key == k && PostsOf(firsts)[j].content == content;
    FirstsSubmitted(batch, firsts[j]);
    var i :| 0 <= i < |batch| && batch[i] == firsts[j];
    assert PostsOf(batch)[i].key == k;
  }

  lemma {:induction false} NamedIsKey(batch: seq<EventCreate>, k: Key)
    ensures Named(PostsOf(batch), k) <==> k in KeysOf(batch)
  {
    PostsOfAt(batch);
    if k in KeysOf(batch) {
      var e :| e in batch && e.NaturalKey() == k;
      var i :| 0 <= i < |batch| && batch[i] == e;
      assert PostsOf(batch)[i].key == k;
    }
    if Named(PostsOf(batch), k) {
      var i :| 0 <= i < |batch| && PostsOf(batch)[i].key == k;
      assert batch[i] in batch;
    }
  }

  lemma {:induction false} FirstsNamed(batch: seq<EventCreate>, k: Key)
    ensures Named(PostsOf(FirstOccurrences(batch)), k) <==> Named(PostsOf(batch), k)
  {
    NamedIsKey(batch, k);
    NamedIsKey(FirstOccurrences(batch), k);
  }

  lemma {:induction false} BatchDrawn(k: Key, p: Poll)
    requires p.Supplied()
    ensures DrawnFrom(ContentsFor(k, ItemsOf(p)), PostsOf(ParsedAll(p.updates, p)), k)
  {
    var batch := ParsedAll(p.updates, p);
    ContentsForBatch(k, ItemsOf(p), FirstOccurrences(batch));
    ContentsInDrawn(FirstOccurrences(batch), k);
    FirstsDrawn(batch, k, ContentsFor(k, ItemsOf(p)));
  }

  lemma {:induction false} SubmittedDrawn(k: Key, steps: seq<Step>)
    requires Supplied(steps)
    ensures DrawnFrom(ContentsFor(k, Run(steps).items), PostsOf(Run(steps).submitted), k)
  {
    if steps != [] {
      var init, poll := steps[..|steps| - 1], steps[|steps| - 1].poll;
      SubmittedDrawn(k, init);
      if poll.fate == Committed {
        MoreDrawn(k, Run(init), poll);
      }
    }
  }

  lemma {:induction false} MoreDrawn(k: Key, t: Track, p: Poll)
    requires p.Supplied() && DrawnFrom(ContentsFor(k, t.items), PostsOf(t.submitted), k)
    ensures DrawnFrom(ContentsFor(k, t.items + ItemsOf(p)), PostsOf(t.submitted + ParsedAll(p.updates, p)), k)
  {
    BatchDrawn(k, p);
    ContentsForConcat(k, t.items, ItemsOf(p));
    PostsOfConcat(t.submitted, ParsedAll(p.updates, p));
    DrawnFromConcat(ContentsFor(k, t.items), ContentsFor(k, ItemsOf(p)),
                    PostsOf(t.submitted), PostsOf(ParsedAll(p.updates, p)), k);
  }

  /** The store holds the post as its event's only version. */
  ghost predicate Stored(db: Store, post: Post) {
    && post.key in db.events
    && db.events[post.key].version == 1
    && db.events[post.key].content == post.content
  }

  /** Posts of one key have one content. */
  ghost predicate OneContent(posts: seq<Post>, k: Key) {
    forall i, j :: 0 <= i < |posts| && 0 <= j < |posts| && posts[i].key == k && posts[j].key == k ==>
      posts[i].content == posts[j].content
  }

  lemma {:induction false} NothingChanges(contents: seq<string>, x: string)
    requires contents != [] && forall i :: 0 <= i < |contents| ==> contents[i] == x
    ensures Destutter(contents) == [x]
  {
    if |contents| > 1 {
      NothingChanges(contents[..|contents| - 1], x);
    }
  }

  lemma {:induction false} StoredOnce(db: Store, posts: seq<Post>, k: Key, contents: seq<string>)
    requires Recorded(db, k, contents) && DrawnFrom(contents, posts, k)
    ensures k in db.events <==> Named(posts, k)
    ensures OneContent(posts, k) ==> forall i :: 0 <= i < |posts| && posts[i].key == k ==> Stored(db, posts[i])
  {
    if OneContent(posts, k) {
      forall i | 0 <= i < |posts| && posts[i].key == k ensures Stored(db, posts[i]) {
        forall c | 0 <= c < |contents| ensures contents[c] == posts[i].content {
          assert Posted(posts, k, contents[c]);
          var j :| 0 <= j < |posts| && posts[j].key == k && posts[j].content == contents[c];
        }
        NothingChanges(contents, posts[i].content);
      }
    }
  }

  lemma {:induction false} EventOf(steps: seq<Step>, k: Key)
    requires Supplied(steps) && FreshItems(Run(steps).items)
    ensures var posts, db := PostsOf(Run(steps).submitted), Run(steps).state.db;
            && (k in db.events <==> Named(posts, k))
            && (OneContent(posts, k) ==> forall i :: 0 <= i < |posts| && posts[i].key == k ==> Stored(db, posts[i]))
  {
    RunIsUpserts(steps);
    RecordedBy(Run(steps).items, k);
    SubmittedDrawn(k, steps);
    StoredOnce(Run(steps).state.db, PostsOf(Run(steps).submitted), k, ContentsFor(k, Run(steps).items));
  }

  /**
   The events are those that the posts of the acknowledged updates name; and every such post is
   stored as its event's only version if and only if posts of one message id have one content.
   */
  lemma {:induction false} AcknowledgedIsStored(steps: seq<Step>)
    requires Supplied(steps) && Legal(steps) && AscendingIds(Run(steps).stream) && FreshItems(Run(steps).items)
    ensures var t := Run(steps);
            var posts := Posts(Validated(Acknowledged(t.stream, t.state.offset)));
            && (forall k :: k in t.state.db.events <==> Named(posts, k))
            && ((forall i :: 0 <= i < |posts| ==> Stored(t.state.db, posts[i])) <==>
                (forall k :: OneContent(posts, k)))
  {
    IngestedIsAcknowledged(steps);
    var posts, db := PostsOf(Run(steps).submitted), Run(steps).state.db;
    forall k ensures k in db.events <==> Named(posts, k) {
      EventOf(steps, k);
    }
    if forall k :: OneContent(posts, k) {
      forall i | 0 <= i < |posts| ensures Stored(db, posts[i]) {
        EventOf(steps, posts[i].key);
        assert OneContent(posts, posts[i].key);
      }
    }
  }

  // ---- The rows in all their columns ------------------------------------------------------

  /** One sync submits an event for each message with text, at its date or else the sync's time. */
  lemma {:induction false} ParsedTells(updates: seq<Update>, p: Poll, e: EventCreate)
    requires e in ParsedAll(updates, p)
    ensures exists u :: u in updates && u.message.Some? && u.message.value.text != "" &&
              var m := u.message.value;
              && PostOf(e) == PostFrom(m)
              && e.timestamp == (if m.date.Some? then m.date.value else p.now)
              && e.rawPayloadId == Some(p.rawPayloadId(u))
  {
    var init, last := updates[..|updates| - 1], updates[|updates| - 1];
    if e in ParsedAll(init, p) {
      ParsedTells(init, p, e);
      assert updates == init + [last];
    } else {
      assert last in updates && ParsedUpdate(last, p) == Some(e);
    }
  }

  ghost predicate SubmittedIn(items: seq<Item>, batch: seq<EventCreate>) {
    forall i :: 0 <= i < |items| ==> items[i].data in batch
  }

  lemma {:induction false} ItemsSubmitted(steps: seq<Step>)
    requires Supplied(steps)
    ensures SubmittedIn(Run(steps).items, Run(steps).submitted)
  {
    if steps != [] {
      var init, p := steps[..|steps| - 1], steps[|steps| - 1].poll;
      ItemsSubmitted(init);
      if p.fate == Committed {
        forall e | e in FirstOccurrences(ParsedAll(p.updates, p)) ensures e in ParsedAll(p.updates, p) {
          FirstsSubmitted(ParsedAll(p.updates, p), e);
        }
      }
    }
  }

  /** The event's row has the columns of the post. */
  ghost predicate RowShows(ev: Event, post: Post) {
    && Key(ev.source, ev.externalId) == post.key && ev.content == post.content
    && ev.authorId == post.authorId && ev.authorName == post.authorName
    && ev.eventType == post.eventType && ev.schemaVersion == post.schemaVersion
  }

  lemma {:induction false} RowShowsSubmitted(items: seq<Item>, batch: seq<EventCreate>, k: Key)
    requires SubmittedIn(items, batch) && k in UpsertAll(EMPTY, items).events
    ensures exists post :: post in PostsOf(batch) && RowShows(UpsertAll(EMPTY, items).events[k], post)
  {
    Audit.RowShowsLast(items, k);
    var own := Audit.ItemsOf(k, items);
    Audit.OwnItemsSubmitted(k, items, own[|own| - 1]);
    var i :| 0 <= i < |items| && items[i] == own[|own| - 1];
    var j :| 0 <= j < |batch| && batch[j] == items[i].data;
    PostsOfAt(batch);
    assert RowShows(UpsertAll(EMPTY, items).events[k], PostsOf(batch)[j]);
  }

  /** In any run, each event's row has the columns of a post of an acknowledged update. */
  lemma {:induction false} RowsShowPosts(steps: seq<Step>, k: Key)
    requires Supplied(steps) && Legal(steps) && AscendingIds(Run(steps).stream)
    requires k in Run(steps).state.db.events
    ensures var t := Run(steps);
            exists post :: RowShows(t.state.db.events[k], post) &&
              post in Posts(Validated(Acknowledged(t.stream, t.state.offset)))
  {
    IngestedIsAcknowledged(steps);
    RunIsUpserts(steps);
    ItemsSubmitted(steps);
    RowShowsSubmitted(Run(steps).items, Run(steps).submitted, k);
  }

  // ---- A malformed update is lost ---------------------------------------------------------

  /** A malformed update, and behind it one that validates but carries no message. */
  const SENT := [Malformed(1), Sound(Update(2, None))]

  const POLLED := Step(SENT, Poll([Update(2, None)], Committed, "", 0, u => 0, [0], [Pos(0, 0)]))

  /** The offset acknowledges both, so neither is read again, and nothing was ingested. */
  lemma {:induction false} MalformedIsLost()
    ensures Supplied([POLLED]) && Legal([POLLED])
    ensures var t := Run([POLLED]);
            && t.state == State(EMPTY, Some(3))
            && Acknowledged(t.stream, t.state.offset) == SENT && Unread(t.stream, t.state.offset) == []
  {
    var none: seq<Step> := [];
    assert [POLLED][..0] == none && [] + SENT == SENT;
    SentParts();
    assert SENT <= Unread(SENT, None) && POLLED.poll.updates == Validated(SENT);
    assert POLLED.poll.updates[..0] == [];
    NothingToUpsert(EMPTY, POLLED.poll);
  }

  lemma {:induction false} SentParts()
    ensures Validated(SENT) == [Update(2, None)] && Unread(SENT, None) == SENT
    ensures Acknowledged(SENT, Some(3)) == SENT && Unread(SENT, Some(3)) == []
  {
    assert SENT[..1] == [Malformed(1)] && SENT[..1][..0] == [];
    AllOnSide(SENT, None, true);
    AllOnSide(SENT, Some(3), false);
  }
}
