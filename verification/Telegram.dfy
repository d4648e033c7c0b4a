/**
 Telegram polling: the stored offset acknowledges updates to the bot API, so it may pass only
 what was ingested in the same transaction.
 */
module Telegram {
  import opened Basics
  import opened Keyset
  import opened Schema
  import opened Events
  import opened Digits

  const SOURCE := "telegram"
  const CONTENT_SCHEMA_VERSION := 1

  datatype Chat = Chat(title: string, id: int)
  datatype Message = Message(
    messageId: int, text: string, chat: Option<Chat>, date: Option<Time>, authorId: string, authorName: string)
  datatype Update = Update(id: int, message: Option<Message>)

  /** An update as the API sends it; one that fails validation is dropped by the client. */
  datatype Received = Sound(update: Update) | Malformed(id: int)
  {
    function Id(): int {
      if Sound? then update.id else id
    }
  }

  function Validated(answer: seq<Received>): seq<Update> {
    if answer == [] then []
    else
      var init, last := Validated(answer[..|answer| - 1]), answer[|answer| - 1];
      if last.Sound? then init + [last.update] else init
  }

  /** `get_updates`, once the API has answered. */
  method GetUpdates(answer: seq<Received>) returns (updates: seq<Update>)
    ensures updates == Validated(answer)
  {
    updates := [];
    for i := 0 to |answer|
      invariant updates == Validated(answer[..i])
    {
      assert answer[..i + 1][..i] == answer[..i];
      if answer[i].Sound? {
        updates := updates + [answer[i].update];
      }
    }
    assert answer[..|answer|] == answer;
  }

  function ChatLabel(m: Message): string {
    if m.chat.None? then ""
    else if m.chat.value.title != "" then "[" + m.chat.value.title + "] "
    else "[chat:" + Signed(m.chat.value.id) + "] "
  }

  function ContentOf(m: Message): string {
    ChatLabel(m) + m.text
  }

  /** `parse_message_to_event`: a message without text gives no event. */
  function Parse(m: Message, rawPayloadId: Uuid, now: Time): Option<EventCreate> {
    if m.text == "" then None
    else
      Some(EventCreate(SOURCE, Signed(m.messageId), m.authorId, m.authorName, ContentOf(m), "message",
                       if m.date.Some? then m.date.value else now, Some(rawPayloadId), CONTENT_SCHEMA_VERSION))
  }

  // ---- One sync ---------------------------------------------------------------------------

  datatype Fate = FetchFailed | Failed(upserted: bool) | Committed

  datatype Poll = Poll(
    updates: seq<Update>, fate: Fate, correlationId: string, now: Time,
    rawPayloadId: Update -> Uuid, ids: seq<Uuid>, positions: seq<Pos>)
  {
    ghost predicate Supplied() {
      |ids| >= |updates| && |positions| >= |updates|
    }
  }

  function ParsedUpdate(u: Update, p: Poll): Option<EventCreate> {
    if u.message.None? then None else Parse(u.message.value, p.rawPayloadId(u), p.now)
  }

  function ParsedAll(updates: seq<Update>, p: Poll): (r: seq<EventCreate>)
    ensures |r| <= |updates|
  {
    if updates == [] then []
    else
      var e := ParsedUpdate(updates[|updates| - 1], p);
      ParsedAll(updates[..|updates| - 1], p) + (if e.Some? then [e.value] else [])
  }

  function MaxId(updates: seq<Update>): (r: Option<int>)
    ensures r.None? <==> updates == []
    ensures r.Some? ==> forall i :: 0 <= i < |updates| ==> updates[i].id <= r.value
    ensures r.Some? ==> exists i :: 0 <= i < |updates| && updates[i].id == r.value
  {
    if updates == [] then None
    else
      var init, id := MaxId(updates[..|updates| - 1]), updates[|updates| - 1].id;
      if init.None? || id > init.value then Some(id) else init
  }

  function ItemsOf(p: Poll): seq<Item>
    requires p.Supplied()
  {
    ItemsFor(FirstOccurrences(ParsedAll(p.updates, p)), p.ids, p.positions, p.now, Some(p.correlationId))
  }

  lemma {:induction false} NothingToUpsert(db: Store, p: Poll)
    requires p.Supplied()
    ensures ParsedAll(p.updates, p) == [] ==> ItemsOf(p) == [] && UpsertAll(db, ItemsOf(p)) == db
  {
  }

  datatype State = State(db: Store, offset: Option<int>)

  function Synced(s: State, p: Poll): State
    requires p.Supplied()
  {
    if p.fate != Committed then s else State(UpsertAll(s.db, ItemsOf(p)), NextOffset(p, s.offset))
  }

  /** One past the largest update id seen. */
  function NextOffset(p: Poll, offset: Option<int>): Option<int> {
    var last := MaxId(p.updates);
    if last.Some? then Some(last.value + 1) else offset
  }

  /**
   A committed sync upserts what it parsed, in the name of its correlation id, and its offset is one past
   the largest id it saw, or stays if it saw none; any other sync changes nothing.
   */
  lemma {:induction false} SyncedIs(s: State, p: Poll)
    requires p.Supplied()
    ensures p.fate != Committed ==> Synced(s, p) == s
    ensures p.fate == Committed ==>
              var parsed, items, after := ParsedAll(p.updates, p), ItemsOf(p), Synced(s, p);
              && after.db == UpsertAll(s.db, items)
              && (forall i :: 0 <= i < |items| ==>
                    items[i].data in parsed && items[i].now == p.now && items[i].changedBy == Some(p.correlationId))
              && (if p.updates == [] then after.offset == s.offset
                  else
                    && after.offset.Some?
                    && (exists i :: 0 <= i < |p.updates| && p.updates[i].id + 1 == after.offset.value)
                    && forall i :: 0 <= i < |p.updates| ==> p.updates[i].id < after.offset.value)
  {
    if p.fate == Committed {
      var parsed := ParsedAll(p.updates, p);
      forall e | e in FirstOccurrences(parsed) ensures e in parsed {
        FirstsSubmitted(parsed, e);
      }
    }
  }

  class TelegramSync {
    const store: EventStore
    var offset: Option<int>

    ghost function Current(): State
      reads this, store
    {
      State(store.State(), offset)
    }

    constructor (store: EventStore)
      ensures this.store == store && offset == None
    {
      this.store, offset := store, None;
    }

    /** `_sync_telegram_messages`, over the updates that the API answered for the stored offset. */
    method SyncTelegramMessages(p: Poll)
      requires p.Supplied() && Constraints(store.State()) && FreshIds(store.State(), p.ids)
      modifies this`offset, store
      ensures Current() == Synced(old(Current()), p)
    {
      ghost var before := Current();
      var offsetBefore, eventsBefore, versionsBefore, outboxBefore :=
        offset, store.events, store.versions, store.outbox;
      if p.fate == FetchFailed {
        return;
      }
      var batch, maxUpdateId := ParseAll(p);
      if maxUpdateId.Some? {
        offset := Some(maxUpdateId.value + 1);
      }
      NothingToUpsert(store.State(), p);
      if batch != [] && p.fate != Failed(false) {
        var _ := store.UpsertEventsBulk(batch, Some(p.correlationId), p.now, p.ids, p.positions);
      }
      assert p.fate == Committed ==> store.State() == UpsertAll(before.db, ItemsOf(p));
      if p.fate != Committed {
        offset := offsetBefore;
        store.events, store.versions, store.outbox := eventsBefore, versionsBefore, outboxBefore;
        assert Current() == before;
      }
    }

    /** The largest id counts updates that carry no message, too. */
    method ParseAll(p: Poll) returns (batch: seq<EventCreate>, maxUpdateId: Option<int>)
      ensures batch == ParsedAll(p.updates, p) && maxUpdateId == MaxId(p.updates)
    {
      batch, maxUpdateId := [], None;
      for i := 0 to |p.updates|
        invariant batch == ParsedAll(p.updates[..i], p) && maxUpdateId == MaxId(p.updates[..i])
      {
        assert p.updates[..i + 1][..i] == p.updates[..i];
        var update := p.updates[i];
        if maxUpdateId.None? || update.id > maxUpdateId.value {
          maxUpdateId := Some(update.id);
        }
        if update.message.None? {
          continue;
        }
        var e := Parse(update.message.value, p.rawPayloadId(update), p.now);
        if e.Some? {
          batch := batch + [e.value];
        }
      }
      assert p.updates[..|p.updates|] == p.updates;
    }
  }
}
