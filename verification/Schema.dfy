/** The rows of the tables, and the values that move between them. */
module Schema {
  import opened Basics
  import opened Keyset

  /** The natural key of an event; unique in `normalized_events`. */
  datatype Key = Key(source: string, externalId: string)

  /** What a connector submits. */
  datatype EventCreate = EventCreate(
    source: string,
    externalId: string,
    authorId: string,
    authorName: string,
    content: string,
    eventType: string,
    timestamp: Time,
    rawPayloadId: Option<Uuid>,
    schemaVersion: int)
  {
    function NaturalKey(): Key { Key(source, externalId) }
  }

  /** A row of `normalized_events`. */
  datatype Event = Event(
    id: Uuid,
    source: string,
    externalId: string,
    authorId: string,
    authorName: string,
    content: string,
    eventType: string,
    timestamp: Time,
    rawPayloadId: Option<Uuid>,
    schemaVersion: int,
    version: int,
    createdAt: Time,
    updatedAt: Time)
  {
    function NaturalKey(): Key { Key(source, externalId) }
  }

  /** The unique key of `event_versions`, and the rest of the row. */
  datatype VersionKey = VersionKey(eventId: Uuid, version: int)
  datatype Snapshot = Snapshot(
    content: string,
    schemaVersion: int,
    rawPayloadId: Option<Uuid>,
    changedBy: Option<string>)

  /** The payload of an outbox row: what downstream consumers are told about an event. */
  datatype Change = Change(
    eventId: Uuid,
    source: string,
    externalId: string,
    eventType: string,
    content: string,
    version: int,
    schemaVersion: int)

  datatype Status = Pending | Published | Dead

  /** A row of `outbox_events`; its position is (created_at, id). */
  datatype OutboxRow = OutboxRow(
    pos: Pos,
    change: Change,
    status: Status,
    attempts: nat,
    lastError: Option<string>,
    publishedAt: Option<Time>)

  function ChangeOf(ev: Event): Change {
    Change(ev.id, ev.source, ev.externalId, ev.eventType, ev.content, ev.version, ev.schemaVersion)
  }
}
