/** Rows of the outbox table, and the Kafka messages built from them. */
module OutboxRows {
  import opened Wrappers

  const MISSION_PROCESSING_REQUESTED := "MISSION_PROCESSING_REQUESTED"
  const DEVICE_HEALTH_REPORTED := "DEVICE_HEALTH_REPORTED"

  datatype Payload =
    | HealthReport(content: seq<bv8>)
    | ProcessingRequest(missionId: string, videoObjectKey: string)

  /** Rows are kept in creation order; `eventId` is the row's own identity. */
  datatype OutboxRow = OutboxRow(eventId: string, aggregateType: string, aggregateId: string, eventType: string,
                                 payload: Payload, correlationId: Option<string>, causationId: Option<string>)

  datatype Topic = COMMANDS | DEVICE_EVENTS

  datatype Envelope = Envelope(eventId: string, eventType: string, eventVersion: nat, correlationId: string,
                               causationId: Option<string>, producer: string, payload: Payload)

  datatype Message = Message(topic: Topic, key: string, envelope: Envelope)

  /** `None` stands for the exception on an unknown event type. */
  function TopicForEventType(eventType: string): Option<Topic> {
    if eventType == MISSION_PROCESSING_REQUESTED then Some(COMMANDS)
    else if eventType == DEVICE_HEALTH_REPORTED then Some(DEVICE_EVENTS)
    else None
  }

  function BuildEnvelope(row: OutboxRow): Envelope {
    Envelope(row.eventId, row.eventType, 1,
             if row.correlationId.Some? then row.correlationId.value else row.eventId,
             row.causationId,
             if row.aggregateType == "mission" || row.aggregateType == "edge_device" then "api" else "unknown",
             row.payload)
  }

  function MessageFor(row: OutboxRow): Message
    requires TopicForEventType(row.eventType).Some?
  {
    Message(TopicForEventType(row.eventType).value, row.aggregateId, BuildEnvelope(row))
  }

  /** A device-health row as the edge ingest inserts it. */
  function HealthRow(eventId: string, deviceId: string, eventType: string, content: seq<bv8>, correlationId: Option<string>): OutboxRow {
    OutboxRow(eventId, "edge_device", deviceId, eventType, HealthReport(content), correlationId, None)
  }

  /** A command row as the mission service inserts it. */
  function CommandRow(eventId: string, missionId: string, videoObjectKey: string, correlationId: Option<string>): OutboxRow {
    OutboxRow(eventId, "mission", missionId, MISSION_PROCESSING_REQUESTED,
              ProcessingRequest(missionId, videoObjectKey), correlationId, None)
  }

  predicate Sendable(rows: seq<OutboxRow>) {
    forall i :: 0 <= i < |rows| ==> TopicForEventType(rows[i].eventType).Some?
  }

  /** The two event types have a topic each, and no other has one. */
  lemma TopicIff(eventType: string)
    ensures TopicForEventType(eventType) == Some(COMMANDS) <==> eventType == "MISSION_PROCESSING_REQUESTED"
    ensures TopicForEventType(eventType) == Some(DEVICE_EVENTS) <==> eventType == "DEVICE_HEALTH_REPORTED"
  {}

  /** A row's message is keyed by its aggregate and carries the row itself: its id, type, cause and payload, and
      its correlation id, for which the row's own id stands in if there is none. */
  lemma MessageCarriesRow(row: OutboxRow)
    requires TopicForEventType(row.eventType).Some?
    ensures var m := MessageFor(row);
      && m.key == row.aggregateId && TopicForEventType(row.eventType) == Some(m.topic)
      && m.envelope.eventId == row.eventId && m.envelope.eventType == row.eventType && m.envelope.eventVersion == 1
      && m.envelope.payload == row.payload && m.envelope.causationId == row.causationId
      && m.envelope.correlationId == (match row.correlationId case Some(c) => c case None => row.eventId)
      && (m.envelope.producer == "api" <==> row.aggregateType in ["mission", "edge_device"])
  {}
}
