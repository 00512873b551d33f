/** From the device and the mission service to the Kafka log: ingest, missions, outbox and publishers as one. */
module EndToEnd {
  import opened Sequences
  import opened Wrappers
  import opened OutboxRows
  import Edge = EdgeDelivery
  import EdgeBuffer
  import EdgeIngest
  import Missions
  import MissionRuns
  import Outbox = OutboxPublisher
  import OutboxOrder

  /** The three share the outbox table: the rows of `edge` and those of `missions` are the rows of `outbox`. */
  datatype World = World(edge: Edge.World, missions: MissionRuns.World, outbox: Outbox.World)

  /** Anything on the device's side or in its ingests; anything a mission use case does; anything a publisher does. */
  datatype Step =
    | EdgeStep(edge: Edge.Step)
    | MissionStep(mission: MissionRuns.Step)
    | PublisherStep(publisher: Outbox.Step)

  function Initial(deviceId: string): World { World(Edge.Initial(deviceId), MissionRuns.Empty, Outbox.Empty) }

  function DoEdge(w: World, s: Edge.Step): World {
    var edge := Edge.Next(w.edge, s);
    if |edge.outbox| <= |w.edge.outbox| then w.(edge := edge)
    else if Outbox.FreshEvent(w.outbox.outbox, edge.outbox[|edge.outbox| - 1])
    then w.(edge := edge, outbox := Outbox.Next(w.outbox, Outbox.Insert(edge.outbox[|edge.outbox| - 1])))
    else w
  }

  /** A transaction whose row id is in the table already rolls back, and that is the end of its call. */
  function Taken(w: World, s: MissionRuns.Step): MissionRuns.Step {
    var rows := MissionRuns.Next(w.missions, s).state.outbox;
    if s.Finish? && |rows| > |w.missions.state.outbox| && !Outbox.FreshEvent(w.outbox.outbox, rows[|rows| - 1])
    then MissionRuns.Drop(s.call) else s
  }

  function DoMission(w: World, s: MissionRuns.Step): World {
    var missions := MissionRuns.Next(w.missions, Taken(w, s));
    var rows := missions.state.outbox;
    w.(missions := missions,
       outbox := if |rows| > |w.missions.state.outbox| then Outbox.Next(w.outbox, Outbox.Insert(rows[|rows| - 1])) else w.outbox)
  }

  function Next(w: World, s: Step): World {
    match s
    case EdgeStep(e) => DoEdge(w, e)
    case MissionStep(m) => DoMission(w, m)
    case PublisherStep(p) => if p.Insert? then w else w.(outbox := Outbox.Next(w.outbox, p))
  }

  function Run(deviceId: string, steps: seq<Step>): World {
    if steps == [] then Initial(deviceId) else Next(Run(deviceId, steps[..|steps| - 1]), steps[|steps| - 1])
  }

  // ---------------------------------------------------------------- the shares of the table

  /** The rows of one event type. */
  function RowsOf(rows: seq<OutboxRow>, eventType: string): seq<OutboxRow> {
    if rows == [] then [] else
    RowsOf(rows[..|rows| - 1], eventType) + if rows[|rows| - 1].eventType == eventType then [rows[|rows| - 1]] else []
  }

  ghost predicate Inv(w: World) {
    && Edge.Inv(w.edge) && Edge.Content(w.edge)
    && Outbox.Inv(w.outbox)
    && RowsOf(w.outbox.outbox, DEVICE_HEALTH_REPORTED) == w.edge.outbox
    && RowsOf(w.outbox.outbox, MISSION_PROCESSING_REQUESTED) == w.missions.state.outbox
    && Sendable(w.outbox.outbox)
  }

  lemma RowsOfOneMore(rows: seq<OutboxRow>, row: OutboxRow, eventType: string)
    ensures RowsOf(rows + [row], eventType) == if row.eventType == eventType then RowsOf(rows, eventType) + [row] else RowsOf(rows, eventType)
  {
    Snoc(rows, row);
    assert RowsOf(rows, eventType) + [] == RowsOf(rows, eventType);
  }

  lemma {:induction false} RowsOfAre(rows: seq<OutboxRow>, eventType: string)
    ensures forall r :: r in RowsOf(rows, eventType) <==> r in rows && r.eventType == eventType
  {
    if rows != [] {
      var init, last := rows[..|rows| - 1], rows[|rows| - 1];
      RowsOfAre(init, eventType);
      InitLast(rows);
      InConcat(init, [last]);
      InConcat(RowsOf(init, eventType), if last.eventType == eventType then [last] else []);
    }
  }

  lemma EdgeOutboxGrows(w: Edge.World, s: Edge.Step)
    ensures var rows := Edge.Next(w, s).outbox;
      rows == w.outbox || (rows != [] && rows == w.outbox + [rows[|rows| - 1]])
  {}

  lemma MissionOutboxGrows(w: MissionRuns.World, s: MissionRuns.Step)
    ensures var rows := MissionRuns.Next(w, s).state.outbox;
      && (rows == w.state.outbox || (s.Finish? && rows != [] && rows == w.state.outbox + [rows[|rows| - 1]]))
      && (rows != w.state.outbox ==> rows[|rows| - 1].eventType == MISSION_PROCESSING_REQUESTED)
  {}

  lemma PublisherKeepsRows(w: Outbox.World, s: Outbox.Step)
    requires !s.Insert?
    ensures Outbox.Next(w, s).outbox == w.outbox
  {}

  lemma InsertKeepsTable(w: Outbox.World, row: OutboxRow)
    requires Outbox.Inv(w) && Outbox.FreshEvent(w.outbox, row) && TopicForEventType(row.eventType).Some? && Sendable(w.outbox)
    ensures var w' := Outbox.Next(w, Outbox.Insert(row));
      Outbox.Inv(w') && w'.outbox == w.outbox + [row] && Sendable(w'.outbox)
  {
    Outbox.InsertKeepsInv(w, row);
  }

  lemma EdgeStepKeepsInv(w: World, s: Edge.Step)
    requires Inv(w)
    ensures Inv(DoEdge(w, s))
  {
    var edge := Edge.Next(w.edge, s);
    Edge.NextKeepsInv(w.edge, s);
    Edge.NextKeepsContent(w.edge, s);
    EdgeOutboxGrows(w.edge, s);
    if |edge.outbox| > |w.edge.outbox| {
      var row := edge.outbox[|edge.outbox| - 1];
      if Outbox.FreshEvent(w.outbox.outbox, row) {
        InsertKeepsTable(w.outbox, row);
        RowsOfOneMore(w.outbox.outbox, row, DEVICE_HEALTH_REPORTED);
        RowsOfOneMore(w.outbox.outbox, row, MISSION_PROCESSING_REQUESTED);
      }
    }
  }

  lemma MissionStepKeepsInv(w: World, s: MissionRuns.Step)
    requires Inv(w)
    ensures Inv(DoMission(w, s))
  {
    MissionOutboxGrows(w.missions, s);
    MissionOutboxGrows(w.missions, Taken(w, s));
    var rows := MissionRuns.Next(w.missions, Taken(w, s)).state.outbox;
    if |rows| > |w.missions.state.outbox| {
      var row := rows[|rows| - 1];
      InsertKeepsTable(w.outbox, row);
      RowsOfOneMore(w.outbox.outbox, row, DEVICE_HEALTH_REPORTED);
      RowsOfOneMore(w.outbox.outbox, row, MISSION_PROCESSING_REQUESTED);
    }
  }

  lemma NextKeepsInv(w: World, s: Step)
    requires Inv(w)
    ensures Inv(Next(w, s))
  {
    match s
    case EdgeStep(e) => EdgeStepKeepsInv(w, e);
    case MissionStep(m) => MissionStepKeepsInv(w, m);
    case PublisherStep(p) =>
      if !p.Insert? {
        Outbox.NextKeepsInv(w.outbox, p);
        PublisherKeepsRows(w.outbox, p);
      }
  }

  lemma {:induction false} EveryRunKeepsInv(deviceId: string, steps: seq<Step>)
    ensures Inv(Run(deviceId, steps))
  {
    if steps != [] {
      EveryRunKeepsInv(deviceId, steps[..|steps| - 1]);
      NextKeepsInv(Run(deviceId, steps[..|steps| - 1]), steps[|steps| - 1]);
    }
  }

  // ---------------------------------------------------------------- device events

  /** Message `k` of the log is that of the device's row `i`. */
  ghost predicate Carries(w: World, k: int, i: int) {
    && 0 <= k < |w.outbox.log| && 0 <= i < |w.edge.outbox|
    && TopicForEventType(w.edge.outbox[i].eventType).Some? && w.outbox.log[k] == MessageFor(w.edge.outbox[i])
  }

  /** Every topic is known: no row the API inserts can block a publisher. */
  lemma EveryRowHasTopic(deviceId: string, steps: seq<Step>)
    ensures var rows := Run(deviceId, steps).outbox.outbox;
      forall i :: 0 <= i < |rows| ==> TopicForEventType(rows[i].eventType).Some?
  {
    EveryRunKeepsInv(deviceId, steps);
  }

  /** The message is a report of the device, with the event's content. */
  ghost predicate Reports(m: Message, deviceId: string, e: EdgeBuffer.Event) {
    && m.topic == DEVICE_EVENTS && m.key == deviceId
    && m.envelope.eventType == "DEVICE_HEALTH_REPORTED" && m.envelope.eventVersion == 1 && m.envelope.producer == "api"
    && m.envelope.causationId == None && m.envelope.payload == HealthReport(e.payload)
  }

  lemma EdgeStepKeepsDevice(w: Edge.World, s: Edge.Step)
    ensures Edge.Next(w, s).deviceId == w.deviceId
  {}

  lemma StepKeepsDevice(w: World, s: Step)
    ensures Next(w, s).edge.deviceId == w.edge.deviceId
  {
    if s.EdgeStep? {
      EdgeStepKeepsDevice(w.edge, s.edge);
    }
  }

  lemma {:induction false} OneDevice(deviceId: string, steps: seq<Step>)
    ensures Run(deviceId, steps).edge.deviceId == deviceId
  {
    if steps != [] {
      OneDevice(deviceId, steps[..|steps| - 1]);
      StepKeepsDevice(Run(deviceId, steps[..|steps| - 1]), steps[|steps| - 1]);
    }
  }

  lemma RowBehind(w: World, k: nat) returns (i: nat, e: EdgeBuffer.Event)
    requires Inv(w) && k < |w.outbox.log| && w.outbox.log[k].topic == DEVICE_EVENTS
    ensures Carries(w, k, i) && e in w.edge.entered && e.eventId == w.edge.origins[i]
    ensures Reports(w.outbox.log[k], w.edge.deviceId, e)
  {
    assert Outbox.IsCopy(w.outbox, w.outbox.log[k], w.outbox.origins[k]);
    var row := w.outbox.outbox[w.outbox.origins[k]];
    RowsOfAre(w.outbox.outbox, DEVICE_HEALTH_REPORTED);
    assert row in w.outbox.outbox && row.eventType == DEVICE_HEALTH_REPORTED;
    assert row in w.edge.outbox;
    i :| 0 <= i < |w.edge.outbox| && w.edge.outbox[i] == row;
    assert Edge.FromEntered(row, w.edge.origins[i], w.edge.deviceId, w.edge.entered);
    e :| e in w.edge.entered && e.eventId == w.edge.origins[i] && EdgeIngest.RowCarries(row, w.edge.deviceId, e);
    MessageCarriesRow(row);
  }

  lemma SameRowSameMessage(w: World, i: nat, j: nat)
    requires Inv(w) && i < |w.edge.outbox| && j < |w.edge.outbox|
    requires TopicForEventType(w.edge.outbox[i].eventType).Some? && TopicForEventType(w.edge.outbox[j].eventType).Some?
    ensures |w.edge.origins| == |w.edge.outbox|
    ensures MessageFor(w.edge.outbox[i]) == MessageFor(w.edge.outbox[j]) <==> w.edge.origins[i] == w.edge.origins[j]
  {
    assert i == j || w.edge.outbox[i].eventId != w.edge.outbox[j].eventId;
    assert i == j || w.edge.origins[i] != w.edge.origins[j];
  }

  /** Main result: whatever the device, the network, the ingests and any number of publishers do, each message on
      the device topic is that of one row, and reports the content of one event that `append` took in ... */
  lemma EveryMessageHasAnEvent(deviceId: string, steps: seq<Step>, k: nat)
    requires k < |Run(deviceId, steps).outbox.log| && Run(deviceId, steps).outbox.log[k].topic == DEVICE_EVENTS
    ensures var w := Run(deviceId, steps);
      && |w.edge.origins| == |w.edge.outbox|
      && exists i, e :: Carries(w, k, i) && e in w.edge.entered && e.eventId == w.edge.origins[i] && Reports(w.outbox.log[k], deviceId, e)
  {
    EveryRunKeepsInv(deviceId, steps);
    OneDevice(deviceId, steps);
    var i, e := RowBehind(Run(deviceId, steps), k);
  }

  /** ... and two of them are the same message exactly when they come from the same event: one event never becomes
      two messages. */
  lemma OneEventOneMessage(deviceId: string, steps: seq<Step>, k: nat, l: nat, i: nat, j: nat)
    requires Carries(Run(deviceId, steps), k, i) && Carries(Run(deviceId, steps), l, j)
    ensures var w := Run(deviceId, steps);
      && |w.edge.origins| == |w.edge.outbox|
      && (w.outbox.log[k] == w.outbox.log[l] <==> w.edge.origins[i] == w.edge.origins[j])
  {
    EveryRunKeepsInv(deviceId, steps);
    SameRowSameMessage(Run(deviceId, steps), i, j);
  }

  lemma MessageOf(w: World, i: nat) returns (k: nat)
    requires Inv(w) && i < |w.edge.outbox|
    requires forall n :: 0 <= n < |w.outbox.outbox| ==> n in w.outbox.published
    ensures Carries(w, k, i)
  {
    var row := w.edge.outbox[i];
    RowsOfAre(w.outbox.outbox, DEVICE_HEALTH_REPORTED);
    assert row in RowsOf(w.outbox.outbox, DEVICE_HEALTH_REPORTED);
    var n :| 0 <= n < |w.outbox.outbox| && w.outbox.outbox[n] == row;
    assert multiset(w.outbox.origins)[n] > 0;
    k :| 0 <= k < |w.outbox.origins| && w.outbox.origins[k] == n;
    assert Outbox.IsCopy(w.outbox, w.outbox.log[k], n);
  }

  /** And when nothing is under way, nothing is left to send and every row is published, an entered event is in the
      log exactly when it is not one of the lost. */
  lemma QuietEventsAreLoggedIff(deviceId: string, steps: seq<Step>, id: string)
    requires var w := Run(deviceId, steps);
      && Edge.HeldBy(w.edge.cycles) == map[] && EdgeBuffer.Unsynced(w.edge.buffer.rows) == []
      && (forall i :: 0 <= i < |w.outbox.outbox| ==> i in w.outbox.published)
    requires id in Edge.IdsOf(Run(deviceId, steps).edge.entered)
    ensures var w := Run(deviceId, steps);
      |w.edge.origins| == |w.edge.outbox| && ((exists k, i :: Carries(w, k, i) && w.edge.origins[i] == id) <==> id !in w.edge.lost)
  {
    var w := Run(deviceId, steps);
    EveryRunKeepsInv(deviceId, steps);
    EdgeBuffer.WhereAre(w.edge.buffer.rows, false);
    assert !Edge.Pending(w.edge.buffer.rows, id);
    if id !in w.edge.lost {
      var i: nat :| i < |w.edge.origins| && w.edge.origins[i] == id;
      var k := MessageOf(w, i);
    }
  }

  // ---------------------------------------------------------------- mission commands

  /** The steps of the run that the missions took part in. */
  function MissionSteps(deviceId: string, steps: seq<Step>): seq<MissionRuns.Step> {
    if steps == [] then [] else
    var init, last := steps[..|steps| - 1], steps[|steps| - 1];
    MissionSteps(deviceId, init) + if last.MissionStep? then [Taken(Run(deviceId, init), last.mission)] else []
  }

  /** Seen from the missions, every run is one of theirs. */
  lemma {:induction false} MissionsRun(deviceId: string, steps: seq<Step>)
    ensures Run(deviceId, steps).missions == MissionRuns.Run(MissionSteps(deviceId, steps))
  {
    if steps != [] {
      var init, last := steps[..|steps| - 1], steps[|steps| - 1];
      MissionsRun(deviceId, init);
      if last.MissionStep? {
        Snoc(MissionSteps(deviceId, init), Taken(Run(deviceId, init), last.mission));
      } else {
        assert MissionSteps(deviceId, init) + [] == MissionSteps(deviceId, init);
      }
    }
  }

  function CommandMessages(rows: seq<OutboxRow>): seq<Message> {
    seq(|rows|, i requires 0 <= i < |rows| => Message(COMMANDS, rows[i].aggregateId, BuildEnvelope(rows[i])))
  }

  lemma CommandIsFor(row: OutboxRow, id: string)
    ensures OutboxOrder.IsFor(row, COMMANDS, id) <==> row.eventType == MISSION_PROCESSING_REQUESTED && row.aggregateId == id
    ensures OutboxOrder.IsFor(row, COMMANDS, id) ==> MessageFor(row) == Message(COMMANDS, row.aggregateId, BuildEnvelope(row))
  {}

  lemma OneMoreMessage(rows: seq<OutboxRow>, row: OutboxRow)
    ensures CommandMessages(rows + [row]) == CommandMessages(rows) + [Message(COMMANDS, row.aggregateId, BuildEnvelope(row))]
  {}

  lemma CommandsOf(rows: seq<OutboxRow>, row: OutboxRow, id: string)
    ensures MissionRuns.Commands(RowsOf(rows + [row], MISSION_PROCESSING_REQUESTED), id) ==
      MissionRuns.Commands(RowsOf(rows, MISSION_PROCESSING_REQUESTED), id) +
      if OutboxOrder.IsFor(row, COMMANDS, id) then [row] else []
  {
    var share := RowsOf(rows, MISSION_PROCESSING_REQUESTED);
    RowsOfOneMore(rows, row, MISSION_PROCESSING_REQUESTED);
    CommandIsFor(row, id);
    if row.eventType == MISSION_PROCESSING_REQUESTED {
      MissionRuns.CommandsOneMore(share, row, id);
    } else {
      assert MissionRuns.Commands(share, id) + [] == MissionRuns.Commands(share, id);
    }
  }

  lemma PartitionOneMore(rows: seq<OutboxRow>, row: OutboxRow, id: string)
    requires OutboxOrder.KeyMessages(rows, COMMANDS, id) ==
      CommandMessages(MissionRuns.Commands(RowsOf(rows, MISSION_PROCESSING_REQUESTED), id))
    ensures OutboxOrder.KeyMessages(rows + [row], COMMANDS, id) ==
      CommandMessages(MissionRuns.Commands(RowsOf(rows + [row], MISSION_PROCESSING_REQUESTED), id))
  {
    var commands := MissionRuns.Commands(RowsOf(rows, MISSION_PROCESSING_REQUESTED), id);
    var messages := OutboxOrder.KeyMessages(rows, COMMANDS, id);
    OutboxOrder.KeyMessagesOneMore(rows, row, COMMANDS, id);
    CommandsOf(rows, row, id);
    if OutboxOrder.IsFor(row, COMMANDS, id) {
      CommandIsFor(row, id);
      OneMoreMessage(commands, row);
    } else {
      assert messages + [] == messages && commands + [] == commands;
    }
  }

  /** The rows of a mission's partition are its command rows. */
  lemma {:induction false} PartitionOfMission(rows: seq<OutboxRow>, id: string)
    ensures OutboxOrder.KeyMessages(rows, COMMANDS, id) ==
      CommandMessages(MissionRuns.Commands(RowsOf(rows, MISSION_PROCESSING_REQUESTED), id))
  {
    if rows == [] {
      assert OutboxOrder.KeyMessages(rows, COMMANDS, id) == [];
    } else {
      PartitionOfMission(rows[..|rows| - 1], id);
      PartitionOneMore(rows[..|rows| - 1], rows[|rows| - 1], id);
      InitLast(rows);
    }
  }

  lemma PublishedIsLogged(w: Outbox.World, m: Message, topic: Topic, key: string)
    requires Outbox.Inv(w) && m in OutboxOrder.KeyMessages(w.outbox, topic, key)
    requires forall i :: 0 <= i < |w.outbox| ==> i in w.published
    ensures m in OutboxOrder.ForKey(w.log, topic, key)
  {
    OutboxOrder.KeyMessagesAre(w.outbox, topic, key);
    OutboxOrder.ForKeyAre(w.log, topic, key);
    var i :| 0 <= i < |w.outbox| && OutboxOrder.IsFor(w.outbox[i], topic, key) && m == MessageFor(w.outbox[i]);
    assert multiset(w.origins)[i] > 0;
    OutboxOrder.OriginIsLogged(w, i);
  }

  /** The message asks for the mission to be processed with that video. */
  ghost predicate Asks(m: Message, id: string, key: string) {
    && m.topic == COMMANDS && m.key == id
    && m.envelope.eventType == "MISSION_PROCESSING_REQUESTED" && m.envelope.eventVersion == 1 && m.envelope.producer == "api"
    && m.envelope.causationId == None && m.envelope.payload == ProcessingRequest(id, key)
  }

  lemma RequestAsks(row: OutboxRow, id: string, key: string)
    requires MissionRuns.Requests(row, id, key)
    ensures |CommandMessages([row])| == 1 && Asks(CommandMessages([row])[0], id, key)
  {
    MessageCarriesRow(row);
  }

  lemma PartitionWithin(w: Outbox.World, commands: seq<OutboxRow>, id: string)
    requires Outbox.Inv(w) && |commands| <= 1
    requires OutboxOrder.KeyMessages(w.outbox, COMMANDS, id) == CommandMessages(commands)
    ensures var log := OutboxOrder.ForKey(w.log, COMMANDS, id);
      && OutboxOrder.InKeyOrder(w, COMMANDS, id) && |Dedup(log)| <= |commands|
      && (forall m :: m in log ==> commands != [] && [m] == CommandMessages(commands))
  {
    OutboxOrder.OneRowIsInOrder(w, COMMANDS, id);
    OutboxOrder.LoggedAreKeyMessages(w, COMMANDS, id);
  }

  lemma OneCommandPartition(w: Outbox.World, commands: seq<OutboxRow>, id: string)
    requires Outbox.Inv(w) && |commands| <= 1
    requires OutboxOrder.KeyMessages(w.outbox, COMMANDS, id) == CommandMessages(commands)
    ensures var log := OutboxOrder.ForKey(w.log, COMMANDS, id);
      && OutboxOrder.InKeyOrder(w, COMMANDS, id) && |Dedup(log)| <= |commands|
      && ((forall i :: 0 <= i < |w.outbox| ==> i in w.published) ==> |Dedup(log)| == |commands|)
  {
    PartitionWithin(w, commands, id);
    if commands != [] && forall i :: 0 <= i < |w.outbox| ==> i in w.published {
      var m := CommandMessages(commands)[0];
      PublishedIsLogged(w, m, COMMANDS, id);
      DedupAre(OutboxOrder.ForKey(w.log, COMMANDS, id));
      assert m in Dedup(OutboxOrder.ForKey(w.log, COMMANDS, id));
    }
  }

  lemma LoggedAsks(w: Outbox.World, commands: seq<OutboxRow>, id: string, key: string)
    requires Outbox.Inv(w) && |commands| <= 1 && (commands != [] ==> MissionRuns.Requests(commands[0], id, key))
    requires OutboxOrder.KeyMessages(w.outbox, COMMANDS, id) == CommandMessages(commands)
    ensures forall m :: m in OutboxOrder.ForKey(w.log, COMMANDS, id) ==> commands != [] && Asks(m, id, key)
  {
    PartitionWithin(w, commands, id);
    if commands != [] {
      assert commands == [commands[0]];
      RequestAsks(commands[0], id, key);
    }
  }

  lemma CommandsAreAsQueued(steps: seq<MissionRuns.Step>, id: string)
    ensures var s, was := MissionRuns.Run(steps).state, MissionRuns.AsQueued(steps, id);
      && (was.Some? <==> id in s.missions && s.missions[id].status != Missions.DRAFT)
      && |MissionRuns.Commands(s.outbox, id)| == (if was.Some? then 1 else 0)
      && (was.Some? ==> MissionRuns.Requests(MissionRuns.Commands(s.outbox, id)[0], id, Missions.KeyOrEmpty(was.value)))
  {
    MissionRuns.CommandIsAsQueued(steps, id);
    MissionRuns.EveryRunKeepsInv(steps);
    var s := MissionRuns.Run(steps).state;
    if id in s.missions {
      assert MissionRuns.MissionInv(s, id);
    } else {
      assert MissionRuns.Untouched(s, id);
    }
  }

  /** Main result for missions, with any use cases interleaved and any number of publishers: a mission's partition
      of the commands topic is in order; it holds no message while the mission is in DRAFT and at most one distinct
      message afterwards, exactly one once every row is published; and that asks for the video the mission had when
      it left DRAFT. */
  lemma MissionIsCommandedOnce(deviceId: string, steps: seq<Step>, id: string)
    ensures var w, was := Run(deviceId, steps), MissionRuns.AsQueued(MissionSteps(deviceId, steps), id);
      var log := OutboxOrder.ForKey(w.outbox.log, COMMANDS, id);
      && (was.Some? <==> id in w.missions.state.missions && w.missions.state.missions[id].status != Missions.DRAFT)
      && OutboxOrder.InKeyOrder(w.outbox, COMMANDS, id)
      && |Dedup(log)| <= (if was.Some? then 1 else 0)
      && (was.Some? && (forall i :: 0 <= i < |w.outbox.outbox| ==> i in w.outbox.published) ==> |Dedup(log)| == 1)
      && (forall m :: m in log ==> was.Some? && Asks(m, id, Missions.KeyOrEmpty(was.value)))
  {
    var w, was := Run(deviceId, steps), MissionRuns.AsQueued(MissionSteps(deviceId, steps), id);
    MissionsRun(deviceId, steps);
    EveryRunKeepsInv(deviceId, steps);
    CommandsAreAsQueued(MissionSteps(deviceId, steps), id);
    PartitionOfMission(w.outbox.outbox, id);
    OneCommandPartition(w.outbox, MissionRuns.Commands(w.missions.state.outbox, id), id);
    LoggedAsks(w.outbox, MissionRuns.Commands(w.missions.state.outbox, id), id, if was.Some? then Missions.KeyOrEmpty(was.value) else "");
  }

  // ---------------------------------------------------------------- a device's events out of order

  function EdgeSteps(steps: seq<Edge.Step>): seq<Step> {
    if steps == [] then [] else EdgeSteps(steps[..|steps| - 1]) + [EdgeStep(steps[|steps| - 1])]
  }

  lemma DeviceStepAlone(edge: Edge.World, s: Edge.Step)
    requires Edge.Rows(Edge.Next(edge, s))
    ensures DoEdge(World(edge, MissionRuns.Empty, Outbox.Empty.(outbox := edge.outbox)), s) ==
      World(Edge.Next(edge, s), MissionRuns.Empty, Outbox.Empty.(outbox := Edge.Next(edge, s).outbox))
  {
    EdgeOutboxGrows(edge, s);
    var rows := Edge.Next(edge, s).outbox;
    if |rows| > |edge.outbox| {
      assert rows[|rows| - 1] == (edge.outbox + [rows[|rows| - 1]])[|edge.outbox|];
      assert forall i :: 0 <= i < |edge.outbox| ==> rows[i] == edge.outbox[i];
    }
  }

  /** With the device alone, the table holds its rows. */
  lemma {:induction false} DeviceAlone(deviceId: string, steps: seq<Edge.Step>)
    ensures var edge := Edge.Run(deviceId, steps);
      Run(deviceId, EdgeSteps(steps)) == World(edge, MissionRuns.Empty, Outbox.Empty.(outbox := edge.outbox))
  {
    if steps != [] {
      var init, last := steps[..|steps| - 1], steps[|steps| - 1];
      DeviceAlone(deviceId, init);
      Snoc(EdgeSteps(init), EdgeStep(last));
      Edge.EveryRunKeepsInv(deviceId, steps);
      DeviceStepAlone(Edge.Run(deviceId, init), last);
    }
  }

  lemma RunOneMore(deviceId: string, steps: seq<Step>, s: Step)
    ensures Run(deviceId, steps + [s]) == Next(Run(deviceId, steps), s)
  {
    Snoc(steps, s);
  }

  lemma PublisherSteps(deviceId: string, steps: seq<Step>, a: Outbox.Step, b: Outbox.Step)
    requires !a.Insert? && !b.Insert?
    ensures var w := Run(deviceId, steps);
      Run(deviceId, steps + [PublisherStep(a)] + [PublisherStep(b)]) == w.(outbox := Outbox.Next(Outbox.Next(w.outbox, a), b))
  {
    RunOneMore(deviceId, steps, PublisherStep(a));
    RunOneMore(deviceId, steps + [PublisherStep(a)], PublisherStep(b));
  }

  lemma SecondFirstRuns(deviceId: string, before: seq<Step>) returns (steps: seq<Step>)
    ensures var w := Run(deviceId, before);
      Run(deviceId, steps) == w.(outbox := OutboxOrder.SecondFirst(w.outbox))
  {
    PublisherSteps(deviceId, before, Outbox.Claim(0, 1), Outbox.Claim(1, 1));
    steps := before + [PublisherStep(Outbox.Claim(0, 1))] + [PublisherStep(Outbox.Claim(1, 1))];
    PublisherSteps(deviceId, steps, Outbox.Send(1, true, true), Outbox.Commit(1, true));
    steps := steps + [PublisherStep(Outbox.Send(1, true, true))] + [PublisherStep(Outbox.Commit(1, true))];
    PublisherSteps(deviceId, steps, Outbox.Send(0, true, true), Outbox.Commit(0, true));
    steps := steps + [PublisherStep(Outbox.Send(0, true, true))] + [PublisherStep(Outbox.Commit(0, true))];
  }

  lemma DeviceRows(deviceId: string, steps: seq<Edge.Step>)
    ensures var rows := Edge.Run(deviceId, steps).outbox;
      && Sendable(rows) && (forall i :: 0 <= i < |rows| ==> OutboxOrder.IsFor(rows[i], DEVICE_EVENTS, deviceId))
      && (forall i, j :: 0 <= i < j < |rows| ==> rows[i].eventId != rows[j].eventId)
  {
    Edge.EveryRunKeepsInv(deviceId, steps);
  }

  /** Two publishers can put two events of one device on the topic in the order opposite to that of their rows. */
  lemma DeviceEventsReorder(deviceId: string, first: EdgeBuffer.Event, second: EdgeBuffer.Event) returns (steps: seq<Step>)
    requires first.eventId != second.eventId
    requires first.eventType == DEVICE_HEALTH_REPORTED && second.eventType == DEVICE_HEALTH_REPORTED
    ensures var w := Run(deviceId, steps);
      && |w.outbox.outbox| == 2 && w.edge.outbox == w.outbox.outbox && Sendable(w.outbox.outbox)
      && w.edge.origins == [first.eventId, second.eventId]
      && OutboxOrder.ForKey(w.outbox.log, DEVICE_EVENTS, deviceId) ==
           [MessageFor(w.outbox.outbox[1]), MessageFor(w.outbox.outbox[0])]
      && !OutboxOrder.InKeyOrder(w.outbox, DEVICE_EVENTS, deviceId)
  {
    var edge := Edge.TwoEventsIngested(deviceId, first, second);
    DeviceAlone(deviceId, edge);
    DeviceRows(deviceId, edge);
    steps := SecondFirstRuns(deviceId, EdgeSteps(edge));
    var table := Outbox.Empty.(outbox := Edge.Run(deviceId, edge).outbox);
    OutboxOrder.TwoPublishersReorder(table, DEVICE_EVENTS, deviceId);
    OutboxOrder.SecondComesFirst(table);
  }
}
