/** Mission use cases interleaved: any number of them may sit between their check and their transaction. */
module MissionRuns {
  import opened Sequences
  import opened Wrappers
  import opened OutboxRows
  import opened Missions

  /** A use case that has passed its check, with the status it saw there. */
  datatype Waiting = Waiting(request: Request, seen: Status)

  datatype World = World(state: State, waiting: map<nat, Waiting>)

  const Empty: World := World(State(map[], [], []), map[])

  /** `Drop` is a use case that never gets to its transaction. */
  datatype Step =
    | Create(id: string, title: string, description: Option<string>)
    | Start(call: nat, request: Request)
    | Finish(call: nat, rowId: string)
    | Drop(call: nat)

  function Next(w: World, s: Step): World {
    match s
    case Create(id, title, description) =>
      if id in w.state.missions then w
      else w.(state := State(w.state.missions[id := NewMission(title, description)],
                             w.state.audit + [AuditRow(id, Created)], w.state.outbox))
    case Start(k, r) =>
      var seen := Check(w.state.missions, r);
      if k in w.waiting || seen.Err? then w else w.(waiting := w.waiting[k := Waiting(r, seen.value)])
    case Finish(k, rowId) =>
      if k !in w.waiting then w else
      var after := Body(w.state, w.waiting[k].request, w.waiting[k].seen, rowId);
      World(if after.Ok? then after.value else w.state, w.waiting - {k})
    case Drop(k) => w.(waiting := w.waiting - {k})
  }

  function Run(steps: seq<Step>): World {
    if steps == [] then Empty else Next(Run(steps[..|steps| - 1]), steps[|steps| - 1])
  }

  // ---------------------------------------------------------------- what a mission's rows say

  /** The mission's transitions on record, in order. */
  function Transitions(audit: seq<AuditRow>, id: string): seq<(Status, Status)> {
    if audit == [] then [] else
    var last := audit[|audit| - 1];
    Transitions(audit[..|audit| - 1], id) +
    if last.missionId == id && last.action.Transitioned? then [(last.action.from, last.action.to)] else []
  }

  /** The edges lead from one status to the other, each starting where the one before ended, and all legal. */
  predicate IsPath(edges: seq<(Status, Status)>, from: Status, to: Status) {
    if edges == [] then from == to else
    var last := edges[|edges| - 1];
    last.1 == to && IsLegal(last.0, last.1) && IsPath(edges[..|edges| - 1], from, last.0)
  }

  /** The mission's command rows. */
  function Commands(outbox: seq<OutboxRow>, id: string): seq<OutboxRow> {
    if outbox == [] then [] else
    var last := outbox[|outbox| - 1];
    Commands(outbox[..|outbox| - 1], id) +
    if last.aggregateId == id && last.eventType == MISSION_PROCESSING_REQUESTED then [last] else []
  }

  ghost predicate WasAttached(audit: seq<AuditRow>, id: string, key: string) {
    AuditRow(id, VideoAttached(key)) in audit
  }

  /** The row asks for the mission with a key that was attached to it. */
  ghost predicate AsksFor(row: OutboxRow, audit: seq<AuditRow>, id: string) {
    && row.payload.ProcessingRequest? && row.payload.missionId == id && row.aggregateId == id
    && WasAttached(audit, id, row.payload.videoObjectKey)
  }

  /** Exactly one command for a mission that has left DRAFT, none before. */
  ghost predicate CommandedOnce(s: State, id: string)
    requires id in s.missions
  {
    var commands := Commands(s.outbox, id);
    if s.missions[id].status == DRAFT then commands == []
    else |commands| == 1 && AsksFor(commands[0], s.audit, id)
  }

  ghost predicate MissionInv(s: State, id: string)
    requires id in s.missions
  {
    && IsPath(Transitions(s.audit, id), DRAFT, s.missions[id].status)
    && CommandedOnce(s, id)
    && (s.missions[id].videoObjectKey.Some? ==> WasAttached(s.audit, id, s.missions[id].videoObjectKey.value))
  }

  ghost predicate Untouched(s: State, id: string) { Transitions(s.audit, id) == [] && Commands(s.outbox, id) == [] }

  ghost predicate StateInv(s: State) {
    && (forall id :: id in s.missions ==> MissionInv(s, id))
    && (forall id :: id !in s.missions ==> Untouched(s, id))
  }

  /** A mission about to be queued had a video when it was checked, and videos are never taken away. */
  ghost predicate WaitingInv(w: World) {
    forall k :: k in w.waiting ==>
      var r := w.waiting[k].request;
      && r.id in w.state.missions
      && (r.Transition? ==> IsLegal(w.waiting[k].seen, r.target))
      && (r.Transition? && w.waiting[k].seen == DRAFT ==> w.state.missions[r.id].videoObjectKey.Some?)
  }

  ghost predicate Inv(w: World) { StateInv(w.state) && WaitingInv(w) }

  // ---------------------------------------------------------------- one transaction

  lemma TransitionsOneMore(audit: seq<AuditRow>, row: AuditRow, id: string)
    ensures Transitions(audit + [row], id) == Transitions(audit, id) +
      if row.missionId == id && row.action.Transitioned? then [(row.action.from, row.action.to)] else []
  {
    Snoc(audit, row);
  }

  lemma CommandsOneMore(outbox: seq<OutboxRow>, row: OutboxRow, id: string)
    ensures Commands(outbox + [row], id) == Commands(outbox, id) +
      if row.aggregateId == id && row.eventType == MISSION_PROCESSING_REQUESTED then [row] else []
  {
    Snoc(outbox, row);
  }

  lemma PathOneMore(edges: seq<(Status, Status)>, from: Status, mid: Status, to: Status)
    requires IsPath(edges, from, mid) && IsLegal(mid, to)
    ensures IsPath(edges + [(mid, to)], from, to)
  {
    Snoc(edges, (mid, to));
  }

  /** No edge leads back to DRAFT. */
  lemma DraftHasNoEdges(edges: seq<(Status, Status)>, to: Status)
    requires IsPath(edges, DRAFT, to)
    ensures to == DRAFT <==> edges == []
  {
    if edges != [] {
      var last := edges[|edges| - 1];
      assert DRAFT !in LegalTargets(last.0);
    }
  }

  /** An audit row that is no transition of the mission, with no row for it, changes nothing it says. */
  lemma QuietRow(s: State, row: AuditRow, id: string)
    requires !(row.missionId == id && row.action.Transitioned?)
    ensures Transitions(s.audit + [row], id) == Transitions(s.audit, id)
    ensures forall key :: WasAttached(s.audit, id, key) ==> WasAttached(s.audit + [row], id, key)
  {
    TransitionsOneMore(s.audit, row, id);
    assert Transitions(s.audit, id) + [] == Transitions(s.audit, id);
  }

  lemma EditKeepsMission(s: State, r: Request, seen: Status, rowId: string, id: string)
    requires StateInv(s) && !r.Transition? && Body(s, r, seen, rowId).Ok? && id in s.missions
    ensures MissionInv(Body(s, r, seen, rowId).value, id)
  {
    var row := AuditRow(r.id, ActionOf(r));
    QuietRow(s, row, id);
    assert MissionInv(s, id);
    if r.AttachVideo? {
      assert row in s.audit + [row];
    }
  }

  lemma EditKeepsState(s: State, r: Request, seen: Status, rowId: string)
    requires StateInv(s) && !r.Transition? && Body(s, r, seen, rowId).Ok?
    ensures StateInv(Body(s, r, seen, rowId).value)
  {
    var s' := Body(s, r, seen, rowId).value;
    forall id | id in s'.missions ensures MissionInv(s', id) {
      EditKeepsMission(s, r, seen, rowId, id);
    }
    forall id | id !in s'.missions ensures Untouched(s', id) {
      QuietRow(s, AuditRow(r.id, ActionOf(r)), id);
    }
  }

  /** The outbox after a transition, seen from one mission. */
  lemma CommandsAfter(s: State, r: Request, seen: Status, rowId: string, id: string)
    requires r.Transition? && Body(s, r, seen, rowId).Ok?
    ensures Commands(Body(s, r, seen, rowId).value.outbox, id) ==
      if id == r.id && seen == DRAFT && r.target == QUEUED
      then Commands(s.outbox, id) + [CommandRow(rowId, id, KeyOrEmpty(s.missions[id]), r.correlationId)]
      else Commands(s.outbox, id)
  {
    if seen == DRAFT && r.target == QUEUED {
      CommandsOneMore(s.outbox, CommandRow(rowId, r.id, KeyOrEmpty(s.missions[r.id]), r.correlationId), id);
      assert Commands(s.outbox, id) + [] == Commands(s.outbox, id);
    } else {
      assert s.outbox + [] == s.outbox;
    }
  }

  lemma TransitionKeepsOthers(s: State, r: Request, seen: Status, rowId: string, id: string)
    requires StateInv(s) && r.Transition? && Body(s, r, seen, rowId).Ok? && id != r.id
    ensures id in s.missions ==> MissionInv(Body(s, r, seen, rowId).value, id)
    ensures id !in s.missions ==> Untouched(Body(s, r, seen, rowId).value, id)
  {
    QuietRow(s, AuditRow(r.id, Transitioned(seen, r.target)), id);
    CommandsAfter(s, r, seen, rowId, id);
  }

  lemma TransitionExtendsPath(s: State, r: Request, seen: Status, rowId: string)
    requires StateInv(s) && r.Transition? && Body(s, r, seen, rowId).Ok? && IsLegal(seen, r.target)
    ensures IsPath(Transitions(Body(s, r, seen, rowId).value.audit, r.id), DRAFT, r.target)
  {
    assert MissionInv(s, r.id);
    TransitionsOneMore(s.audit, AuditRow(r.id, Transitioned(seen, r.target)), r.id);
    PathOneMore(Transitions(s.audit, r.id), DRAFT, seen, r.target);
  }

  lemma LeavingDraft(from: Status, to: Status)
    requires IsLegal(from, to)
    ensures to != DRAFT && (from == DRAFT ==> to == QUEUED)
  {}

  lemma AuditGrows(audit: seq<AuditRow>, row: AuditRow, id: string)
    ensures forall key :: WasAttached(audit, id, key) ==> WasAttached(audit + [row], id, key)
  {}

  lemma TransitionCommandsOnce(s: State, r: Request, seen: Status, rowId: string)
    requires StateInv(s) && r.Transition? && Body(s, r, seen, rowId).Ok? && IsLegal(seen, r.target)
    requires seen == DRAFT ==> s.missions[r.id].videoObjectKey.Some?
    ensures CommandedOnce(Body(s, r, seen, rowId).value, r.id)
  {
    assert MissionInv(s, r.id);
    LeavingDraft(seen, r.target);
    CommandsAfter(s, r, seen, rowId, r.id);
    AuditGrows(s.audit, AuditRow(r.id, Transitioned(seen, r.target)), r.id);
  }

  lemma TransitionKeepsOwn(s: State, r: Request, seen: Status, rowId: string)
    requires StateInv(s) && r.Transition? && Body(s, r, seen, rowId).Ok? && IsLegal(seen, r.target)
    requires seen == DRAFT ==> s.missions[r.id].videoObjectKey.Some?
    ensures MissionInv(Body(s, r, seen, rowId).value, r.id)
  {
    assert MissionInv(s, r.id);
    TransitionExtendsPath(s, r, seen, rowId);
    TransitionCommandsOnce(s, r, seen, rowId);
    AuditGrows(s.audit, AuditRow(r.id, Transitioned(seen, r.target)), r.id);
  }

  lemma TransitionKeepsState(s: State, r: Request, seen: Status, rowId: string)
    requires StateInv(s) && r.Transition? && Body(s, r, seen, rowId).Ok? && IsLegal(seen, r.target)
    requires seen == DRAFT ==> s.missions[r.id].videoObjectKey.Some?
    ensures StateInv(Body(s, r, seen, rowId).value)
  {
    var s' := Body(s, r, seen, rowId).value;
    forall id | id in s'.missions ensures MissionInv(s', id) {
      if id == r.id {
        TransitionKeepsOwn(s, r, seen, rowId);
      } else {
        TransitionKeepsOthers(s, r, seen, rowId, id);
      }
    }
    forall id | id !in s'.missions ensures Untouched(s', id) {
      TransitionKeepsOthers(s, r, seen, rowId, id);
    }
  }

  lemma BodyKeepsState(s: State, r: Request, seen: Status, rowId: string)
    requires StateInv(s) && Body(s, r, seen, rowId).Ok?
    requires r.Transition? ==> IsLegal(seen, r.target)
    requires r.Transition? && seen == DRAFT ==> r.id in s.missions && s.missions[r.id].videoObjectKey.Some?
    ensures StateInv(Body(s, r, seen, rowId).value)
  {
    if r.Transition? {
      TransitionKeepsState(s, r, seen, rowId);
    } else {
      EditKeepsState(s, r, seen, rowId);
    }
  }

  /** No transaction takes a mission or its video away. */
  lemma BodyKeepsVideos(s: State, r: Request, seen: Status, rowId: string)
    requires Body(s, r, seen, rowId).Ok?
    ensures var s' := Body(s, r, seen, rowId).value;
      forall id :: id in s.missions ==>
        (id in s'.missions && (s.missions[id].videoObjectKey.Some? ==> s'.missions[id].videoObjectKey.Some?))
  {}

  lemma CreateKeepsState(s: State, id: string, title: string, description: Option<string>)
    requires StateInv(s) && id !in s.missions
    ensures StateInv(State(s.missions[id := NewMission(title, description)], s.audit + [AuditRow(id, Created)], s.outbox))
  {
    var s' := State(s.missions[id := NewMission(title, description)], s.audit + [AuditRow(id, Created)], s.outbox);
    forall x ensures Transitions(s'.audit, x) == Transitions(s.audit, x) {
      QuietRow(s, AuditRow(id, Created), x);
    }
    forall x | x in s'.missions ensures MissionInv(s', x) {
      QuietRow(s, AuditRow(id, Created), x);
      if x == id {
        assert Untouched(s, id);
      } else {
        assert MissionInv(s, x);
      }
    }
    forall x | x !in s'.missions ensures Untouched(s', x) {
      assert Untouched(s, x);
    }
  }

  lemma FinishKeepsWaiting(w: World, k: nat, rowId: string)
    requires WaitingInv(w) && k in w.waiting
    ensures WaitingInv(Next(w, Finish(k, rowId)))
  {
    if Body(w.state, w.waiting[k].request, w.waiting[k].seen, rowId).Ok? {
      BodyKeepsVideos(w.state, w.waiting[k].request, w.waiting[k].seen, rowId);
    }
  }

  lemma FinishKeepsInv(w: World, k: nat, rowId: string)
    requires Inv(w) && k in w.waiting
    ensures Inv(Next(w, Finish(k, rowId)))
  {
    FinishKeepsWaiting(w, k, rowId);
    if Body(w.state, w.waiting[k].request, w.waiting[k].seen, rowId).Ok? {
      BodyKeepsState(w.state, w.waiting[k].request, w.waiting[k].seen, rowId);
    }
  }

  lemma CreateKeepsInv(w: World, id: string, title: string, description: Option<string>)
    requires Inv(w)
    ensures Inv(Next(w, Create(id, title, description)))
  {
    if id !in w.state.missions {
      CreateKeepsState(w.state, id, title, description);
    }
  }

  lemma StartKeepsInv(w: World, k: nat, r: Request)
    requires Inv(w)
    ensures Inv(Next(w, Start(k, r)))
  {}

  lemma NextKeepsInv(w: World, s: Step)
    requires Inv(w)
    ensures Inv(Next(w, s))
  {
    match s
    case Create(id, title, description) =>
      CreateKeepsInv(w, id, title, description);
    case Start(k, r) =>
      StartKeepsInv(w, k, r);
    case Finish(k, rowId) =>
      if k in w.waiting {
        FinishKeepsInv(w, k, rowId);
      }
    case Drop(k) =>
  }

  lemma {:induction false} EveryRunKeepsInv(steps: seq<Step>)
    ensures Inv(Run(steps))
  {
    if steps != [] {
      EveryRunKeepsInv(steps[..|steps| - 1]);
      NextKeepsInv(Run(steps[..|steps| - 1]), steps[|steps| - 1]);
    }
  }

  /** Main result: in every interleaving, a mission's transitions on record are a path of legal edges from DRAFT
      to its status, and it has one command row, with a key attached to it, if it has left DRAFT, and none if
      it has not; going around FAILED and QUEUED again adds none. */
  lemma StatusFollowsAudit(steps: seq<Step>, id: string)
    requires id in Run(steps).state.missions
    ensures var s := Run(steps).state;
      && IsPath(Transitions(s.audit, id), DRAFT, s.missions[id].status)
      && (s.missions[id].status == DRAFT <==> Transitions(s.audit, id) == [])
      && (s.missions[id].status == DRAFT <==> Commands(s.outbox, id) == [])
      && (s.missions[id].status != DRAFT ==>
            |Commands(s.outbox, id)| == 1 && AsksFor(Commands(s.outbox, id)[0], s.audit, id))
  {
    EveryRunKeepsInv(steps);
    assert MissionInv(Run(steps).state, id);
    DraftHasNoEdges(Transitions(Run(steps).state.audit, id), Run(steps).state.missions[id].status);
  }

  // ---------------------------------------------------------------- keys

  predicate GivesKey(s: Step) { s.Start? && s.request.AttachVideo? ==> s.request.key != "" }

  ghost predicate KeysGiven(w: World) {
    && (forall id :: !WasAttached(w.state.audit, id, ""))
    && (forall k :: k in w.waiting && w.waiting[k].request.AttachVideo? ==> w.waiting[k].request.key != "")
  }

  lemma BodyRecords(s: State, r: Request, seen: Status, rowId: string) returns (row: AuditRow)
    requires Body(s, r, seen, rowId).Ok?
    ensures Body(s, r, seen, rowId).value.audit == s.audit + [row] && row.missionId == r.id
    ensures row.action.VideoAttached? ==> r.AttachVideo? && r.key == row.action.key
  {
    row := AuditRow(r.id, if r.Transition? then Transitioned(seen, r.target) else ActionOf(r));
  }

  lemma RowKeepsKeys(audit: seq<AuditRow>, row: AuditRow)
    requires (forall id :: !WasAttached(audit, id, "")) && row.action != VideoAttached("")
    ensures forall id :: !WasAttached(audit + [row], id, "")
  {
    forall id ensures !WasAttached(audit + [row], id, "") {
      assert !WasAttached(audit, id, "");
    }
  }

  lemma NextKeepsKeys(w: World, s: Step)
    requires KeysGiven(w) && GivesKey(s)
    ensures KeysGiven(Next(w, s))
  {
    match s
    case Create(id, title, description) => RowKeepsKeys(w.state.audit, AuditRow(id, Created));
    case Finish(k, rowId) =>
      if k in w.waiting {
        var r, seen := w.waiting[k].request, w.waiting[k].seen;
        if Body(w.state, r, seen, rowId).Ok? {
          var row := BodyRecords(w.state, r, seen, rowId);
          RowKeepsKeys(w.state.audit, row);
        }
      }
    case Start(k, r) =>
    case Drop(k) =>
  }

  lemma {:induction false} EveryRunKeepsKeys(steps: seq<Step>)
    requires forall i :: 0 <= i < |steps| ==> GivesKey(steps[i])
    ensures KeysGiven(Run(steps))
  {
    if steps != [] {
      EveryRunKeepsKeys(steps[..|steps| - 1]);
      NextKeepsKeys(Run(steps[..|steps| - 1]), steps[|steps| - 1]);
    }
  }

  /** Whenever every attached key is non-empty, so is the key of every command. */
  lemma CommandsHaveKeys(steps: seq<Step>, id: string)
    requires id in Run(steps).state.missions && Run(steps).state.missions[id].status != DRAFT
    requires forall i :: 0 <= i < |steps| ==> GivesKey(steps[i])
    ensures var commands := Commands(Run(steps).state.outbox, id);
      |commands| == 1 && commands[0].payload.ProcessingRequest? && commands[0].payload.videoObjectKey != ""
  {
    StatusFollowsAudit(steps, id);
    EveryRunKeepsKeys(steps);
    assert !WasAttached(Run(steps).state.audit, id, "");
  }

  // ---------------------------------------------------------------- one step, seen from one mission

  /** The step is a transaction of the mission that commits. */
  predicate Commits(w: World, s: Step, id: string) {
    && s.Finish? && s.call in w.waiting && w.waiting[s.call].request.id == id
    && Body(w.state, w.waiting[s.call].request, w.waiting[s.call].seen, s.rowId).Ok?
  }

  function Written(m: Mission, r: Request): Mission { if r.Transition? then m.(status := r.target) else Edited(m, r) }

  lemma BodyOnMission(s: State, r: Request, seen: Status, rowId: string, id: string)
    requires id in s.missions && Body(s, r, seen, rowId).Ok?
    ensures var s' := Body(s, r, seen, rowId).value;
      id in s'.missions && s'.missions[id] == if r.id == id then Written(s.missions[id], r) else s.missions[id]
    ensures r.id == id && r.Transition? ==> !s.missions[id].deleted && seen == s.missions[id].status
  {}

  lemma StepOnMission(w: World, s: Step, id: string)
    requires Inv(w) && id in w.state.missions
    ensures var m := w.state.missions[id];
      && id in Next(w, s).state.missions
      && Next(w, s).state.missions[id] == (if Commits(w, s, id) then Written(m, w.waiting[s.call].request) else m)
      && (Commits(w, s, id) && w.waiting[s.call].request.Transition? ==>
            !m.deleted && w.waiting[s.call].seen == m.status && w.waiting[s.call].request.target != DRAFT)
  {
    if s.Finish? && s.call in w.waiting {
      var r, seen := w.waiting[s.call].request, w.waiting[s.call].seen;
      if Body(w.state, r, seen, s.rowId).Ok? {
        BodyOnMission(w.state, r, seen, s.rowId, id);
      }
      if r.Transition? {
        LeavingDraft(seen, r.target);
      }
    }
  }

  lemma StepOnNew(w: World, s: Step, id: string)
    requires Inv(w) && id !in w.state.missions && id in Next(w, s).state.missions
    ensures Next(w, s).state.missions[id].status == DRAFT
  {}

  lemma StepOnCommands(w: World, s: Step, id: string)
    requires Inv(w) && id in w.state.missions && w.state.missions[id].status != DRAFT
    ensures Commands(Next(w, s).state.outbox, id) == Commands(w.state.outbox, id)
  {
    if s.Finish? && s.call in w.waiting {
      var r, seen := w.waiting[s.call].request, w.waiting[s.call].seen;
      if r.Transition? && Body(w.state, r, seen, s.rowId).Ok? {
        CommandsAfter(w.state, r, seen, s.rowId, id);
      }
    }
  }

  /** The row is the mission service's request to process the mission with that video. */
  ghost predicate Requests(row: OutboxRow, id: string, key: string) {
    && row.aggregateType == "mission" && row.aggregateId == id && row.eventType == MISSION_PROCESSING_REQUESTED
    && row.payload == ProcessingRequest(id, key) && row.causationId == None
  }

  lemma LeavesDraft(w: World, s: Step, id: string)
    requires Inv(w) && id in w.state.missions && w.state.missions[id].status == DRAFT
    requires id in Next(w, s).state.missions && Next(w, s).state.missions[id].status != DRAFT
    ensures Next(w, s).state.missions[id] == w.state.missions[id].(status := Next(w, s).state.missions[id].status)
    ensures !w.state.missions[id].deleted && |Commands(Next(w, s).state.outbox, id)| == 1
    ensures Requests(Commands(Next(w, s).state.outbox, id)[0], id, KeyOrEmpty(w.state.missions[id]))
  {
    StepOnMission(w, s, id);
    assert MissionInv(w.state, id);
    var r, seen := w.waiting[s.call].request, w.waiting[s.call].seen;
    LeavingDraft(seen, r.target);
    CommandsAfter(w.state, r, seen, s.rowId, id);
  }

  // ---------------------------------------------------------------- DRAFT only, and when

  /** The mission as it was when it left DRAFT. */
  function AsQueued(steps: seq<Step>, id: string): Option<Mission> {
    if steps == [] then None else
    var before, after := Run(steps[..|steps| - 1]).state.missions, Run(steps).state.missions;
    if id in before && id in after && before[id].status == DRAFT && after[id].status != DRAFT then Some(before[id])
    else AsQueued(steps[..|steps| - 1], id)
  }

  lemma AsQueuedOneMore(steps: seq<Step>, s: Step, id: string)
    ensures Run(steps + [s]) == Next(Run(steps), s)
    ensures var before, after := Run(steps).state.missions, Next(Run(steps), s).state.missions;
      AsQueued(steps + [s], id) ==
        if id in before && id in after && before[id].status == DRAFT && after[id].status != DRAFT then Some(before[id])
        else AsQueued(steps, id)
  {
    Snoc(steps, s);
  }

  ghost predicate CommandedAs(s: State, id: string, was: Option<Mission>) {
    && (was.Some? <==> id in s.missions && s.missions[id].status != DRAFT)
    && (was.Some? ==>
          (|Commands(s.outbox, id)| == 1
           && Requests(Commands(s.outbox, id)[0], id, KeyOrEmpty(was.value))))
  }

  lemma NextIsCommandedAs(w: World, s: Step, id: string, was: Option<Mission>)
    requires Inv(w) && CommandedAs(w.state, id, was)
    ensures var before, after := w.state.missions, Next(w, s).state.missions;
      CommandedAs(Next(w, s).state, id,
        if id in before && id in after && before[id].status == DRAFT && after[id].status != DRAFT then Some(before[id]) else was)
  {
    if id !in w.state.missions {
      if id in Next(w, s).state.missions {
        StepOnNew(w, s, id);
      }
    } else {
      StepOnMission(w, s, id);
      if w.state.missions[id].status != DRAFT {
        StepOnCommands(w, s, id);
      } else if Next(w, s).state.missions[id].status != DRAFT {
        LeavesDraft(w, s, id);
      }
    }
  }

  /** In every run, a mission has left DRAFT once or not at all, and its command asks for the video it had then. */
  lemma {:induction false} CommandIsAsQueued(steps: seq<Step>, id: string)
    ensures CommandedAs(Run(steps).state, id, AsQueued(steps, id))
  {
    if steps != [] {
      var init, last := steps[..|steps| - 1], steps[|steps| - 1];
      CommandIsAsQueued(init, id);
      EveryRunKeepsInv(init);
      InitLast(steps);
      AsQueuedOneMore(init, last, id);
      NextIsCommandedAs(Run(init), last, id, AsQueued(init, id));
    }
  }

  /** A mission that has left DRAFT is not deleted, and still has the title, description and video it left with. */
  ghost predicate DraftOnly(steps: seq<Step>, id: string) {
    AsQueued(steps, id).Some? && id in Run(steps).state.missions ==>
      var m, was := Run(steps).state.missions[id], AsQueued(steps, id).value;
      !m.deleted && m.title == was.title && m.description == was.description && m.videoObjectKey == was.videoObjectKey
  }

  /** What a use case's transaction may find: for the three that are for drafts only, a draft, or nothing to change. */
  predicate MayWrite(m: Mission, r: Request) {
    match r
    case Delete(_) => m.status == DRAFT
    case AttachVideo(_, key) => m.status == DRAFT || m.videoObjectKey == Some(key)
    case UpdateMetadata(_, title, description) =>
      m.status == DRAFT || (title in [None, Some(m.title)] && description in [None, Some(m.description)])
    case Archive(_) => true
    case Unarchive(_) => true
    case Transition(_, _, _) => true
  }

  predicate InTime(w: World, s: Step, id: string) {
    s.Finish? && s.call in w.waiting && w.waiting[s.call].request.id == id && id in w.state.missions ==>
      MayWrite(w.state.missions[id], w.waiting[s.call].request)
  }

  lemma WriteKeepsIff(m: Mission, r: Request)
    requires m.status != DRAFT && !m.deleted && !r.Transition?
    ensures var after := Edited(m, r);
      (!after.deleted && after.title == m.title && after.description == m.description && after.videoObjectKey == m.videoObjectKey)
      <==> MayWrite(m, r)
  {}

  /** One more step keeps the rule exactly when it is no late write: a deletion of a mission that is no draft any
      more, or one's metadata or video being changed. */
  lemma StepIsDraftOnlyIff(steps: seq<Step>, s: Step, id: string)
    requires DraftOnly(steps, id)
    ensures DraftOnly(steps + [s], id) <==> InTime(Run(steps), s, id)
  {
    var w := Run(steps);
    AsQueuedOneMore(steps, s, id);
    EveryRunKeepsInv(steps);
    CommandIsAsQueued(steps, id);
    CommandIsAsQueued(steps + [s], id);
    if id in w.state.missions {
      StepOnMission(w, s, id);
      var m := w.state.missions[id];
      if m.status != DRAFT {
        if s.Finish? && s.call in w.waiting && w.waiting[s.call].request.id == id && !w.waiting[s.call].request.Transition? {
          WriteKeepsIff(m, w.waiting[s.call].request);
        }
      } else if Next(w, s).state.missions[id].status != DRAFT {
        LeavesDraft(w, s, id);
      }
    }
  }

  ghost predicate AlwaysDraftOnly(steps: seq<Step>, id: string) {
    DraftOnly(steps, id) && (steps != [] ==> AlwaysDraftOnly(steps[..|steps| - 1], id))
  }

  /** No transaction of the run comes late. */
  ghost predicate NeverLate(steps: seq<Step>, id: string) {
    steps == [] ||
    (NeverLate(steps[..|steps| - 1], id) && InTime(Run(steps[..|steps| - 1]), steps[|steps| - 1], id))
  }

  /** Main result: in every interleaving, the DRAFT-only rules hold throughout for a mission exactly when each
      deletion, metadata update and video attachment of it still finds a draft when it writes, or changes nothing. */
  lemma {:induction false} AlwaysDraftOnlyIff(steps: seq<Step>, id: string)
    ensures AlwaysDraftOnly(steps, id) <==> NeverLate(steps, id)
  {
    if steps != [] {
      AlwaysDraftOnlyIff(steps[..|steps| - 1], id);
      InitLast(steps);
      if DraftOnly(steps[..|steps| - 1], id) {
        StepIsDraftOnlyIff(steps[..|steps| - 1], steps[|steps| - 1], id);
      }
    }
  }

  // ---------------------------------------------------------------- runs without interleaving

  /** Every use case finishes, or is dropped, before the next one starts. */
  ghost predicate Serial(steps: seq<Step>) {
    steps == [] ||
    (Serial(steps[..|steps| - 1]) && (steps[|steps| - 1].Start? ==> Run(steps[..|steps| - 1]).waiting == map[]))
  }

  ghost predicate UpToDate(missions: map<string, Mission>, waiting: Waiting) {
    Check(missions, waiting.request) == Ok(waiting.seen)
  }

  ghost predicate SerialInv(w: World) {
    && (forall k, l :: k in w.waiting && l in w.waiting ==> k == l)
    && (forall k :: k in w.waiting ==> UpToDate(w.state.missions, w.waiting[k]))
  }

  lemma CheckIgnoresNew(missions: map<string, Mission>, r: Request, id: string, m: Mission)
    requires id !in missions && Check(missions, r).Ok?
    ensures Check(missions[id := m], r) == Check(missions, r)
  {}

  lemma NextKeepsSerialInv(w: World, s: Step)
    requires SerialInv(w) && (s.Start? ==> w.waiting == map[])
    ensures SerialInv(Next(w, s))
  {
    match s
    case Create(id, title, description) =>
      if id !in w.state.missions {
        forall k | k in w.waiting ensures UpToDate(Next(w, s).state.missions, w.waiting[k]) {
          assert UpToDate(w.state.missions, w.waiting[k]);
          CheckIgnoresNew(w.state.missions, w.waiting[k].request, id, NewMission(title, description));
        }
      }
    case Start(k, r) =>
    case Finish(k, rowId) =>
      if k in w.waiting {
        assert w.waiting - {k} == map[];
      }
    case Drop(k) =>
  }

  lemma UpToDateIsInTime(w: World, s: Step, id: string)
    requires SerialInv(w)
    ensures InTime(w, s, id)
  {
    if s.Finish? && s.call in w.waiting {
      assert UpToDate(w.state.missions, w.waiting[s.call]);
    }
  }

  lemma {:induction false} SerialRunsAreInTime(steps: seq<Step>, id: string)
    requires Serial(steps)
    ensures SerialInv(Run(steps)) && NeverLate(steps, id)
  {
    if steps != [] {
      SerialRunsAreInTime(steps[..|steps| - 1], id);
      UpToDateIsInTime(Run(steps[..|steps| - 1]), steps[|steps| - 1], id);
      NextKeepsSerialInv(Run(steps[..|steps| - 1]), steps[|steps| - 1]);
    }
  }

  /** Without interleaving, nothing is ever late. */
  lemma SerialRunsAreDraftOnly(steps: seq<Step>, id: string)
    requires Serial(steps)
    ensures AlwaysDraftOnly(steps, id)
  {
    SerialRunsAreInTime(steps, id);
    AlwaysDraftOnlyIff(steps, id);
  }

  // ---------------------------------------------------------------- a mission that fails and is retried

  /** A call that is dropped leaves no trace, and any other can go on. */
  lemma DroppedCallIsGone(w: World, k: nat)
    ensures Next(w, Drop(k)).state == w.state
    ensures forall l :: l in Next(w, Drop(k)).waiting <==> l in w.waiting && l != k
    ensures forall l :: l in w.waiting && l != k ==> Next(w, Drop(k)).waiting[l] == w.waiting[l]
  {}

  /** A use case with nothing in between, as two steps. */
  lemma UseCaseSteps(before: seq<Step>, r: Request, rowId: string) returns (steps: seq<Step>)
    requires Run(before).waiting == map[] && Performed(Run(before).state, r, rowId).Ok?
    ensures Run(steps) == World(Performed(Run(before).state, r, rowId).value, map[])
  {
    var w := Run(before);
    var seen := Check(w.state.missions, r).value;
    AsQueuedOneMore(before, Start(0, r), r.id);
    assert Run(before + [Start(0, r)]).waiting == map[0 := Waiting(r, seen)];
    AsQueuedOneMore(before + [Start(0, r)], Finish(0, rowId), r.id);
    steps := before + [Start(0, r)] + [Finish(0, rowId)];
    assert map[0 := Waiting(r, seen)] - {0} == map[];
  }

  /** The run holds one mission only, with these edges behind it and these outbox rows. */
  ghost predicate Holds(steps: seq<Step>, id: string, m: Mission, edges: seq<(Status, Status)>, outbox: seq<OutboxRow>) {
    && Run(steps).waiting == map[] && Run(steps).state.missions == map[id := m] && !m.deleted
    && Transitions(Run(steps).state.audit, id) == edges && Run(steps).state.outbox == outbox
  }

  lemma Moves(before: seq<Step>, id: string, m: Mission, edges: seq<(Status, Status)>, outbox: seq<OutboxRow>, to: Status)
    returns (steps: seq<Step>)
    requires Holds(before, id, m, edges, outbox) && IsLegal(m.status, to) && m.status != DRAFT
    ensures Holds(steps, id, m.(status := to), edges + [(m.status, to)], outbox)
  {
    LegalEdges(m.status, to);
    TransitionAcceptedIff(Run(before).state, id, to, None, "");
    steps := UseCaseSteps(before, Transition(id, to, None), "");
    assert outbox + [] == outbox;
    TransitionsOneMore(Run(before).state.audit, AuditRow(id, Transitioned(m.status, to)), id);
  }

  lemma DraftWithVideo(id: string, key: string) returns (steps: seq<Step>)
    ensures Run(steps).waiting == map[] && AsQueued(steps, id) == None
    ensures Run(steps).state.missions == map[id := NewMission("", None).(videoObjectKey := Some(key))]
    ensures Run(steps).state.outbox == []
  {
    var m, attach := NewMission("", None), AttachVideo(id, key);
    AsQueuedOneMore([], Create(id, "", None), id);
    steps := [] + [Create(id, "", None)];
    assert Run(steps).state.missions == map[id := m];
    AsQueuedOneMore(steps, Start(0, attach), id);
    steps := steps + [Start(0, attach)];
    assert Run(steps).waiting == map[0 := Waiting(attach, DRAFT)];
    AsQueuedOneMore(steps, Finish(0, ""), id);
    steps := steps + [Finish(0, "")];
    assert Run(steps).state.missions == map[id := m.(videoObjectKey := Some(key))] && Run(steps).waiting == map[];
  }

  lemma DraftIsQueued(id: string, key: string, rowId: string) returns (steps: seq<Step>)
    requires key != ""
    ensures Holds(steps, id, NewMission("", None).(videoObjectKey := Some(key), status := QUEUED), [(DRAFT, QUEUED)],
                  [CommandRow(rowId, id, key, None)])
  {
    var before := DraftWithVideo(id, key);
    StatusFollowsAudit(before, id);
    TransitionAcceptedIff(Run(before).state, id, QUEUED, None, rowId);
    steps := UseCaseSteps(before, Transition(id, QUEUED, None), rowId);
    TransitionsOneMore(Run(before).state.audit, AuditRow(id, Transitioned(DRAFT, QUEUED)), id);
  }

  lemma FailedIsQueuedAgain(id: string, key: string, rowId: string) returns (steps: seq<Step>)
    requires key != ""
    ensures Holds(steps, id, NewMission("", None).(videoObjectKey := Some(key), status := QUEUED),
                  [(DRAFT, QUEUED), (QUEUED, PROCESSING), (PROCESSING, FAILED), (FAILED, QUEUED)],
                  [CommandRow(rowId, id, key, None)])
  {
    var m, rows := NewMission("", None).(videoObjectKey := Some(key)), [CommandRow(rowId, id, key, None)];
    var edges := [(DRAFT, QUEUED)];
    steps := DraftIsQueued(id, key, rowId);
    steps := Moves(steps, id, m.(status := QUEUED), edges, rows, PROCESSING);
    edges := edges + [(QUEUED, PROCESSING)];
    steps := Moves(steps, id, m.(status := PROCESSING), edges, rows, FAILED);
    edges := edges + [(PROCESSING, FAILED)];
    steps := Moves(steps, id, m.(status := FAILED), edges, rows, QUEUED);
  }

  /** Through FAILED and QUEUED again to COMPLETED; the command of the first time is all there is. */
  lemma FailedMissionCompletes(id: string, key: string, rowId: string) returns (steps: seq<Step>)
    requires key != ""
    ensures Run(steps).state.missions.Keys == {id} && Run(steps).state.missions[id].status == COMPLETED
    ensures Transitions(Run(steps).state.audit, id) ==
      [(DRAFT, QUEUED), (QUEUED, PROCESSING), (PROCESSING, FAILED), (FAILED, QUEUED), (QUEUED, PROCESSING), (PROCESSING, COMPLETED)]
    ensures |Commands(Run(steps).state.outbox, id)| == 1
  {
    var m, rows := NewMission("", None).(videoObjectKey := Some(key)), [CommandRow(rowId, id, key, None)];
    var edges := [(DRAFT, QUEUED), (QUEUED, PROCESSING), (PROCESSING, FAILED), (FAILED, QUEUED)];
    steps := FailedIsQueuedAgain(id, key, rowId);
    steps := Moves(steps, id, m.(status := QUEUED), edges, rows, PROCESSING);
    steps := Moves(steps, id, m.(status := PROCESSING), edges + [(QUEUED, PROCESSING)], rows, COMPLETED);
    StatusFollowsAudit(steps, id);
  }

  // ---------------------------------------------------------------- runs with a late write

  lemma BothWait(before: seq<Step>, id: string, key: string, last: Request) returns (steps: seq<Step>)
    requires key != "" && last.id == id && (last.Delete? || last.AttachVideo? || last.UpdateMetadata?)
    requires Run(before).waiting == map[] && AsQueued(before, id) == None
    requires Run(before).state.missions == map[id := NewMission("", None).(videoObjectKey := Some(key))]
    ensures AsQueued(steps, id) == None && Run(steps).state == Run(before).state
    ensures Run(steps).waiting == map[1 := Waiting(last, DRAFT), 2 := Waiting(Transition(id, QUEUED, None), DRAFT)]
  {
    AsQueuedOneMore(before, Start(1, last), id);
    steps := before + [Start(1, last)];
    assert Run(steps).waiting == map[1 := Waiting(last, DRAFT)];
    AsQueuedOneMore(steps, Start(2, Transition(id, QUEUED, None)), id);
    steps := steps + [Start(2, Transition(id, QUEUED, None))];
  }

  lemma QueueWhileWaiting(before: seq<Step>, id: string, key: string, rowId: string, last: Request) returns (steps: seq<Step>)
    requires key != "" && last.id == id && (last.Delete? || last.AttachVideo? || last.UpdateMetadata?)
    requires Run(before).waiting == map[] && AsQueued(before, id) == None
    requires Run(before).state.missions == map[id := NewMission("", None).(videoObjectKey := Some(key))]
    requires Run(before).state.outbox == []
    ensures var m := NewMission("", None).(videoObjectKey := Some(key));
      && Run(steps).waiting == map[1 := Waiting(last, DRAFT)]
      && Run(steps).state.missions == map[id := m.(status := QUEUED)]
      && Run(steps).state.outbox == [CommandRow(rowId, id, key, None)]
      && AsQueued(steps, id) == Some(m)
  {
    steps := BothWait(before, id, key, last);
    AsQueuedOneMore(steps, Finish(2, rowId), id);
    steps := steps + [Finish(2, rowId)];
    var m := NewMission("", None).(videoObjectKey := Some(key));
    assert Run(steps).state.missions == map[id := m.(status := QUEUED)];
    assert Run(steps).waiting == map[1 := Waiting(last, DRAFT)];
  }

  /** A use case that waits while a draft with a video is queued: `last` checked the draft, and writes after. */
  lemma StaleWrite(id: string, key: string, rowId: string, last: Request) returns (steps: seq<Step>)
    requires key != "" && last.id == id && (last.Delete? || last.AttachVideo? || last.UpdateMetadata?)
    ensures var m := NewMission("", None).(status := QUEUED, videoObjectKey := Some(key));
      && Run(steps).state.missions == map[id := Edited(m, last)]
      && Run(steps).state.outbox == [CommandRow(rowId, id, key, None)]
      && AsQueued(steps, id) == Some(m.(status := DRAFT))
  {
    steps := DraftWithVideo(id, key);
    steps := QueueWhileWaiting(steps, id, key, rowId, last);
    AsQueuedOneMore(steps, Finish(1, ""), id);
    steps := steps + [Finish(1, "")];
  }

  /** With interleaving the DRAFT-only rules fail: a queued mission is deleted ... */
  lemma {:induction false} QueuedMissionIsDeleted(id: string) returns (steps: seq<Step>)
    ensures id in Run(steps).state.missions
    ensures Run(steps).state.missions[id].deleted && Run(steps).state.missions[id].status == QUEUED
    ensures !DraftOnly(steps, id)
  {
    steps := StaleWrite(id, "video", "", Delete(id));
  }

  /** ... or renamed ... */
  lemma {:induction false} QueuedMissionIsRenamed(id: string, title: string) returns (steps: seq<Step>)
    ensures id in Run(steps).state.missions && Run(steps).state.missions[id].status == QUEUED
    ensures Run(steps).state.missions[id].title == title
    ensures title != "" ==> !DraftOnly(steps, id)
  {
    steps := StaleWrite(id, "video", "", UpdateMetadata(id, Some(title), None));
  }

  /** ... or its video is replaced after its command has gone out with the old one. */
  lemma {:induction false} QueuedMissionGetsOtherVideo(id: string, key: string, other: string) returns (steps: seq<Step>)
    requires key != ""
    ensures id in Run(steps).state.missions && Run(steps).state.missions[id].status == QUEUED
    ensures Run(steps).state.missions[id].videoObjectKey == Some(other)
    ensures Run(steps).state.outbox == [CommandRow("", id, key, None)]
    ensures key != other ==> !DraftOnly(steps, id)
  {
    steps := StaleWrite(id, key, "", AttachVideo(id, other));
  }
}
