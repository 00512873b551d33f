/** The mission service: each use case reads and checks first, then writes in a transaction of its own. */
module Missions {
  import opened Wrappers
  import opened OutboxRows

  datatype Status = DRAFT | QUEUED | PROCESSING | COMPLETED | FAILED

  datatype Mission = Mission(title: string, description: Option<string>, status: Status, videoObjectKey: Option<string>,
                             deleted: bool, archived: bool)

  datatype Action =
    | Created
    | MetadataUpdated
    | Transitioned(from: Status, to: Status)
    | Deleted
    | Archived
    | Unarchived
    | VideoAttached(key: string)

  datatype AuditRow = AuditRow(missionId: string, action: Action)

  datatype State = State(missions: map<string, Mission>, audit: seq<AuditRow>, outbox: seq<OutboxRow>)

  /** Every use case on an existing mission. An absent title or description is left as it is. */
  datatype Request =
    | UpdateMetadata(id: string, title: Option<string>, description: Option<Option<string>>)
    | Transition(id: string, target: Status, correlationId: Option<string>)
    | Delete(id: string)
    | Archive(id: string)
    | Unarchive(id: string)
    | AttachVideo(id: string, key: string)

  datatype MissionError =
    | NotFound
    | NotEditable
    | NotDeletable
    | IllegalTransition(from: Status, to: Status)
    | VideoRequired
    | ChangedConcurrently
    | GoneAfterWrite

  function LegalTargets(from: Status): seq<Status> {
    match from
    case DRAFT => [QUEUED]
    case QUEUED => [PROCESSING]
    case PROCESSING => [COMPLETED, FAILED]
    case COMPLETED => []
    case FAILED => [QUEUED]
  }

  predicate IsLegal(from: Status, to: Status) { to in LegalTargets(from) }

  // ---------------------------------------------------------------- what a use case does, in two parts

  /** Deleted missions are not found. */
  function FindById(missions: map<string, Mission>, id: string): Option<Mission> {
    if id in missions && !missions[id].deleted then Some(missions[id]) else None
  }

  predicate HasVideo(m: Mission) { m.videoObjectKey.Some? && m.videoObjectKey.value != "" }

  /** The read before the transaction: the status it saw, or why the use case stops there. */
  function Check(missions: map<string, Mission>, r: Request): Result<Status, MissionError> {
    var found := FindById(missions, r.id);
    if found.None? then Err(NotFound) else
    var m := found.value;
    match r
    case UpdateMetadata(_, _, _) => if m.status != DRAFT then Err(NotEditable) else Ok(m.status)
    case AttachVideo(_, _) => if m.status != DRAFT then Err(NotEditable) else Ok(m.status)
    case Delete(_) => if m.status != DRAFT then Err(NotDeletable) else Ok(m.status)
    case Archive(_) => Ok(m.status)
    case Unarchive(_) => Ok(m.status)
    case Transition(_, target, _) =>
      if !IsLegal(m.status, target) then Err(IllegalTransition(m.status, target))
      else if target == QUEUED && m.status == DRAFT && !HasVideo(m) then Err(VideoRequired)
      else Ok(m.status)
  }

  function Edited(m: Mission, r: Request): Mission
    requires !r.Transition?
  {
    match r
    case UpdateMetadata(_, title, description) =>
      m.(title := if title.Some? then title.value else m.title,
         description := if description.Some? then description.value else m.description)
    case AttachVideo(_, key) => m.(videoObjectKey := Some(key))
    case Delete(_) => m.(deleted := true)
    case Archive(_) => m.(archived := true)
    case Unarchive(_) => m.(archived := false)
  }

  function ActionOf(r: Request): Action
    requires !r.Transition?
  {
    match r
    case UpdateMetadata(_, _, _) => MetadataUpdated
    case AttachVideo(_, key) => VideoAttached(key)
    case Delete(_) => Deleted
    case Archive(_) => Archived
    case Unarchive(_) => Unarchived
  }

  function KeyOrEmpty(m: Mission): string { if m.videoObjectKey.Some? then m.videoObjectKey.value else "" }

  /** The transaction, given the status the check saw: the new state, or an error that changes nothing. Only a
      transition looks at the status again; the others, deletion apart, only find out whether the row is gone. */
  function Body(s: State, r: Request, seen: Status, rowId: string): Result<State, MissionError> {
    if r.Transition? then
      var found := FindById(s.missions, r.id);
      if found.None? then Err(NotFound)
      else if found.value.status != seen then Err(ChangedConcurrently)
      else Ok(State(
        s.missions[r.id := found.value.(status := r.target)],
        s.audit + [AuditRow(r.id, Transitioned(seen, r.target))],
        s.outbox + if seen == DRAFT && r.target == QUEUED
                   then [CommandRow(rowId, r.id, KeyOrEmpty(found.value), r.correlationId)] else []))
    else if r.id !in s.missions || (!r.Delete? && s.missions[r.id].deleted) then
      Err(if r.Archive? || r.Unarchive? then NotFound else GoneAfterWrite)
    else
      Ok(State(s.missions[r.id := Edited(s.missions[r.id], r)], s.audit + [AuditRow(r.id, ActionOf(r))], s.outbox))
  }

  function NewMission(title: string, description: Option<string>): Mission {
    Mission(title, description, DRAFT, None, false, false)
  }

  // ---------------------------------------------------------------- what each use case accepts, and does

  /** A whole use case with nothing in between. */
  function Performed(s: State, r: Request, rowId: string): Result<State, MissionError> {
    var seen := Check(s.missions, r);
    if seen.Err? then Err(seen.error) else Body(s, r, seen.value, rowId)
  }

  predicate Live(s: State, id: string) { id in s.missions && !s.missions[id].deleted }

  /** The state with one mission changed, one audit row more and some outbox rows more. */
  function Recorded(s: State, id: string, m: Mission, action: Action, rows: seq<OutboxRow>): State {
    State(s.missions[id := m], s.audit + [AuditRow(id, action)], s.outbox + rows)
  }

  /** The five edges: a mission is queued, processed, and completed or failed; only a failed one starts again, and
      only a completed one is final. */
  lemma LegalEdges(from: Status, to: Status)
    ensures IsLegal(from, to) == ((from, to) in
      {(DRAFT, QUEUED), (QUEUED, PROCESSING), (PROCESSING, COMPLETED), (PROCESSING, FAILED), (FAILED, QUEUED)})
    ensures (forall t :: !IsLegal(from, t)) <==> from == COMPLETED
  {
    assert from == DRAFT ==> IsLegal(from, QUEUED);
    assert from == QUEUED ==> IsLegal(from, PROCESSING);
    assert from == PROCESSING ==> IsLegal(from, COMPLETED);
    assert from == FAILED ==> IsLegal(from, QUEUED);
  }

  /** A transition is accepted for a live mission along one of the five edges, out of DRAFT only with a video; it
      changes the status alone, records the edge, and asks for processing exactly when it leaves DRAFT. */
  lemma TransitionAcceptedIff(s: State, id: string, to: Status, correlationId: Option<string>, rowId: string)
    ensures var result := Performed(s, Transition(id, to, correlationId), rowId);
      if !Live(s, id) then result == Err(NotFound) else
      var m := s.missions[id];
      if (m.status, to) !in
        {(DRAFT, QUEUED), (QUEUED, PROCESSING), (PROCESSING, COMPLETED), (PROCESSING, FAILED), (FAILED, QUEUED)}
      then result == Err(IllegalTransition(m.status, to))
      else if m.status == DRAFT && (m.videoObjectKey == None || m.videoObjectKey == Some("")) then result == Err(VideoRequired)
      else result == Ok(Recorded(s, id, m.(status := to), Transitioned(m.status, to),
        if m.status != DRAFT then [] else
        [OutboxRow(rowId, "mission", id, "MISSION_PROCESSING_REQUESTED",
                   ProcessingRequest(id, m.videoObjectKey.value), correlationId, None)]))
  {
    if Live(s, id) {
      LegalEdges(s.missions[id].status, to);
    }
  }

  /** A failed mission can be queued again, without a second request. */
  lemma FailedIsRetried(s: State, id: string, correlationId: Option<string>, rowId: string)
    requires Live(s, id) && s.missions[id].status == FAILED
    ensures var result := Performed(s, Transition(id, QUEUED, correlationId), rowId);
      result.Ok? && result.value.missions == s.missions[id := s.missions[id].(status := QUEUED)] && result.value.outbox == s.outbox
  {
    TransitionAcceptedIff(s, id, QUEUED, correlationId, rowId);
    assert s.outbox + [] == s.outbox;
  }

  predicate ForDraftsOnly(r: Request) { r.UpdateMetadata? || r.AttachVideo? || r.Delete? }

  /** The other use cases are accepted for a live mission, three of them only in DRAFT; each changes what its name
      says and nothing else, and is recorded. */
  lemma EditAcceptedIff(s: State, r: Request, rowId: string)
    requires !r.Transition?
    ensures var result := Performed(s, r, rowId);
      if !Live(s, r.id) then result == Err(NotFound) else
      var m := s.missions[r.id];
      if ForDraftsOnly(r) && m.status != DRAFT then result == Err(if r.Delete? then NotDeletable else NotEditable) else
      match r
      case UpdateMetadata(_, title, description) =>
        result == Ok(Recorded(s, r.id, Mission(if title == None then m.title else title.value,
                                               if description == None then m.description else description.value,
                                               m.status, m.videoObjectKey, false, m.archived), MetadataUpdated, []))
      case AttachVideo(_, key) =>
        result == Ok(Recorded(s, r.id, Mission(m.title, m.description, m.status, Some(key), false, m.archived), VideoAttached(key), []))
      case Delete(_) =>
        result == Ok(Recorded(s, r.id, Mission(m.title, m.description, m.status, m.videoObjectKey, true, m.archived), Deleted, []))
      case Archive(_) =>
        result == Ok(Recorded(s, r.id, Mission(m.title, m.description, m.status, m.videoObjectKey, false, true), Archived, []))
      case Unarchive(_) =>
        result == Ok(Recorded(s, r.id, Mission(m.title, m.description, m.status, m.videoObjectKey, false, false), Unarchived, []))
  {
    assert s.outbox + [] == s.outbox;
  }

  /** Whether a write that comes after its check still takes place. A transition needs the status it saw; a
      deletion only the row, deleted or not; every other write a mission that is not deleted. */
  lemma LateWriteIff(s: State, r: Request, seen: Status, rowId: string)
    ensures var result := Body(s, r, seen, rowId);
      match r
      case Transition(id, _, _) =>
        && (result == Err(NotFound) <==> !Live(s, id))
        && (result == Err(ChangedConcurrently) <==> Live(s, id) && s.missions[id].status != seen)
        && (result.Ok? <==> Live(s, id) && s.missions[id].status == seen)
      case Delete(id) => (result.Ok? <==> id in s.missions) && (result.Err? ==> result.error == GoneAfterWrite)
      case Archive(id) => (result.Ok? <==> Live(s, id)) && (result.Err? ==> result.error == NotFound)
      case Unarchive(id) => (result.Ok? <==> Live(s, id)) && (result.Err? ==> result.error == NotFound)
      case UpdateMetadata(id, _, _) => (result.Ok? <==> Live(s, id)) && (result.Err? ==> result.error == GoneAfterWrite)
      case AttachVideo(id, _) => (result.Ok? <==> Live(s, id)) && (result.Err? ==> result.error == GoneAfterWrite)
  {}

  // ---------------------------------------------------------------- the service

  class MissionsService {
    var missions: map<string, Mission>
    var audit: seq<AuditRow>
    var outbox: seq<OutboxRow>

    ghost function Abstract(): State reads this { State(missions, audit, outbox) }

    constructor ()
      ensures Abstract() == State(map[], [], [])
    {
      missions, audit, outbox := map[], [], [];
    }

    /** `id` is the freshly generated one. */
    method Create(id: string, title: string, description: Option<string>)
      requires id !in missions
      modifies this
      ensures missions == old(missions)[id := NewMission(title, description)]
      ensures missions[id] == Mission(title, description, DRAFT, None, false, false)
      ensures audit == old(audit) + [AuditRow(id, Created)] && outbox == old(outbox)
    {
      missions := missions[id := Mission(title, description, DRAFT, None, false, false)];
      audit := audit + [AuditRow(id, Created)];
    }

    /** The guarded updates of the repository; a write is seen again at once. */
    method Write(r: Request) returns (found: bool)
      requires !r.Transition? && r.id in missions
      modifies this`missions
      ensures found == (r.id in missions && !missions[r.id].deleted)
      ensures r.Delete? || !old(missions)[r.id].deleted ==> missions == old(missions)[r.id := Edited(old(missions)[r.id], r)]
      ensures !r.Delete? && old(missions)[r.id].deleted ==> !found
    {
      var m := missions[r.id];
      match r {
        case UpdateMetadata(id, title, description) =>
          if title.Some? {
            m := m.(title := title.value);
          }
          if description.Some? {
            m := m.(description := description.value);
          }
        case AttachVideo(id, key) => m := m.(videoObjectKey := Some(key));
        case Delete(id) => if !m.deleted { m := m.(deleted := true); }
        case Archive(id) => if !m.archived { m := m.(archived := true); }
        case Unarchive(id) => if m.archived { m := m.(archived := false); }
      }
      missions := missions[r.id := m];
      found := !m.deleted;
    }

    /** The transaction of every use case but transition: write, record, and roll back if the row is gone. */
    method EditBody(r: Request, ghost seen: Status, ghost rowId: string) returns (result: Result<(), MissionError>)
      requires !r.Transition? && r.id in missions
      modifies this
      ensures result.Ok? <==> Body(old(Abstract()), r, seen, rowId).Ok?
      ensures result.Ok? ==> Abstract() == Body(old(Abstract()), r, seen, rowId).value
      ensures result.Err? ==> Abstract() == old(Abstract()) && result.error == Body(old(Abstract()), r, seen, rowId).error
    {
      var before := missions;
      var found := Write(r);
      if !found && !r.Delete? {
        missions := before;
        return Err(if r.Archive? || r.Unarchive? then NotFound else GoneAfterWrite);
      }
      audit := audit + [AuditRow(r.id, ActionOf(r))];
      result := Ok(());
    }

    /** The transaction of a transition: the status is checked again, and a mission that leaves DRAFT gets its
        command row together with its status. */
    method TransitionBody(r: Request, seen: Status, rowId: string) returns (result: Result<(), MissionError>)
      requires r.Transition?
      modifies this
      ensures result.Ok? <==> Body(old(Abstract()), r, seen, rowId).Ok?
      ensures result.Ok? ==> Abstract() == Body(old(Abstract()), r, seen, rowId).value
      ensures result.Err? ==> Abstract() == old(Abstract()) && result.error == Body(old(Abstract()), r, seen, rowId).error
    {
      var current := FindById(missions, r.id);
      if current.None? {
        return Err(NotFound);
      }
      if current.value.status != seen {
        return Err(ChangedConcurrently);
      }
      missions := missions[r.id := current.value.(status := r.target)];
      audit := audit + [AuditRow(r.id, Transitioned(seen, r.target))];
      if seen == DRAFT && r.target == QUEUED {
        outbox := outbox + [CommandRow(rowId, r.id, KeyOrEmpty(current.value), r.correlationId)];
      }
      result := Ok(());
    }

    /** A whole use case with nothing in between. */
    method Perform(r: Request, rowId: string) returns (result: Result<(), MissionError>)
      modifies this
      ensures result.Ok? <==> Performed(old(Abstract()), r, rowId).Ok?
      ensures result.Ok? ==> Performed(old(Abstract()), r, rowId) == Ok(Abstract())
      ensures result.Err? ==> Abstract() == old(Abstract()) && Performed(old(Abstract()), r, rowId) == Err(result.error)
      ensures result.Ok? <==> Check(old(missions), r).Ok?
    {
      var seen := Check(missions, r);
      if seen.Err? {
        return Err(seen.error);
      }
      if r.Transition? {
        result := TransitionBody(r, seen.value, rowId);
      } else {
        result := EditBody(r, seen.value, rowId);
      }
    }
  }
}
