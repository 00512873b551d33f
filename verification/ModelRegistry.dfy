/** The model registry: registering versions, promoting one to production, rolling back. */
module ModelRegistry {
  import opened Wrappers

  datatype Stage = CANDIDATE | STAGED | PRODUCTION | RETIRED

  /** `promotedAt` is the time of the version's latest promotion. */
  datatype ModelVersion = ModelVersion(id: string, trainingRunId: string, objectKey: string, stage: Stage,
                                       promotedAt: Option<nat>, promotedBy: Option<string>)

  datatype Action = Promoted | RolledBack

  datatype AuditRow = AuditRow(action: Action, fromId: Option<string>, toId: string, actor: Option<string>)

  datatype RegistryError = TrainingRunNotFound | TrainingRunNotCompleted | DuplicateId | ModelNotFound | NothingToRollBackTo

  datatype RunStatus = PENDING | RUNNING | COMPLETED | FAILED

  /** The two tables and the clock, which moves on with every reading. */
  datatype State = State(models: seq<ModelVersion>, audit: seq<AuditRow>, clock: nat)

  const Initial := State([], [], 0)

  // ---------------------------------------------------------------- repository queries and updates

  function FindById(models: seq<ModelVersion>, id: string): Option<ModelVersion> {
    if models == [] then None else if models[0].id == id then Some(models[0]) else FindById(models[1..], id)
  }

  function FindProduction(models: seq<ModelVersion>): Option<ModelVersion> {
    if models == [] then None else if models[0].stage == PRODUCTION then Some(models[0]) else FindProduction(models[1..])
  }

  predicate WasDemoted(m: ModelVersion, exclude: Option<string>) {
    m.stage == STAGED && m.promotedAt.Some? && (exclude.None? || m.id != exclude.value)
  }

  /** The row with the greatest `promotedAt` among the demoted ones. */
  function FindMostRecentlyDemoted(models: seq<ModelVersion>, exclude: Option<string>): (r: Option<ModelVersion>)
    ensures r.Some? ==> r.value in models && WasDemoted(r.value, exclude)
  {
    if models == [] then None else
    var rest := FindMostRecentlyDemoted(models[1..], exclude);
    if WasDemoted(models[0], exclude) && (rest.None? || rest.value.promotedAt.value <= models[0].promotedAt.value)
    then Some(models[0]) else rest
  }

  /** Without a promotion, only the stage is written. */
  function Restaged(m: ModelVersion, stage: Stage, promotion: Option<(nat, Option<string>)>): ModelVersion {
    if promotion.None? then m.(stage := stage)
    else m.(stage := stage, promotedAt := Some(promotion.value.0), promotedBy := promotion.value.1)
  }

  function SetStage(models: seq<ModelVersion>, id: string, stage: Stage, promotion: Option<(nat, Option<string>)>)
    : seq<ModelVersion>
  {
    seq(|models|, i requires 0 <= i < |models| =>
      if models[i].id == id then Restaged(models[i], stage, promotion) else models[i])
  }

  // ---------------------------------------------------------------- service transactions

  function ApplyTransition(s: State, targetId: string, current: Option<ModelVersion>, actor: Option<string>, action: Action): State {
    var demoted := if current.Some? && current.value.id != targetId
                   then SetStage(s.models, current.value.id, STAGED, None) else s.models;
    State(SetStage(demoted, targetId, PRODUCTION, Some((s.clock, actor))),
          s.audit + [AuditRow(action, if current.Some? then Some(current.value.id) else None, targetId, actor)],
          s.clock + 1)
  }

  function TransitionProduction(s: State, id: string, actor: Option<string>, action: Action): (State, Option<RegistryError>) {
    if FindById(s.models, id).None? then (s, Some(ModelNotFound))
    else (ApplyTransition(s, id, FindProduction(s.models), actor, action), None)
  }

  function RollbackTarget(s: State): Option<ModelVersion> {
    var current := FindProduction(s.models);
    FindMostRecentlyDemoted(s.models, if current.Some? then Some(current.value.id) else None)
  }

  /** An absent and an empty target both mean "the previous one". */
  function RolledBackState(s: State, actor: Option<string>, toId: Option<string>): (State, Option<RegistryError>) {
    if toId.Some? && toId.value != "" then TransitionProduction(s, toId.value, actor, RolledBack)
    else if RollbackTarget(s).None? then (s, Some(NothingToRollBackTo))
    else (ApplyTransition(s, RollbackTarget(s).value.id, FindProduction(s.models), actor, RolledBack), None)
  }

  function Registered(s: State, id: string, runId: string, objectKey: string, run: Option<RunStatus>): (State, Option<RegistryError>) {
    if run.None? then (s, Some(TrainingRunNotFound))
    else if run.value != COMPLETED then (s, Some(TrainingRunNotCompleted))
    else if FindById(s.models, id).Some? then (s, Some(DuplicateId))
    else (s.(models := s.models + [ModelVersion(id, runId, objectKey, CANDIDATE, None, None)]), None)
  }

  /** `ModelRegistryService` over its repository; each method body is one transaction. */
  class ModelRegistryService {
    var models: seq<ModelVersion>
    var audit: seq<AuditRow>
    var clock: nat

    ghost function Abstract(): State reads this { State(models, audit, clock) }

    constructor ()
      ensures Abstract() == Initial
    {
      models, audit, clock := [], [], 0;
    }

    method Register(id: string, runId: string, objectKey: string, run: Option<RunStatus>) returns (error: Option<RegistryError>)
      modifies this
      ensures (Abstract(), error) == Registered(old(Abstract()), id, runId, objectKey, run)
    {
      if run.None? {
        return Some(TrainingRunNotFound);
      }
      if run.value != COMPLETED {
        return Some(TrainingRunNotCompleted);
      }
      if FindById(models, id).Some? {
        return Some(DuplicateId);
      }
      models := models + [ModelVersion(id, runId, objectKey, CANDIDATE, None, None)];
      error := None;
    }

    method Promote(id: string, actor: Option<string>) returns (error: Option<RegistryError>)
      modifies this
      ensures (Abstract(), error) == TransitionProduction(old(Abstract()), id, actor, Promoted)
    {
      if FindById(models, id).None? {
        return Some(ModelNotFound);
      }
      ApplyProductionTransition(id, FindProduction(models), actor, Promoted);
      error := None;
    }

    method Rollback(actor: Option<string>, toId: Option<string>) returns (error: Option<RegistryError>)
      modifies this
      ensures (Abstract(), error) == RolledBackState(old(Abstract()), actor, toId)
    {
      if toId.Some? && toId.value != "" {
        if FindById(models, toId.value).None? {
          return Some(ModelNotFound);
        }
        ApplyProductionTransition(toId.value, FindProduction(models), actor, RolledBack);
        return None;
      }
      var current := FindProduction(models);
      var target := FindMostRecentlyDemoted(models, if current.Some? then Some(current.value.id) else None);
      if target.None? {
        return Some(NothingToRollBackTo);
      }
      ApplyProductionTransition(target.value.id, current, actor, RolledBack);
      error := None;
    }

    /** Demote the current version (unless it is the target), promote the target, audit. */
    method ApplyProductionTransition(targetId: string, current: Option<ModelVersion>, actor: Option<string>, action: Action)
      modifies this
      ensures Abstract() == ApplyTransition(old(Abstract()), targetId, current, actor, action)
    {
      if current.Some? && current.value.id != targetId {
        models := SetStage(models, current.value.id, STAGED, None);
      }
      var promotedAt := clock;
      clock := clock + 1;
      models := SetStage(models, targetId, PRODUCTION, Some((promotedAt, actor)));
      audit := audit + [AuditRow(action, if current.Some? then Some(current.value.id) else None, targetId, actor)];
    }
  }
}
