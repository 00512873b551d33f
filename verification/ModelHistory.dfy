/** The registry against the plain history of which version was in production when. */
module ModelHistory {
  import opened Sequences
  import opened Wrappers
  import opened ModelRegistry

  /** The versions put into production, in order: what the audit rows record. */
  function History(audit: seq<AuditRow>): seq<string> {
    seq(|audit|, i requires 0 <= i < |audit| => audit[i].toId)
  }

  /** The last version before the current one that differs from it. */
  function Previous(h: seq<string>): Option<string> {
    if |h| < 2 then None
    else if h[|h| - 2] != h[|h| - 1] then Some(h[|h| - 2])
    else Previous(h[..|h| - 1])
  }

  /** One more than the last position of `x`, or 0. */
  function LastSeen(h: seq<string>, x: string): nat {
    if h == [] then 0 else if h[|h| - 1] == x then |h| else LastSeen(h[..|h| - 1], x)
  }

  lemma {:induction false} LastSeenBounds(h: seq<string>, x: string)
    ensures LastSeen(h, x) <= |h|
    ensures LastSeen(h, x) > 0 <==> x in h
    ensures LastSeen(h, x) > 0 ==> h[LastSeen(h, x) - 1] == x
  {
    if h != [] {
      LastSeenBounds(h[..|h| - 1], x);
      assert h == h[..|h| - 1] + [h[|h| - 1]];
    }
  }

  lemma LastSeenExtends(h: seq<string>, y: string, x: string)
    ensures LastSeen(h + [y], x) == if x == y then |h| + 1 else LastSeen(h, x)
  {
    Snoc(h, y);
  }

  lemma PreviousExtends(h: seq<string>, y: string)
    requires h != []
    ensures Previous(h + [y]) == if h[|h| - 1] != y then Some(h[|h| - 1]) else Previous(h)
  {
    Snoc(h, y);
  }

  /** The previous version is the one last seen latest, apart from the current one. */
  lemma {:induction false} PreviousIsLatest(h: seq<string>)
    requires h != []
    ensures Previous(h).Some? ==> Previous(h).value in h && Previous(h).value != h[|h| - 1]
    ensures Previous(h).Some? ==>
      forall x :: x in h && x != h[|h| - 1] && x != Previous(h).value ==> LastSeen(h, x) < LastSeen(h, Previous(h).value)
    ensures Previous(h).None? ==> forall x :: x in h ==> x == h[|h| - 1]
  {
    if |h| >= 2 {
      var init, last := h[..|h| - 1], h[|h| - 1];
      InitLast(h);
      PreviousIsLatest(init);
      forall x ensures LastSeen(h, x) == if x == last then |h| else LastSeen(init, x) {
        LastSeenExtends(init, last, x);
      }
      forall x ensures LastSeen(init, x) <= |init| && (LastSeen(init, x) == |init| ==> x == init[|init| - 1]) {
        LastSeenBounds(init, x);
      }
    }
  }

  // ---------------------------------------------------------------- the invariant

  ghost predicate DistinctIds(models: seq<ModelVersion>) {
    forall i, j :: 0 <= i < j < |models| ==> models[i].id != models[j].id
  }

  /** A version's row agrees with the history. */
  ghost predicate RowAgrees(m: ModelVersion, h: seq<string>, clock: nat) {
    && (m.promotedAt.Some? <==> m.id in h)
    && (m.promotedAt.Some? ==> m.promotedAt.value < clock)
    && m.stage == if m.id !in h then CANDIDATE else if m.id == h[|h| - 1] then PRODUCTION else STAGED
  }

  /** Promotion times order the versions as the history does. */
  ghost predicate TimesAgree(a: ModelVersion, b: ModelVersion, h: seq<string>) {
    a.promotedAt.Some? && b.promotedAt.Some? && LastSeen(h, a.id) < LastSeen(h, b.id) ==>
      a.promotedAt.value < b.promotedAt.value
  }

  /** Row `i` starts from the version the row before it put into production. */
  ghost predicate Follows(audit: seq<AuditRow>, i: nat)
    requires i < |audit|
  {
    audit[i].fromId == if i == 0 then None else Some(audit[i - 1].toId)
  }

  ghost predicate Chained(audit: seq<AuditRow>) { forall i: nat :: i < |audit| ==> Follows(audit, i) }

  ghost predicate Known(models: seq<ModelVersion>, id: string) { exists m :: m in models && m.id == id }

  ghost predicate RowsAgree(models: seq<ModelVersion>, h: seq<string>, clock: nat) {
    && DistinctIds(models)
    && (forall m :: m in models ==> RowAgrees(m, h, clock))
    && (forall a, b :: a in models && b in models ==> TimesAgree(a, b, h))
  }

  ghost predicate AllKnown(models: seq<ModelVersion>, h: seq<string>) { forall id :: id in h ==> Known(models, id) }

  ghost predicate Consistent(s: State) {
    && RowsAgree(s.models, History(s.audit), s.clock)
    && AllKnown(s.models, History(s.audit))
    && Chained(s.audit)
  }

  lemma {:induction false} FindByIdIs(models: seq<ModelVersion>, id: string)
    ensures FindById(models, id).Some? <==> Known(models, id)
    ensures FindById(models, id).Some? ==> FindById(models, id).value in models && FindById(models, id).value.id == id
  {
    if models != [] {
      FindByIdIs(models[1..], id);
      assert forall m :: m in models <==> m == models[0] || m in models[1..];
      if Known(models[1..], id) {
        var m :| m in models[1..] && m.id == id;
        assert m in models;
      }
    }
  }

  lemma {:induction false} FindProductionIs(models: seq<ModelVersion>)
    ensures FindProduction(models).Some? ==> FindProduction(models).value in models && FindProduction(models).value.stage == PRODUCTION
    ensures FindProduction(models).None? ==> forall m :: m in models ==> m.stage != PRODUCTION
  {
    if models != [] {
      FindProductionIs(models[1..]);
      assert forall m :: m in models <==> m == models[0] || m in models[1..];
    }
  }

  lemma {:induction false} FindMostRecentlyDemotedIs(models: seq<ModelVersion>, exclude: Option<string>)
    ensures var r := FindMostRecentlyDemoted(models, exclude);
      && (r.None? ==> forall m :: m in models ==> !WasDemoted(m, exclude))
      && (r.Some? ==> forall m :: m in models && WasDemoted(m, exclude) ==> m.promotedAt.value <= r.value.promotedAt.value)
  {
    if models != [] {
      FindMostRecentlyDemotedIs(models[1..], exclude);
      assert forall m :: m in models <==> m == models[0] || m in models[1..];
    }
  }

  /** In a consistent state there is at most one production version, and there is one as soon as any version
      was ever promoted: the latest of the history. */
  lemma ProductionIsLatest(s: State)
    requires Consistent(s)
    ensures forall a, b :: a in s.models && b in s.models && a.stage == PRODUCTION && b.stage == PRODUCTION ==> a == b
    ensures FindProduction(s.models).Some? <==> s.audit != []
    ensures s.audit != [] ==> FindProduction(s.models).value.id == s.audit[|s.audit| - 1].toId
  {
    var h := History(s.audit);
    FindProductionIs(s.models);
    if s.audit != [] {
      assert h[|h| - 1] in h;
      var m :| m in s.models && m.id == h[|h| - 1];
      assert RowAgrees(m, h, s.clock);
    }
  }

  /** The timestamp query finds exactly the version that was in production before the current one. */
  lemma RollbackTargetIsPrevious(s: State)
    requires Consistent(s)
    ensures RollbackTarget(s).Some? <==> Previous(History(s.audit)).Some?
    ensures RollbackTarget(s).Some? ==> RollbackTarget(s).value.id == Previous(History(s.audit)).value
  {
    var h := History(s.audit);
    var current := FindProduction(s.models);
    var exclude := if current.Some? then Some(current.value.id) else None;
    var r := RollbackTarget(s);
    ProductionIsLatest(s);
    FindMostRecentlyDemotedIs(s.models, exclude);
    if h != [] {
      PreviousIsLatest(h);
      if Previous(h).Some? {
        var m :| m in s.models && m.id == Previous(h).value;
        assert RowAgrees(m, h, s.clock) && WasDemoted(m, exclude);
        assert RowAgrees(r.value, h, s.clock);
        assert TimesAgree(r.value, m, h);
      }
    }
    if r.Some? {
      assert RowAgrees(r.value, h, s.clock);
    }
  }

  // ---------------------------------------------------------------- every run

  /** The row of a version after a transition to `targetId`. */
  function RowAfter(m: ModelVersion, targetId: string, current: Option<ModelVersion>, clock: nat, actor: Option<string>): ModelVersion {
    if m.id == targetId then m.(stage := PRODUCTION, promotedAt := Some(clock), promotedBy := actor)
    else if current.Some? && m.id == current.value.id then m.(stage := STAGED)
    else m
  }

  lemma RowsAfter(s: State, targetId: string, actor: Option<string>, action: Action)
    ensures var s', current := ApplyTransition(s, targetId, FindProduction(s.models), actor, action), FindProduction(s.models);
      && |s'.models| == |s.models|
      && (forall i :: 0 <= i < |s.models| ==> s'.models[i] == RowAfter(s.models[i], targetId, current, s.clock, actor))
      && (forall m' :: m' in s'.models ==> exists m :: m in s.models && m' == RowAfter(m, targetId, current, s.clock, actor))
      && (forall id :: Known(s.models, id) ==> Known(s'.models, id))
      && History(s'.audit) == History(s.audit) + [targetId]
  {
    var s', current := ApplyTransition(s, targetId, FindProduction(s.models), actor, action), FindProduction(s.models);
    forall i | 0 <= i < |s.models| ensures s'.models[i] == RowAfter(s.models[i], targetId, current, s.clock, actor) {}
    forall m' | m' in s'.models ensures exists m :: m in s.models && m' == RowAfter(m, targetId, current, s.clock, actor) {
      var i :| 0 <= i < |s'.models| && s'.models[i] == m';
      assert s.models[i] in s.models;
    }
    forall id | Known(s.models, id) ensures Known(s'.models, id) {
      var m :| m in s.models && m.id == id;
      var i :| 0 <= i < |s.models| && s.models[i] == m;
      assert s'.models[i] in s'.models;
    }
  }

  lemma RowAgreesAfter(s: State, m: ModelVersion, targetId: string, actor: Option<string>)
    requires Consistent(s) && m in s.models
    ensures var m' := RowAfter(m, targetId, FindProduction(s.models), s.clock, actor);
      RowAgrees(m', History(s.audit) + [targetId], s.clock + 1)
  {
    var h := History(s.audit);
    var h' := h + [targetId];
    ProductionIsLatest(s);
    assert RowAgrees(m, h, s.clock);
    assert m.id in h' <==> m.id in h || m.id == targetId;
    assert h'[|h'| - 1] == targetId;
    if h != [] {
      assert h[|h| - 1] == FindProduction(s.models).value.id;
    }
  }

  lemma TimesAgreeAfter(s: State, a: ModelVersion, b: ModelVersion, targetId: string, actor: Option<string>)
    requires Consistent(s) && a in s.models && b in s.models
    ensures TimesAgree(RowAfter(a, targetId, FindProduction(s.models), s.clock, actor),
                       RowAfter(b, targetId, FindProduction(s.models), s.clock, actor), History(s.audit) + [targetId])
  {
    var h := History(s.audit);
    LastSeenExtends(h, targetId, a.id);
    LastSeenExtends(h, targetId, b.id);
    LastSeenBounds(h, a.id);
    LastSeenBounds(h, b.id);
    assert TimesAgree(a, b, h) && RowAgrees(a, h, s.clock) && RowAgrees(b, h, s.clock);
  }

  lemma RowsStayConsistent(s: State, targetId: string, actor: Option<string>, action: Action)
    requires Consistent(s)
    ensures var s' := ApplyTransition(s, targetId, FindProduction(s.models), actor, action);
      RowsAgree(s'.models, History(s'.audit), s'.clock)
  {
    var current := FindProduction(s.models);
    var s' := ApplyTransition(s, targetId, current, actor, action);
    var h' := History(s'.audit);
    RowsAfter(s, targetId, actor, action);
    forall m' | m' in s'.models ensures RowAgrees(m', h', s'.clock) {
      var m :| m in s.models && m' == RowAfter(m, targetId, current, s.clock, actor);
      RowAgreesAfter(s, m, targetId, actor);
    }
    forall a', b' | a' in s'.models && b' in s'.models ensures TimesAgree(a', b', h') {
      var a :| a in s.models && a' == RowAfter(a, targetId, current, s.clock, actor);
      var b :| b in s.models && b' == RowAfter(b, targetId, current, s.clock, actor);
      TimesAgreeAfter(s, a, b, targetId, actor);
    }
  }

  lemma ChainExtends(audit: seq<AuditRow>, row: AuditRow)
    requires Chained(audit)
    requires row.fromId == if audit == [] then None else Some(audit[|audit| - 1].toId)
    ensures Chained(audit + [row])
  {
    forall i: nat | i < |audit + [row]| ensures Follows(audit + [row], i) {
      assert i < |audit| ==> Follows(audit, i);
    }
  }

  lemma TransitionIsConsistent(s: State, targetId: string, actor: Option<string>, action: Action)
    requires Consistent(s) && Known(s.models, targetId)
    ensures Consistent(ApplyTransition(s, targetId, FindProduction(s.models), actor, action))
  {
    var s' := ApplyTransition(s, targetId, FindProduction(s.models), actor, action);
    RowsAfter(s, targetId, actor, action);
    RowsStayConsistent(s, targetId, actor, action);
    forall id | id in History(s'.audit) ensures Known(s'.models, id) {
      assert id in History(s.audit) || id == targetId;
    }
    ProductionIsLatest(s);
    ChainExtends(s.audit, s'.audit[|s.audit|]);
  }

  datatype Op =
    | Register(id: string, runId: string, objectKey: string, run: Option<RunStatus>)
    | Promote(modelId: string, actor: Option<string>)
    | Rollback(requester: Option<string>, toId: Option<string>)

  function Perform(s: State, op: Op): (State, Option<RegistryError>) {
    match op
    case Register(id, runId, objectKey, run) => Registered(s, id, runId, objectKey, run)
    case Promote(id, actor) => TransitionProduction(s, id, actor, Promoted)
    case Rollback(actor, toId) => RolledBackState(s, actor, toId)
  }

  function Run(ops: seq<Op>): State {
    if ops == [] then Initial else Perform(Run(ops[..|ops| - 1]), ops[|ops| - 1]).0
  }

  lemma RegisterIsConsistent(s: State, id: string, runId: string, objectKey: string, run: Option<RunStatus>)
    requires Consistent(s)
    ensures Consistent(Registered(s, id, runId, objectKey, run).0)
  {
    var h, s' := History(s.audit), Registered(s, id, runId, objectKey, run).0;
    FindByIdIs(s.models, id);
    if s' != s {
      assert id !in h;
      assert forall m :: m in s'.models <==> m in s.models || m == s'.models[|s.models|];
      forall i, j | 0 <= i < j < |s'.models| ensures s'.models[i].id != s'.models[j].id {
        if j == |s.models| {
          assert s.models[i] in s.models;
        }
      }
      forall x | x in h ensures Known(s'.models, x) {
        var m :| m in s.models && m.id == x;
        assert m in s'.models;
      }
    }
  }

  lemma StepIsConsistent(s: State, op: Op)
    requires Consistent(s)
    ensures Consistent(Perform(s, op).0)
  {
    match op
    case Register(id, runId, objectKey, run) =>
      RegisterIsConsistent(s, id, runId, objectKey, run);
    case Promote(id, actor) =>
      FindByIdIs(s.models, id);
      if Known(s.models, id) {
        TransitionIsConsistent(s, id, actor, Promoted);
      }
    case Rollback(actor, toId) =>
      if toId.Some? && toId.value != "" {
        FindByIdIs(s.models, toId.value);
        if Known(s.models, toId.value) {
          TransitionIsConsistent(s, toId.value, actor, RolledBack);
        }
      } else if RollbackTarget(s).Some? {
        assert Known(s.models, RollbackTarget(s).value.id);
        TransitionIsConsistent(s, RollbackTarget(s).value.id, actor, RolledBack);
      }
  }

  /** Over every run: one production version at most, exactly one once something was promoted, timestamps that
      agree with the history, and audit rows that chain from the first promotion to the current version. */
  lemma {:induction false} EveryRunIsConsistent(ops: seq<Op>)
    ensures Consistent(Run(ops))
  {
    if ops != [] {
      EveryRunIsConsistent(ops[..|ops| - 1]);
      StepIsConsistent(Run(ops[..|ops| - 1]), ops[|ops| - 1]);
    }
  }

  /** The production version of a state. */
  function InProduction(s: State): Option<string> {
    if FindProduction(s.models).Some? then Some(FindProduction(s.models).value.id) else None
  }

  /** One rollback without target, from any consistent state. */
  lemma RollbackRestoresPrevious(s: State, actor: Option<string>)
    requires Consistent(s)
    ensures var (s', e) := Perform(s, Rollback(actor, None));
      var h := History(s.audit);
      && Consistent(s')
      && (e.None? <==> Previous(h).Some?)
      && (e.None? ==> InProduction(s') == Previous(h) && History(s'.audit) == h + [Previous(h).value])
      && (e.Some? ==> s' == s)
  {
    RollbackTargetIsPrevious(s);
    StepIsConsistent(s, Rollback(actor, None));
    var (s', e) := Perform(s, Rollback(actor, None));
    if e.None? {
      ProductionIsLatest(s');
    }
  }

  /** After any run, a rollback without target succeeds exactly when two different versions have been in
      production; it puts back the one before the current, and a second one undoes it. */
  lemma RollbackTwiceRestores(ops: seq<Op>, first: Option<string>, second: Option<string>)
    ensures var s := Run(ops);
      var (s1, e1) := Perform(s, Rollback(first, None));
      var (s2, e2) := Perform(s1, Rollback(second, None));
      && (e1.None? <==> Previous(History(s.audit)).Some?)
      && (e1.None? ==> InProduction(s1) == Previous(History(s.audit)))
      && (e1.None? ==> e2.None? && InProduction(s2) == InProduction(s) && InProduction(s).Some?)
      && (e1.Some? ==> s1 == s)
  {
    var s := Run(ops);
    var h := History(s.audit);
    var (s1, e1) := Perform(s, Rollback(first, None));
    EveryRunIsConsistent(ops);
    RollbackRestoresPrevious(s, first);
    if e1.None? {
      ProductionIsLatest(s);
      PreviousIsLatest(h);
      PreviousExtends(h, Previous(h).value);
      RollbackRestoresPrevious(s1, second);
    }
  }

  /** A rollback to a named version succeeds exactly when the version is registered, and puts it into production;
      whether it ever was there before, or is still a candidate, makes no difference. */
  lemma ExplicitRollback(s: State, actor: Option<string>, id: string)
    requires Consistent(s) && id != ""
    ensures var (s', e) := Perform(s, Rollback(actor, Some(id)));
      && (e.None? <==> Known(s.models, id))
      && (e.None? ==> Consistent(s') && InProduction(s') == Some(id) && History(s'.audit) == History(s.audit) + [id])
      && (e.None? ==> (FindById(s.models, id).value.stage == CANDIDATE <==> id !in History(s.audit)))
      && (e.Some? ==> s' == s)
  {
    FindByIdIs(s.models, id);
    StepIsConsistent(s, Rollback(actor, Some(id)));
    var (s', e) := Perform(s, Rollback(actor, Some(id)));
    if e.None? {
      RowsAfter(s, id, actor, RolledBack);
      ProductionIsLatest(s');
      assert RowAgrees(FindById(s.models, id).value, History(s.audit), s.clock);
    }
  }

  /** A row before and after version `id` goes into production. */
  ghost predicate Changed(m: ModelVersion, m': ModelVersion, id: string, clock: nat, actor: Option<string>) {
    m' == if m.id == id then ModelVersion(id, m.trainingRunId, m.objectKey, PRODUCTION, Some(clock), actor)
          else if m.stage == PRODUCTION then m.(stage := STAGED) else m
  }

  lemma RowIsChanged(s: State, m: ModelVersion, id: string, actor: Option<string>)
    requires Consistent(s) && m in s.models
    ensures Changed(m, RowAfter(m, id, FindProduction(s.models), s.clock, actor), id, s.clock, actor)
  {
    ProductionIsLatest(s);
    FindProductionIs(s.models);
    if FindProduction(s.models).Some? && m.id == FindProduction(s.models).value.id {
      assert RowAgrees(m, History(s.audit), s.clock);
    }
  }

  /** A change of production in full: the version gets the stage, the time and the actor, the one in production
      before it becomes STAGED, no other row changes, and the audit row says who replaced which by which. */
  lemma ProductionChanges(s: State, id: string, actor: Option<string>, action: Action)
    requires Consistent(s) && Known(s.models, id)
    ensures var s' := ApplyTransition(s, id, FindProduction(s.models), actor, action);
      && |s'.models| == |s.models|
      && (forall i :: 0 <= i < |s.models| ==> Changed(s.models[i], s'.models[i], id, s.clock, actor))
      && s'.audit == s.audit + [AuditRow(action, InProduction(s), id, actor)] && s'.clock > s.clock
  {
    RowsAfter(s, id, actor, action);
    forall i | 0 <= i < |s.models|
      ensures Changed(s.models[i], RowAfter(s.models[i], id, FindProduction(s.models), s.clock, actor), id, s.clock, actor)
    {
      RowIsChanged(s, s.models[i], id, actor);
    }
  }

  /** A promotion succeeds exactly for a registered version; an unknown one changes nothing. */
  lemma PromoteIff(s: State, id: string, actor: Option<string>)
    requires Consistent(s)
    ensures var (s', e) := Perform(s, Promote(id, actor));
      if Known(s.models, id)
      then e == None && s' == ApplyTransition(s, id, FindProduction(s.models), actor, Promoted) && InProduction(s') == Some(id)
      else e == Some(ModelNotFound) && s' == s
  {
    FindByIdIs(s.models, id);
    if Known(s.models, id) {
      TransitionIsConsistent(s, id, actor, Promoted);
      RowsAfter(s, id, actor, Promoted);
      ProductionIsLatest(ApplyTransition(s, id, FindProduction(s.models), actor, Promoted));
    }
  }

  /** A version is registered exactly when its training run is completed and its id is new; it starts as a candidate
      that was never promoted. */
  lemma RegisterIff(s: State, id: string, runId: string, objectKey: string, run: Option<RunStatus>)
    ensures var (s', e) := Perform(s, Register(id, runId, objectKey, run));
      if run == None then e == Some(TrainingRunNotFound) && s' == s
      else if run != Some(COMPLETED) then e == Some(TrainingRunNotCompleted) && s' == s
      else if Known(s.models, id) then e == Some(DuplicateId) && s' == s
      else e == None && s'.audit == s.audit && s'.models == s.models + [ModelVersion(id, runId, objectKey, CANDIDATE, None, None)]
  {
    FindByIdIs(s.models, id);
  }

  lemma RunOneMore(ops: seq<Op>, op: Op)
    ensures Run(ops + [op]) == Perform(Run(ops), op).0
  {
    Snoc(ops, op);
  }

  lemma RegisterIsKnown(s: State, id: string)
    ensures var s' := Registered(s, id, "run", "key", Some(COMPLETED)).0;
      Known(s'.models, id) && s'.audit == s.audit && forall x :: Known(s.models, x) ==> Known(s'.models, x)
  {
    FindByIdIs(s.models, id);
    var s' := Registered(s, id, "run", "key", Some(COMPLETED)).0;
    assert s' != s ==> s'.models[|s.models|] in s'.models;
    forall x | Known(s.models, x) ensures Known(s'.models, x) {
      var m :| m in s.models && m.id == x;
      assert m in s'.models;
    }
  }

  lemma TwoCandidates(first: string, second: string) returns (ops: seq<Op>)
    requires first != second
    ensures Known(Run(ops).models, first) && Known(Run(ops).models, second) && Run(ops).audit == []
  {
    var a, b := Register(first, "run", "key", Some(COMPLETED)), Register(second, "run", "key", Some(COMPLETED));
    RunOneMore([], a);
    RegisterIsKnown(Initial, first);
    RunOneMore([] + [a], b);
    RegisterIsKnown(Run([] + [a]), second);
    ops := [] + [a] + [b];
  }

  lemma FirstPromotion(s: State, first: string, other: string)
    requires Known(s.models, first) && Known(s.models, other) && s.audit == []
    ensures var s' := Perform(s, Promote(first, None)).0; Known(s'.models, other) && History(s'.audit) == [first]
  {
    FindByIdIs(s.models, first);
    RowsAfter(s, first, None, Promoted);
    assert History(s.audit) + [first] == [first];
  }

  /** Such a run: the version rolled back to has never been in production. */
  lemma RollbackToCandidate(first: string, candidate: string) returns (ops: seq<Op>)
    requires first != candidate && candidate != ""
    ensures FindById(Run(ops).models, candidate).Some? && FindById(Run(ops).models, candidate).value.stage == CANDIDATE
    ensures var (s', e) := Perform(Run(ops), Rollback(None, Some(candidate)));
      e.None? && InProduction(s') == Some(candidate) && History(s'.audit) == [first, candidate]
  {
    var registered := TwoCandidates(first, candidate);
    RunOneMore(registered, Promote(first, None));
    FirstPromotion(Run(registered), first, candidate);
    ops := registered + [Promote(first, None)];
    EveryRunIsConsistent(ops);
    ExplicitRollback(Run(ops), None, candidate);
    FindByIdIs(Run(ops).models, candidate);
  }

  lemma {:induction false} TwoVersionsHavePrevious(h: seq<string>)
    ensures Previous(h).Some? <==> exists x, y :: x in h && y in h && x != y
  {
    if h != [] {
      PreviousIsLatest(h);
      if Previous(h).Some? {
        assert h[|h| - 1] in h;
      }
    }
  }
}
