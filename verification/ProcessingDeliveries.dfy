/** Deliveries of processing events in flight, with other deliveries and other writers in between. */
module ProcessingDeliveries {
  import opened Sequences
  import opened Wrappers
  import opened Missions
  import opened ProcessingHandler

  /** A recorded event being handled: how many of its tries have failed, and the status its current try has
      checked, if it is between the check and the transaction. */
  datatype Flight = Flight(event: ProcessingEvent, failed: nat, seen: Option<Status>)

  datatype End = End(eventId: string, outcome: Outcome)

  /** `transitions` counts the commits of the tries, and `unreported` those of them that were reported as failures. */
  datatype World = World(state: State, processed: set<string>, flights: map<nat, Flight>, ended: seq<End>,
                         transitions: nat, unreported: nat)

  /** `Elsewhere` is any other writer's work on the tables. */
  datatype Step =
    | Record(flight: nat, event: ProcessingEvent)
    | CheckTry(flight: nat)
    | FailTry(flight: nat)
    | BodyTry(flight: nat, reported: bool)
    | SendDeadLetter(flight: nat, sent: bool)
    | Crash(flight: nat)
    | Elsewhere(state: State)

  function Initial(s: State): World { World(s, {}, map[], [], 0, 0) }

  // ---------------------------------------------------------------- steps; one that is not enabled changes nothing

  function Fly(w: World, k: nat, f: Flight): World { w.(flights := w.flights[k := f]) }

  /** The handling of an event ends. */
  function Land(w: World, k: nat, outcome: Outcome): World
    requires k in w.flights
  {
    w.(flights := w.flights - {k}, ended := w.ended + [End(w.flights[k].event.eventId, outcome)])
  }

  /** A try has failed. */
  function Failed(f: Flight): Flight { Flight(f.event, f.failed + 1, None) }

  predicate MayTry(w: World, k: nat) {
    k in w.flights && w.flights[k].failed < RETRY_ATTEMPTS && w.flights[k].seen.None? && Known(w.flights[k].event)
  }

  predicate MayCommit(w: World, k: nat) {
    k in w.flights && w.flights[k].failed < RETRY_ATTEMPTS && w.flights[k].seen.Some? && Known(w.flights[k].event)
  }

  predicate Exhausted(w: World, k: nat) { k in w.flights && w.flights[k].failed == RETRY_ATTEMPTS }

  function DoCheck(w: World, k: nat): World
    requires MayTry(w, k)
  {
    var f := w.flights[k];
    var seen := Check(w.state.missions, RequestOf(f.event));
    Fly(w, k, if seen.Err? then Failed(f) else f.(seen := Some(seen.value)))
  }

  /** The tables after the transaction, if it commits. */
  function Committed(w: World, k: nat): Result<State, MissionError>
    requires MayCommit(w, k)
  {
    Body(w.state, RequestOf(w.flights[k].event), w.flights[k].seen.value, "")
  }

  function DoBody(w: World, k: nat, reported: bool): World
    requires MayCommit(w, k)
  {
    var f, after := w.flights[k], Committed(w, k);
    if after.Err? then Fly(w, k, Failed(f))
    else if reported then Land(w, k, Returned).(state := after.value, transitions := w.transitions + 1)
    else Fly(w, k, Failed(f)).(state := after.value, transitions := w.transitions + 1, unreported := w.unreported + 1)
  }

  function Next(w: World, s: Step): World {
    match s
    case Record(k, e) =>
      if k in w.flights || !Known(e) || e.eventId in w.processed then w
      else Fly(w, k, Flight(e, 0, None)).(processed := w.processed + {e.eventId})
    case CheckTry(k) => if MayTry(w, k) then DoCheck(w, k) else w
    case FailTry(k) => if MayTry(w, k) || MayCommit(w, k) then Fly(w, k, Failed(w.flights[k])) else w
    case BodyTry(k, reported) => if MayCommit(w, k) then DoBody(w, k, reported) else w
    case SendDeadLetter(k, sent) => if Exhausted(w, k) then Land(w, k, if sent then DeadLettered else Lost) else w
    case Crash(k) => if k in w.flights then Land(w, k, Lost) else w
    case Elsewhere(state) => w.(state := state)
  }

  function RunFrom(w: World, steps: seq<Step>): World {
    if steps == [] then w else Next(RunFrom(w, steps[..|steps| - 1]), steps[|steps| - 1])
  }

  // ---------------------------------------------------------------- every event accounted for

  function Flying(flights: map<nat, Flight>): map<nat, string> { map k | k in flights :: flights[k].event.eventId }

  ghost predicate HasEnded(ended: seq<End>, x: string) { exists i :: 0 <= i < |ended| && ended[i].eventId == x }

  ghost predicate Flies(flying: map<nat, string>, x: string) { exists k :: k in flying && flying[k] == x }

  ghost predicate EndsDiffer(ended: seq<End>) {
    forall i, j :: 0 <= i < j < |ended| ==> ended[i].eventId != ended[j].eventId
  }

  ghost predicate FlightsDiffer(flying: map<nat, string>) {
    forall k, l :: k in flying && l in flying && k != l ==> flying[k] != flying[l]
  }

  /** Each recorded id is in flight or has ended, once. */
  ghost predicate Accounted(processed: set<string>, ended: seq<End>, flying: map<nat, string>) {
    && EndsDiffer(ended) && FlightsDiffer(flying)
    && (forall x :: x in processed <==> HasEnded(ended, x) || Flies(flying, x))
    && (forall x :: !(HasEnded(ended, x) && Flies(flying, x)))
    && |processed| == |ended| + |flying|
  }

  /** The ids that ended so, in the order they did. */
  function EndedBy(ended: seq<End>, outcome: Outcome): seq<string> {
    if ended == [] then [] else
    var last := ended[|ended| - 1];
    EndedBy(ended[..|ended| - 1], outcome) + if last.outcome == outcome then [last.eventId] else []
  }

  ghost predicate ValidFlight(f: Flight) { Known(f.event) && f.failed <= RETRY_ATTEMPTS }

  ghost predicate ValidFlights(flights: map<nat, Flight>) { forall k :: k in flights ==> ValidFlight(flights[k]) }

  ghost predicate Balanced(w: World) {
    && Accounted(w.processed, w.ended, Flying(w.flights))
    && w.transitions == |EndedBy(w.ended, Returned)| + w.unreported
    && ValidFlights(w.flights)
  }

  lemma FliesOneMore(flying: map<nat, string>, k: nat, x: string)
    requires FlightsDiffer(flying) && k !in flying && !Flies(flying, x)
    ensures FlightsDiffer(flying[k := x]) && |flying[k := x]| == |flying| + 1
    ensures forall y :: Flies(flying[k := x], y) <==> Flies(flying, y) || y == x
  {
    var more := flying[k := x];
    forall y ensures Flies(more, y) <==> Flies(flying, y) || y == x {
      if l :| l in flying && flying[l] == y {
        assert more[l] == y;
      }
      assert more[k] == x;
    }
  }

  lemma FliesOneLess(flying: map<nat, string>, k: nat)
    requires FlightsDiffer(flying) && k in flying
    ensures FlightsDiffer(flying - {k}) && |flying - {k}| == |flying| - 1
    ensures forall y :: Flies(flying - {k}, y) <==> Flies(flying, y) && y != flying[k]
  {
    var less := flying - {k};
    assert less.Keys == flying.Keys - {k} && |less| == |less.Keys| && |flying| == |flying.Keys|;
    forall y ensures Flies(less, y) <==> Flies(flying, y) && y != flying[k] {
      if l :| l in flying && flying[l] == y && y != flying[k] {
        assert less[l] == y;
      }
    }
  }

  lemma EndedOneMore(ended: seq<End>, e: End)
    requires EndsDiffer(ended) && !HasEnded(ended, e.eventId)
    ensures EndsDiffer(ended + [e])
    ensures forall y :: HasEnded(ended + [e], y) <==> HasEnded(ended, y) || y == e.eventId
  {
    var more := ended + [e];
    forall y ensures HasEnded(more, y) <==> HasEnded(ended, y) || y == e.eventId {
      if i :| 0 <= i < |ended| && ended[i].eventId == y {
        assert more[i].eventId == y;
      }
      assert more[|ended|] == e;
    }
  }

  lemma RecordKeepsAccount(processed: set<string>, ended: seq<End>, flying: map<nat, string>, k: nat, x: string)
    requires Accounted(processed, ended, flying) && k !in flying && x !in processed
    ensures Accounted(processed + {x}, ended, flying[k := x])
  {
    FliesOneMore(flying, k, x);
  }

  lemma EndKeepsAccount(processed: set<string>, ended: seq<End>, flying: map<nat, string>, k: nat, outcome: Outcome)
    requires Accounted(processed, ended, flying) && k in flying
    ensures Accounted(processed, ended + [End(flying[k], outcome)], flying - {k})
  {
    assert Flies(flying, flying[k]);
    FliesOneLess(flying, k);
    EndedOneMore(ended, End(flying[k], outcome));
  }

  lemma EndedByOneMore(ended: seq<End>, e: End, outcome: Outcome)
    ensures EndedBy(ended + [e], outcome) == EndedBy(ended, outcome) + if e.outcome == outcome then [e.eventId] else []
  {
    Snoc(ended, e);
  }

  lemma {:induction false} EveryEndIsOne(ended: seq<End>)
    ensures |ended| == |EndedBy(ended, Returned)| + |EndedBy(ended, DeadLettered)| + |EndedBy(ended, Lost)|
  {
    if ended != [] {
      EveryEndIsOne(ended[..|ended| - 1]);
    }
  }

  lemma RecordKeepsBalance(w: World, k: nat, e: ProcessingEvent)
    requires Balanced(w) && k !in w.flights && Known(e) && e.eventId !in w.processed
    ensures Balanced(Fly(w, k, Flight(e, 0, None)).(processed := w.processed + {e.eventId}))
  {
    RecordKeepsAccount(w.processed, w.ended, Flying(w.flights), k, e.eventId);
    assert Flying(w.flights[k := Flight(e, 0, None)]) == Flying(w.flights)[k := e.eventId];
  }

  /** An end keeps the balance, if a return comes with a reported commit. */
  lemma LandKeepsBalance(w: World, k: nat, outcome: Outcome, s: State)
    requires Balanced(w) && k in w.flights
    ensures Balanced(Land(w, k, outcome).(state := s, transitions := w.transitions + if outcome.Returned? then 1 else 0))
  {
    EndKeepsAccount(w.processed, w.ended, Flying(w.flights), k, outcome);
    assert Flying(w.flights - {k}) == Flying(w.flights) - {k};
    EndedByOneMore(w.ended, End(w.flights[k].event.eventId, outcome), Returned);
    assert |EndedBy(w.ended, Returned) + []| == |EndedBy(w.ended, Returned)|;
  }

  /** Going on keeps the balance, with any number of unreported commits. */
  lemma FlyKeepsBalance(w: World, k: nat, f: Flight, s: State, hidden: nat)
    requires Balanced(w) && k in w.flights && f.event == w.flights[k].event && f.failed <= RETRY_ATTEMPTS
    ensures Balanced(Fly(w, k, f).(state := s, transitions := w.transitions + hidden, unreported := w.unreported + hidden))
  {
    assert Flying(w.flights[k := f]) == Flying(w.flights);
  }

  lemma CheckKeepsBalance(w: World, k: nat)
    requires Balanced(w) && MayTry(w, k)
    ensures Balanced(DoCheck(w, k))
  {
    var f := w.flights[k];
    var seen := Check(w.state.missions, RequestOf(f.event));
    FlyKeepsBalance(w, k, if seen.Err? then Failed(f) else f.(seen := Some(seen.value)), w.state, 0);
  }

  lemma BodyKeepsBalance(w: World, k: nat, reported: bool)
    requires Balanced(w) && MayCommit(w, k)
    ensures Balanced(DoBody(w, k, reported))
  {
    var f, after := w.flights[k], Committed(w, k);
    if after.Err? {
      FlyKeepsBalance(w, k, Failed(f), w.state, 0);
    } else if reported {
      LandKeepsBalance(w, k, Returned, after.value);
    } else {
      FlyKeepsBalance(w, k, Failed(f), after.value, 1);
    }
  }

  lemma FailKeepsBalance(w: World, k: nat)
    requires Balanced(w)
    ensures Balanced(Next(w, FailTry(k)))
  {
    if MayTry(w, k) || MayCommit(w, k) {
      FlyKeepsBalance(w, k, Failed(w.flights[k]), w.state, 0);
    }
  }

  lemma StopKeepsBalance(w: World, s: Step)
    requires Balanced(w) && (s.SendDeadLetter? || s.Crash?)
    ensures Balanced(Next(w, s))
  {
    if s.flight in w.flights {
      LandKeepsBalance(w, s.flight, if s.SendDeadLetter? && s.sent then DeadLettered else Lost, w.state);
    }
  }

  lemma NextKeepsBalance(w: World, s: Step)
    requires Balanced(w)
    ensures Balanced(Next(w, s))
  {
    match s
    case Record(k, e) =>
      if k !in w.flights && Known(e) && e.eventId !in w.processed {
        RecordKeepsBalance(w, k, e);
      }
    case CheckTry(k) => if MayTry(w, k) { CheckKeepsBalance(w, k); }
    case FailTry(k) => FailKeepsBalance(w, k);
    case BodyTry(k, reported) => if MayCommit(w, k) { BodyKeepsBalance(w, k, reported); }
    case SendDeadLetter(_, _) => StopKeepsBalance(w, s);
    case Crash(_) => StopKeepsBalance(w, s);
    case Elsewhere(state) =>
  }

  lemma {:induction false} RunKeepsBalance(w: World, steps: seq<Step>)
    requires Balanced(w)
    ensures Balanced(RunFrom(w, steps))
  {
    if steps != [] {
      RunKeepsBalance(w, steps[..|steps| - 1]);
      NextKeepsBalance(RunFrom(w, steps[..|steps| - 1]), steps[|steps| - 1]);
    }
  }

  /** Main result: with any number of deliveries in flight, redelivered in any way, with any faults and crashes,
      and with any other writer between a check and its transaction or between two tries, every recorded event is
      in flight or has ended, once; and recorded + unreported commits = transitions + dead letters + lost + in
      flight. */
  lemma EveryEventEndsOnce(s: State, steps: seq<Step>)
    ensures var w := RunFrom(Initial(s), steps);
      && Accounted(w.processed, w.ended, Flying(w.flights))
      && w.transitions == |EndedBy(w.ended, Returned)| + w.unreported
      && |w.processed| + w.unreported ==
           w.transitions + |EndedBy(w.ended, DeadLettered)| + |EndedBy(w.ended, Lost)| + |w.flights|
  {
    var w := RunFrom(Initial(s), steps);
    assert Flying(map[]) == map[];
    RunKeepsBalance(Initial(s), steps);
    EveryEndIsOne(w.ended);
    assert Flying(w.flights).Keys == w.flights.Keys;
    assert |Flying(w.flights)| == |Flying(w.flights).Keys| == |w.flights.Keys| == |w.flights|;
  }

  // ---------------------------------------------------------------- what loses an event, and what hides a transition

  /** A crash before the end, or a dead letter that cannot be sent. */
  predicate Loses(w: World, s: Step) {
    (s.Crash? && s.flight in w.flights) || (s.SendDeadLetter? && Exhausted(w, s.flight) && !s.sent)
  }

  /** A commit that is reported as a failure. */
  predicate Hides(w: World, s: Step) {
    s.BodyTry? && !s.reported && MayCommit(w, s.flight) && Committed(w, s.flight).Ok?
  }

  lemma LosesIff(w: World, s: Step)
    ensures Next(w, s).unreported == w.unreported + if Hides(w, s) then 1 else 0
    ensures |EndedBy(Next(w, s).ended, Lost)| == |EndedBy(w.ended, Lost)| + if Loses(w, s) then 1 else 0
  {
    forall e: End ensures EndedBy(w.ended + [e], Lost) == EndedBy(w.ended, Lost) + if e.outcome == Lost then [e.eventId] else [] {
      EndedByOneMore(w.ended, e, Lost);
    }
  }

  /** No step of the run loses an event or hides a transition. */
  ghost predicate Clean(w: World, steps: seq<Step>) {
    steps == [] ||
    (Clean(w, steps[..|steps| - 1]) &&
     !Loses(RunFrom(w, steps[..|steps| - 1]), steps[|steps| - 1]) && !Hides(RunFrom(w, steps[..|steps| - 1]), steps[|steps| - 1]))
  }

  /** The run is clean exactly when nothing is lost and no commit went unreported; then the events that have ended
      are transitions and dead letters. */
  lemma {:induction false} CleanIff(s: State, steps: seq<Step>)
    ensures var w := RunFrom(Initial(s), steps);
      && (Clean(Initial(s), steps) <==> EndedBy(w.ended, Lost) == [] && w.unreported == 0)
      && (Clean(Initial(s), steps) ==> |w.processed| == w.transitions + |EndedBy(w.ended, DeadLettered)| + |w.flights|)
  {
    EveryEventEndsOnce(s, steps);
    if steps != [] {
      CleanIff(s, steps[..|steps| - 1]);
      LosesIff(RunFrom(Initial(s), steps[..|steps| - 1]), steps[|steps| - 1]);
    }
  }

  // ---------------------------------------------------------------- one delivery with nothing in between

  function TrySteps(k: nat, fault: Fault): seq<Step> {
    if fault.FailsBefore? then [FailTry(k)] else [CheckTry(k), BodyTry(k, fault.NoFault?)]
  }

  function Tries(k: nat, faults: seq<Fault>, n: nat): seq<Step> {
    if n == 0 then [] else Tries(k, faults, n - 1) + TrySteps(k, FaultAt(faults, n))
  }

  /** The steps of one delivery as the handler takes them; those that come too late are not enabled. */
  function Uninterrupted(k: nat, e: ProcessingEvent, faults: seq<Fault>, deadLetterSent: bool): seq<Step> {
    [Record(k, e)] + (Tries(k, faults, RETRY_ATTEMPTS) + [SendDeadLetter(k, deadLetterSent)])
  }

  lemma {:induction false} RunsOn(w: World, a: seq<Step>, b: seq<Step>)
    ensures RunFrom(w, a + b) == RunFrom(RunFrom(w, a), b)
  {
    if b == [] {
      assert a + b == a;
    } else {
      InitOfConcat(a, b);
      RunsOn(w, a, b[..|b| - 1]);
    }
  }

  lemma OneStep(w: World, s: Step)
    ensures RunFrom(w, [s]) == Next(w, s)
  {
    Snoc([], s);
    assert [] + [s] == [s];
    assert RunFrom(w, []) == w;
  }

  lemma TwoSteps(w: World, s: Step, t: Step)
    ensures RunFrom(w, [s, t]) == Next(Next(w, s), t)
  {
    OneStep(w, s);
    Snoc([s], t);
    assert [s] + [t] == [s, t];
  }

  function CommitsOf(before: State, after: State): nat {
    if |before.audit| <= |after.audit| then |after.audit| - |before.audit| else 0
  }

  /** The world once the first `n` tries of a flight have come to `run`. */
  function Tried(w: World, k: nat, run: (State, bool), n: nat): World
    requires k in w.flights && (run.1 ==> CommitsOf(w.state, run.0) > 0)
  {
    var commits := CommitsOf(w.state, run.0);
    (if run.1 then Land(w, k, Returned) else Fly(w, k, Flight(w.flights[k].event, n, None)))
    .(state := run.0, transitions := w.transitions + commits, unreported := w.unreported + commits - if run.1 then 1 else 0)
  }

  lemma {:induction false} TriesCommit(s: State, r: Request, faults: seq<Fault>, n: nat)
    requires r.Transition?
    ensures var run := TryAgain(s, r, faults, n); |s.audit| <= |run.0.audit| && (run.1 ==> CommitsOf(s, run.0) > 0)
  {
    if n > 0 {
      TriesCommit(s, r, faults, n - 1);
    }
  }

  lemma Reland(flights: map<nat, Flight>, k: nat, f: Flight, g: Flight)
    ensures flights[k := f] - {k} == flights - {k} && flights[k := f][k := g] == flights[k := g]
  {}

  /** The transaction of a flight that has passed its check in these tables. */
  lemma BodyIsTry(w: World, k: nat, seen: Status, fault: Fault)
    requires MayTry(w, k) && !fault.FailsBefore? && Check(w.state.missions, RequestOf(w.flights[k].event)) == Ok(seen)
    ensures var run := Try(w.state, RequestOf(w.flights[k].event), fault);
      && (run.1 ==> CommitsOf(w.state, run.0) > 0)
      && Next(Fly(w, k, w.flights[k].(seen := Some(seen))), BodyTry(k, fault.NoFault?)) == Tried(w, k, run, w.flights[k].failed + 1)
  {
    var f := w.flights[k];
    Reland(w.flights, k, f.(seen := Some(seen)), Failed(f));
  }

  /** Another writer that changes the status between the check and the transaction makes the try fail; its own
      work stays. */
  lemma WriterBetweenFailsTry(w: World, k: nat, state: State, reported: bool)
    requires MayCommit(w, k)
    requires var id := w.flights[k].event.missionId;
      id in state.missions ==> state.missions[id].status != w.flights[k].seen.value
    ensures var w' := Next(Next(w, Elsewhere(state)), BodyTry(k, reported));
      && w'.state == state && w'.transitions == w.transitions
      && w'.flights == w.flights[k := Flight(w.flights[k].event, w.flights[k].failed + 1, None)]
  {
    LateWriteIff(state, RequestOf(w.flights[k].event), w.flights[k].seen.value, "");
  }

  /** A try may fail before its check or between check and transaction; either way it counts and writes nothing. */
  lemma FailedTryCounts(w: World, k: nat)
    requires MayTry(w, k) || MayCommit(w, k)
    ensures var f := w.flights[k];
      Next(w, FailTry(k)) == w.(flights := w.flights[k := Flight(f.event, f.failed + 1, None)])
  {}

  lemma RefusedIsTry(w: World, k: nat, fault: Fault)
    requires MayTry(w, k) && Check(w.state.missions, RequestOf(w.flights[k].event)).Err?
    ensures Try(w.state, RequestOf(w.flights[k].event), fault) == (w.state, false)
    ensures Next(Next(w, CheckTry(k)), BodyTry(k, fault.NoFault?)) == Tried(w, k, (w.state, false), w.flights[k].failed + 1)
  {}

  lemma FailedIsTry(w: World, k: nat, fault: Fault)
    requires MayTry(w, k) && fault.FailsBefore?
    ensures Try(w.state, RequestOf(w.flights[k].event), fault) == (w.state, false)
    ensures Next(w, FailTry(k)) == Tried(w, k, (w.state, false), w.flights[k].failed + 1)
  {}

  lemma TryStepsRun(w: World, k: nat, fault: Fault)
    ensures RunFrom(w, TrySteps(k, fault)) ==
      if fault.FailsBefore? then Next(w, FailTry(k)) else Next(Next(w, CheckTry(k)), BodyTry(k, fault.NoFault?))
  {
    if fault.FailsBefore? {
      OneStep(w, FailTry(k));
    } else {
      TwoSteps(w, CheckTry(k), BodyTry(k, fault.NoFault?));
    }
  }

  lemma CheckedIs(w: World, k: nat, seen: Status)
    requires MayTry(w, k) && Check(w.state.missions, RequestOf(w.flights[k].event)) == Ok(seen)
    ensures Next(w, CheckTry(k)) == Fly(w, k, w.flights[k].(seen := Some(seen)))
  {}

  /** A try of a flight, as steps, is the handler's try. */
  lemma TryStepsAre(w: World, k: nat, fault: Fault)
    requires MayTry(w, k)
    ensures var run := Try(w.state, RequestOf(w.flights[k].event), fault);
      && (run.1 ==> CommitsOf(w.state, run.0) > 0)
      && RunFrom(w, TrySteps(k, fault)) == Tried(w, k, run, w.flights[k].failed + 1)
  {
    var seen := Check(w.state.missions, RequestOf(w.flights[k].event));
    TryStepsRun(w, k, fault);
    if fault.FailsBefore? {
      FailedIsTry(w, k, fault);
    } else if seen.Ok? {
      CheckedIs(w, k, seen.value);
      BodyIsTry(w, k, seen.value, fault);
    } else {
      RefusedIsTry(w, k, fault);
    }
  }

  lemma LandedStays(w: World, k: nat, fault: Fault)
    requires k !in w.flights
    ensures RunFrom(w, TrySteps(k, fault)) == w
  {
    if fault.FailsBefore? {
      OneStep(w, FailTry(k));
    } else {
      TwoSteps(w, CheckTry(k), BodyTry(k, fault.NoFault?));
    }
  }

  lemma OneMoreTry(w: World, k: nat, before: (State, bool), fault: Fault, n: nat)
    requires 0 < n <= RETRY_ATTEMPTS && k in w.flights && Known(w.flights[k].event)
    requires |w.state.audit| <= |before.0.audit| && (before.1 ==> CommitsOf(w.state, before.0) > 0)
    ensures var run := if before.1 then before else Try(before.0, RequestOf(w.flights[k].event), fault);
      && (run.1 ==> CommitsOf(w.state, run.0) > 0)
      && RunFrom(Tried(w, k, before, n - 1), TrySteps(k, fault)) == Tried(w, k, run, n)
  {
    var mid := Tried(w, k, before, n - 1);
    if before.1 {
      LandedStays(mid, k, fault);
    } else {
      TryStepsAre(mid, k, fault);
      var f := mid.flights[k];
      assert w.flights[k := f] - {k} == w.flights - {k};
      assert w.flights[k := f][k := Flight(f.event, n, None)] == w.flights[k := Flight(f.event, n, None)];
    }
  }

  lemma NoTriesYet(w: World, k: nat, faults: seq<Fault>)
    requires k in w.flights && w.flights[k] == Flight(w.flights[k].event, 0, None)
    ensures RunFrom(w, Tries(k, faults, 0)) == Tried(w, k, (w.state, false), 0)
  {
    assert w.flights[k := w.flights[k]] == w.flights;
  }

  lemma TriesOneMore(w: World, k: nat, faults: seq<Fault>, n: nat)
    requires n > 0
    ensures RunFrom(w, Tries(k, faults, n)) == RunFrom(RunFrom(w, Tries(k, faults, n - 1)), TrySteps(k, FaultAt(faults, n)))
  {
    RunsOn(w, Tries(k, faults, n - 1), TrySteps(k, FaultAt(faults, n)));
  }

  /** The first `n` tries of a flight, as steps, have come to what the handler's have. */
  ghost predicate TriedAgain(w: World, k: nat, r: Request, faults: seq<Fault>, n: nat)
    requires k in w.flights
  {
    var run := TryAgain(w.state, r, faults, n);
    (run.1 ==> CommitsOf(w.state, run.0) > 0) && RunFrom(w, Tries(k, faults, n)) == Tried(w, k, run, n)
  }

  lemma AgainOnce(w: World, k: nat, faults: seq<Fault>, n: nat)
    requires 0 < n <= RETRY_ATTEMPTS && k in w.flights && Known(w.flights[k].event)
    requires TriedAgain(w, k, RequestOf(w.flights[k].event), faults, n - 1)
    ensures TriedAgain(w, k, RequestOf(w.flights[k].event), faults, n)
  {
    var r := RequestOf(w.flights[k].event);
    TriesCommit(w.state, r, faults, n - 1);
    TriesOneMore(w, k, faults, n);
    OneMoreTry(w, k, TryAgain(w.state, r, faults, n - 1), FaultAt(faults, n), n);
  }

  lemma {:induction false} TriesAreTryAgain(w: World, k: nat, faults: seq<Fault>, n: nat)
    requires n <= RETRY_ATTEMPTS && k in w.flights && Known(w.flights[k].event) && w.flights[k] == Flight(w.flights[k].event, 0, None)
    ensures TriedAgain(w, k, RequestOf(w.flights[k].event), faults, n)
  {
    if n == 0 {
      NoTriesYet(w, k, faults);
    } else {
      TriesAreTryAgain(w, k, faults, n - 1);
      AgainOnce(w, k, faults, n);
    }
  }

  lemma {:induction false} TriesLanded(w: World, k: nat, faults: seq<Fault>, n: nat)
    requires k !in w.flights
    ensures RunFrom(w, Tries(k, faults, n)) == w
  {
    if n > 0 {
      TriesLanded(w, k, faults, n - 1);
      TriesOneMore(w, k, faults, n);
      LandedStays(w, k, FaultAt(faults, n));
    }
  }

  lemma SettlesAfter(w: World, k: nat, faults: seq<Fault>, deadLetterSent: bool)
    requires k in w.flights && Known(w.flights[k].event)
    ensures var e := w.flights[k].event;
      var end := Settled(w.state, e, faults, deadLetterSent);
      var run := TryAgain(w.state, RequestOf(e), faults, RETRY_ATTEMPTS);
      var commits := CommitsOf(w.state, end.0);
      && (end.1.Returned? ==> commits > 0)
      && Next(Tried(w, k, run, RETRY_ATTEMPTS), SendDeadLetter(k, deadLetterSent)) ==
           World(end.0, w.processed, w.flights - {k}, w.ended + [End(e.eventId, end.1)],
                 w.transitions + commits, w.unreported + commits - if end.1.Returned? then 1 else 0)
  {
    var e := w.flights[k].event;
    TriesCommit(w.state, RequestOf(e), faults, RETRY_ATTEMPTS);
    assert w.flights[k := Flight(e, RETRY_ATTEMPTS, None)] - {k} == w.flights - {k};
  }

  lemma InOrder(w: World, k: nat, e: ProcessingEvent, faults: seq<Fault>, deadLetterSent: bool)
    ensures RunFrom(w, Uninterrupted(k, e, faults, deadLetterSent)) ==
      Next(RunFrom(Next(w, Record(k, e)), Tries(k, faults, RETRY_ATTEMPTS)), SendDeadLetter(k, deadLetterSent))
  {
    var tries, send := Tries(k, faults, RETRY_ATTEMPTS), SendDeadLetter(k, deadLetterSent);
    RunsOn(w, [Record(k, e)], tries + [send]);
    OneStep(w, Record(k, e));
    RunsOn(Next(w, Record(k, e)), tries, [send]);
    OneStep(RunFrom(Next(w, Record(k, e)), tries), send);
  }

  lemma NewIsHandled(w: World, k: nat, e: ProcessingEvent, faults: seq<Fault>, deadLetterSent: bool)
    requires k !in w.flights && Known(e) && e.eventId !in w.processed
    ensures var w' := Next(RunFrom(Next(w, Record(k, e)), Tries(k, faults, RETRY_ATTEMPTS)), SendDeadLetter(k, deadLetterSent));
      var end := Settled(w.state, e, faults, deadLetterSent);
      var commits := CommitsOf(w.state, end.0);
      && (end.1.Returned? ==> commits > 0)
      && w' == World(end.0, w.processed + {e.eventId}, w.flights, w.ended + [End(e.eventId, end.1)],
                     w.transitions + commits, w.unreported + commits - if end.1.Returned? then 1 else 0)
  {
    var w1 := Next(w, Record(k, e));
    assert w1.flights - {k} == w.flights;
    TriesAreTryAgain(w1, k, faults, RETRY_ATTEMPTS);
    SettlesAfter(w1, k, faults, deadLetterSent);
  }

  /** The delivery's steps, one after the other, are the handler's: an unknown or recorded event changes nothing,
      and any other ends as the handler settles it. */
  lemma UninterruptedIsHandled(w: World, k: nat, e: ProcessingEvent, faults: seq<Fault>, deadLetterSent: bool)
    requires k !in w.flights
    ensures var w' := RunFrom(w, Uninterrupted(k, e, faults, deadLetterSent));
      if !Known(e) || e.eventId in w.processed then w' == w else
      var end := Settled(w.state, e, faults, deadLetterSent);
      var commits := CommitsOf(w.state, end.0);
      && (end.1.Returned? ==> commits > 0)
      && w' == World(end.0, w.processed + {e.eventId}, w.flights, w.ended + [End(e.eventId, end.1)],
                     w.transitions + commits, w.unreported + commits - if end.1.Returned? then 1 else 0)
  {
    InOrder(w, k, e, faults, deadLetterSent);
    if Known(e) && e.eventId !in w.processed {
      NewIsHandled(w, k, e, faults, deadLetterSent);
    } else {
      TriesLanded(w, k, faults, RETRY_ATTEMPTS);
    }
  }

  /** A new event delivered without interruption moves its mission exactly when the mission is there, the transition
      is legal and a try gets through; and it is dead-lettered although it moved the mission exactly when the dead
      letter goes out, the transition is possible, and the first try to get through commits and then raises. */
  lemma DeadLetteredThoughMovedIff(w: World, k: nat, e: ProcessingEvent, faults: seq<Fault>, deadLetterSent: bool)
    requires k !in w.flights && Known(e) && e.eventId !in w.processed
    ensures var w' := RunFrom(w, Uninterrupted(k, e, faults, deadLetterSent));
      var r := RequestOf(e);
      && w'.state == (if MayMove(w.state, r) && !NothingThrough(faults, RETRY_ATTEMPTS) then Moved(w.state, r) else w.state)
      && (w'.state != w.state && w'.ended == w.ended + [End(e.eventId, DeadLettered)] <==>
            deadLetterSent && MayMove(w.state, r) && CommitsUnreported(faults, RETRY_ATTEMPTS))
  {
    var r, end := RequestOf(e), Settled(w.state, e, faults, deadLetterSent);
    UninterruptedIsHandled(w, k, e, faults, deadLetterSent);
    TriesMoveOnce(w.state, r, faults, RETRY_ATTEMPTS);
    OneMoreFault(faults, RETRY_ATTEMPTS);
    assert MayMove(w.state, r) ==> |Moved(w.state, r).audit| == |w.state.audit| + 1;
    assert (w.ended + [End(e.eventId, end.1)])[|w.ended|] == End(e.eventId, end.1);
  }
}
