/** A command's emission, consumed: where the mission ends up, and which events are dead-lettered. */
module ProcessingRuns {
  import opened Sequences
  import opened Missions
  import opened ProcessingWorker
  import Handler = ProcessingHandler
  import Flights = ProcessingDeliveries

  type Event = Handler.ProcessingEvent

  function TargetOf(k: Kind): Status {
    match k
    case Started => PROCESSING
    case Completed => COMPLETED
    case Failed => FAILED
  }

  function KindOf(e: Event): Kind {
    if e.eventType == "PROCESSING_STARTED" then Started
    else if e.eventType == "PROCESSING_COMPLETED" then Completed
    else Failed
  }

  function Kinds(events: seq<Event>): seq<Kind> {
    seq(|events|, i requires 0 <= i < |events| => KindOf(events[i]))
  }

  function Ids(events: seq<Event>): seq<string> {
    seq(|events|, i requires 0 <= i < |events| => events[i].eventId)
  }

  // ---------------------------------------------------------------- the status machine alone

  /** The status after the events in order; those whose transition is illegal change nothing. */
  function StatusAfter(from: Status, kinds: seq<Kind>): Status {
    if kinds == [] then from else
    var before, to := StatusAfter(from, kinds[..|kinds| - 1]), TargetOf(kinds[|kinds| - 1]);
    if IsLegal(before, to) then to else before
  }

  /** The ids of the events whose transition is illegal when they come. */
  function RejectedEvents(from: Status, events: seq<Event>): seq<string> {
    if events == [] then [] else
    var init, last := events[..|events| - 1], events[|events| - 1];
    RejectedEvents(from, init) +
      if IsLegal(StatusAfter(from, Kinds(init)), TargetOf(KindOf(last))) then [] else [last.eventId]
  }

  lemma OneMoreKind(from: Status, kinds: seq<Kind>, k: Kind)
    ensures var before := StatusAfter(from, kinds);
      StatusAfter(from, kinds + [k]) == if IsLegal(before, TargetOf(k)) then TargetOf(k) else before
  {
    Snoc(kinds, k);
  }

  lemma OneMoreEvent(from: Status, events: seq<Event>, e: Event)
    ensures Kinds(events + [e]) == Kinds(events) + [KindOf(e)]
    ensures var before, to := StatusAfter(from, Kinds(events)), TargetOf(KindOf(e));
      && StatusAfter(from, Kinds(events + [e])) == (if IsLegal(before, to) then to else before)
      && RejectedEvents(from, events + [e]) == RejectedEvents(from, events) + if IsLegal(before, to) then [] else [e.eventId]
  {
    assert Kinds(events + [e]) == Kinds(events) + [KindOf(e)];
    OneMoreKind(from, Kinds(events), KindOf(e));
    Snoc(events, e);
  }

  // ---------------------------------------------------------------- which events move a queued mission

  /** Every terminal event comes before every STARTED. */
  ghost predicate NothingEnded(kinds: seq<Kind>) {
    forall t, j :: 0 <= t < |kinds| && 0 <= j < |kinds| && !kinds[t].Started? && kinds[j].Started? ==> t < j
  }

  /** An event after `before` moves a queued mission: the first STARTED, or the first terminal event after one. */
  ghost predicate Moves(before: seq<Kind>, k: Kind) {
    if k.Started? then Started !in before else Started in before && NothingEnded(before)
  }

  lemma EndedOneMore(kinds: seq<Kind>, k: Kind)
    ensures NothingEnded(kinds + [k]) <==> NothingEnded(kinds) && (k.Started? || Started !in kinds)
  {
    var more := kinds + [k];
    assert more[|kinds|] == k && forall i :: 0 <= i < |kinds| ==> more[i] == kinds[i];
    if !k.Started? && Started in kinds {
      var j :| 0 <= j < |kinds| && kinds[j] == Started;
      assert !more[|kinds|].Started? && more[j].Started?;
    }
    if t, j :| 0 <= t < |kinds| && 0 <= j < |kinds| && !kinds[t].Started? && kinds[j].Started? && t >= j {
      assert !more[t].Started? && more[j].Started?;
    }
  }

  lemma {:induction false} WhereItIs(kinds: seq<Kind>)
    ensures var status := StatusAfter(QUEUED, kinds);
      && status in {QUEUED, PROCESSING, COMPLETED, FAILED}
      && (status == QUEUED <==> Started !in kinds)
      && (status == PROCESSING <==> Started in kinds && NothingEnded(kinds))
  {
    if kinds != [] {
      var init, last := kinds[..|kinds| - 1], kinds[|kinds| - 1];
      WhereItIs(init);
      InitLast(kinds);
      EndedOneMore(init, last);
      InConcat(init, [last]);
    }
  }

  /** An event's transition is legal when it comes exactly when it is the first STARTED, or a terminal event with a
      STARTED before it and no other terminal event since the first. */
  lemma LegalIff(before: seq<Kind>, k: Kind)
    ensures IsLegal(StatusAfter(QUEUED, before), TargetOf(k)) <==> Moves(before, k)
  {
    WhereItIs(before);
  }

  ghost predicate IdsDiffer(events: seq<Event>) {
    forall i, j :: 0 <= i < j < |events| ==> events[i].eventId != events[j].eventId
  }

  lemma {:induction false} RejectedAreIds(events: seq<Event>)
    ensures forall x :: x in RejectedEvents(QUEUED, events) ==> exists j :: 0 <= j < |events| && events[j].eventId == x
  {
    if events != [] {
      RejectedAreIds(events[..|events| - 1]);
      forall x | x in RejectedEvents(QUEUED, events) ensures exists j :: 0 <= j < |events| && events[j].eventId == x {
        if x in RejectedEvents(QUEUED, events[..|events| - 1]) {
          var j :| 0 <= j < |events| - 1 && events[..|events| - 1][j].eventId == x;
          assert events[j].eventId == x;
        } else {
          assert events[|events| - 1].eventId == x;
        }
      }
    }
  }

  /** Of distinct events, exactly those that do not move a queued mission are rejected. */
  lemma {:induction false} RejectedIff(events: seq<Event>, i: nat)
    requires IdsDiffer(events) && i < |events|
    ensures events[i].eventId in RejectedEvents(QUEUED, events) <==> !Moves(Kinds(events[..i]), KindOf(events[i]))
    decreases |events|
  {
    var init, last := events[..|events| - 1], events[|events| - 1];
    LegalIff(Kinds(init), KindOf(last));
    RejectedAreIds(init);
    if i < |init| {
      RejectedIff(init, i);
      TakeTake(events, i, |init|);
    }
  }

  // ---------------------------------------------------------------- emissions of the usual shape

  /** With k STARTED and then at most one terminal event: the status at the end, and the rejected events. */
  ghost predicate EndsAsShaped(events: seq<Event>, k: nat) {
    && k <= |events| && CountOf(Kinds(events), Started) == k
    && StatusAfter(QUEUED, Kinds(events)) == (if k == 0 then QUEUED else TargetOf(KindOf(events[|events| - 1])))
    && RejectedEvents(QUEUED, events) == (if k == 0 then Ids(events) else Ids(events[1..k]))
  }

  lemma IdsOneMore(events: seq<Event>, e: Event)
    ensures Ids(events + [e]) == Ids(events) + [e.eventId]
    ensures events != [] ==> Ids((events + [e])[1..|events| + 1]) == Ids(events[1..|events|]) + [e.eventId]
    ensures events != [] ==> (events + [e])[1..|events|] == events[1..|events|]
  {}

  lemma CountOneMore(events: seq<Event>, e: Event)
    ensures CountOf(Kinds(events + [e]), Started) == CountOf(Kinds(events), Started) + if KindOf(e).Started? then 1 else 0
  {
    assert Kinds(events + [e]) == Kinds(events) + [KindOf(e)];
    Snoc(Kinds(events), KindOf(e));
  }

  ghost predicate StartsLast(events: seq<Event>) { events != [] ==> KindOf(events[|events| - 1]).Started? }

  lemma OneMoreStart(events: seq<Event>, e: Event)
    requires EndsAsShaped(events, |events|) && StartsLast(events) && KindOf(e).Started?
    ensures EndsAsShaped(events + [e], |events| + 1)
  {
    OneMoreEvent(QUEUED, events, e);
    CountOneMore(events, e);
    IdsOneMore(events, e);
    if events == [] {
      assert Ids(events) + [] == [] && Ids((events + [e])[1..1]) == [];
    }
  }

  lemma OneTerminal(events: seq<Event>, e: Event)
    requires EndsAsShaped(events, |events|) && StartsLast(events) && !KindOf(e).Started?
    ensures EndsAsShaped(events + [e], |events|)
  {
    OneMoreEvent(QUEUED, events, e);
    CountOneMore(events, e);
    IdsOneMore(events, e);
    assert RejectedEvents(QUEUED, events) + [] == RejectedEvents(QUEUED, events);
  }

  ghost predicate AllStarted(events: seq<Event>) { forall i :: 0 <= i < |events| ==> KindOf(events[i]).Started? }

  lemma {:induction false} StartsEndAsShaped(events: seq<Event>)
    requires AllStarted(events)
    ensures EndsAsShaped(events, |events|)
  {
    if events == [] {
      assert Ids(events) == [];
    } else {
      StartsEndAsShaped(events[..|events| - 1]);
      InitLast(events);
      OneMoreStart(events[..|events| - 1], events[|events| - 1]);
    }
  }

  lemma ShapedIsStarted(events: seq<Event>)
    requires Shaped(Kinds(events)) && events != []
    ensures AllStarted(events[..|events| - 1])
  {
    forall i | 0 <= i < |events| - 1 ensures KindOf(events[i]).Started? {
      assert Kinds(events)[i] == KindOf(events[i]);
    }
  }

  lemma ShapedSequenceEnds(events: seq<Event>) returns (k: nat)
    requires Shaped(Kinds(events))
    ensures EndsAsShaped(events, k)
  {
    k := |events|;
    if events == [] {
      StartsEndAsShaped(events);
    } else {
      var init, last := events[..|events| - 1], events[|events| - 1];
      ShapedIsStarted(events);
      StartsEndAsShaped(init);
      InitLast(events);
      if KindOf(last).Started? {
        OneMoreStart(init, last);
      } else {
        k := |init|;
        OneTerminal(init, last);
      }
    }
  }

  // ---------------------------------------------------------------- the worker's emissions

  /** The status that what was written calls for. */
  function Verdict(kinds: seq<Kind>): Status {
    if Started !in kinds then QUEUED
    else if Completed in kinds then COMPLETED
    else if Failed in kinds then FAILED
    else PROCESSING
  }

  /** The mission is where what was written calls for, before any FAILED. */
  ghost predicate AtVerdict(kinds: seq<Kind>) {
    StatusAfter(QUEUED, kinds) == Verdict(kinds) && Failed !in kinds && (Completed in kinds ==> Started in kinds)
  }

  lemma StartedMoves(kinds: seq<Kind>)
    requires AtVerdict(kinds)
    ensures AtVerdict(kinds + [Started])
  {
    OneMoreKind(QUEUED, kinds, Started);
    InConcat(kinds, [Started]);
  }

  lemma CompletedMoves(kinds: seq<Kind>)
    requires AtVerdict(kinds) && Started in kinds
    ensures AtVerdict(kinds + [Completed])
  {
    OneMoreKind(QUEUED, kinds, Completed);
    InConcat(kinds, [Completed]);
  }

  lemma WritesAre(kinds: seq<Kind>, a: Attempt)
    ensures kinds + Writes(a) == kinds || kinds + Writes(a) == kinds + [Started] || kinds + Writes(a) == (kinds + [Started]) + [Completed]
  {}

  lemma WritesMove(kinds: seq<Kind>, a: Attempt)
    requires AtVerdict(kinds)
    ensures AtVerdict(kinds + Writes(a))
  {
    WritesAre(kinds, a);
    StartedMoves(kinds);
    InConcat(kinds, [Started]);
    CompletedMoves(kinds + [Started]);
  }

  lemma {:induction false} EmittedVerdict(attempts: seq<Attempt>, n: nat) returns (kinds: seq<Kind>)
    requires n <= |attempts|
    ensures kinds == Emitted(attempts, n).0 && AtVerdict(kinds)
  {
    if n == 0 {
      kinds := [];
    } else {
      kinds := EmittedVerdict(attempts, n - 1);
      if !Emitted(attempts, n - 1).1 {
        WritesMove(kinds, attempts[n - 1]);
        kinds := kinds + Writes(attempts[n - 1]);
      }
    }
  }

  lemma FailureMoves(kinds: seq<Kind>)
    requires AtVerdict(kinds)
    ensures StatusAfter(QUEUED, kinds + [Failed]) == Verdict(kinds + [Failed])
  {
    OneMoreKind(QUEUED, kinds, Failed);
    InConcat(kinds, [Failed]);
  }

  /** Whatever the attempts did, a queued mission ends COMPLETED if a COMPLETED was written, else FAILED if a
      STARTED and the FAILED were, else PROCESSING if a STARTED was, else it stays QUEUED. */
  lemma EmissionVerdict(d: Delivery)
    ensures StatusAfter(QUEUED, Emission(d)) == Verdict(Emission(d))
  {
    var kinds := EmittedVerdict(d.attempts, |d.attempts|);
    if !Emitted(d.attempts, |d.attempts|).1 && d.failureWritten {
      FailureMoves(kinds);
    } else {
      assert kinds + [] == kinds;
    }
  }

  // ---------------------------------------------------------------- through the handler

  /** Known events of one mission, each id with one content. */
  ghost predicate Coherent(events: seq<Event>, id: string) {
    && (forall i :: 0 <= i < |events| ==> events[i].missionId == id && Handler.Known(events[i]))
    && (forall i, j :: 0 <= i < |events| && 0 <= j < |events| && events[i].eventId == events[j].eventId ==> events[i] == events[j])
  }

  /** One delivery, and what the database does to its tries. */
  datatype Arrival = Arrival(event: Event, faults: seq<Handler.Fault>)

  /** One of the tries gets through, and the first that does is not reported as a failure. */
  ghost predicate GotOver(faults: seq<Handler.Fault>) {
    !Handler.NothingThrough(faults, Handler.RETRY_ATTEMPTS) && !Handler.CommitsUnreported(faults, Handler.RETRY_ATTEMPTS)
  }

  ghost predicate AllGotOver(arrivals: seq<Arrival>) { forall i :: 0 <= i < |arrivals| ==> GotOver(arrivals[i].faults) }

  function Events(arrivals: seq<Arrival>): seq<Event> {
    seq(|arrivals|, i requires 0 <= i < |arrivals| => arrivals[i].event)
  }

  /** The deliveries one after the other, none interrupted, dead letters sent. */
  function Deliveries(arrivals: seq<Arrival>): seq<Flights.Step> {
    if arrivals == [] then [] else
    var last := arrivals[|arrivals| - 1];
    Deliveries(arrivals[..|arrivals| - 1]) + Flights.Uninterrupted(|arrivals| - 1, last.event, last.faults, true)
  }

  function WorldAfter(s: State, arrivals: seq<Arrival>): Flights.World {
    Flights.RunFrom(Flights.Initial(s), Deliveries(arrivals))
  }

  ghost predicate Reaches(w: Flights.World, id: string, status: Status, deadLetters: seq<string>) {
    && w.flights == map[]
    && id in w.state.missions && !w.state.missions[id].deleted && w.state.missions[id].status == status
    && Flights.EndedBy(w.ended, Handler.DeadLettered) == deadLetters && Flights.EndedBy(w.ended, Handler.Lost) == []
  }

  lemma GotOverDecides(w: Flights.World, k: nat, a: Arrival)
    requires k !in w.flights && Handler.Known(a.event) && a.event.eventId !in w.processed && GotOver(a.faults)
    ensures var w' := Flights.RunFrom(w, Flights.Uninterrupted(k, a.event, a.faults, true));
      var r := Handler.RequestOf(a.event);
      var moves := Handler.MayMove(w.state, r);
      && w'.processed == w.processed + {a.event.eventId} && w'.flights == w.flights
      && w'.state == (if moves then Handler.Moved(w.state, r) else w.state)
      && w'.ended == w.ended + [Flights.End(a.event.eventId, if moves then Handler.Returned else Handler.DeadLettered)]
  {
    Flights.UninterruptedIsHandled(w, k, a.event, a.faults, true);
    Handler.TriesMoveOnce(w.state, Handler.RequestOf(a.event), a.faults, Handler.RETRY_ATTEMPTS);
  }

  lemma KindIsTarget(e: Event)
    requires Handler.Known(e)
    ensures Handler.RequestOf(e).target == TargetOf(KindOf(e))
  {}

  lemma OneMoreEnd(ended: seq<Flights.End>, x: string, moves: bool)
    ensures var more := ended + [Flights.End(x, if moves then Handler.Returned else Handler.DeadLettered)];
      && Flights.EndedBy(more, Handler.DeadLettered) == Flights.EndedBy(ended, Handler.DeadLettered) + (if moves then [] else [x])
      && Flights.EndedBy(more, Handler.Lost) == Flights.EndedBy(ended, Handler.Lost)
  {
    var end := Flights.End(x, if moves then Handler.Returned else Handler.DeadLettered);
    Flights.EndedByOneMore(ended, end, Handler.DeadLettered);
    Flights.EndedByOneMore(ended, end, Handler.Lost);
    assert Flights.EndedBy(ended, Handler.Lost) + [] == Flights.EndedBy(ended, Handler.Lost);
  }

  lemma DeliverOnce(w: Flights.World, k: nat, a: Arrival, status: Status, deadLetters: seq<string>)
    requires Reaches(w, a.event.missionId, status, deadLetters)
    requires Handler.Known(a.event) && a.event.eventId !in w.processed && GotOver(a.faults)
    ensures var w' := Flights.RunFrom(w, Flights.Uninterrupted(k, a.event, a.faults, true));
      var to := TargetOf(KindOf(a.event));
      && w'.processed == w.processed + {a.event.eventId}
      && Reaches(w', a.event.missionId, if IsLegal(status, to) then to else status,
                 deadLetters + if IsLegal(status, to) then [] else [a.event.eventId])
  {
    GotOverDecides(w, k, a);
    KindIsTarget(a.event);
    OneMoreEnd(w.ended, a.event.eventId, IsLegal(status, TargetOf(KindOf(a.event))));
  }

  ghost predicate Recorded(processed: set<string>, events: seq<Event>) {
    forall x :: x in processed <==> exists i :: 0 <= i < |events| && events[i].eventId == x
  }

  lemma RecordedOneMore(processed: set<string>, events: seq<Event>, e: Event)
    requires Recorded(processed, events)
    ensures Recorded(processed + {e.eventId}, events + [e])
  {
    var more := events + [e];
    forall x ensures x in processed + {e.eventId} <==> exists i :: 0 <= i < |more| && more[i].eventId == x {
      assert more[|events|] == e;
      if x in processed {
        var i :| 0 <= i < |events| && events[i].eventId == x;
        assert more[i] == events[i];
      }
      if i :| 0 <= i < |more| && more[i].eventId == x {
        assert i < |events| ==> more[i] == events[i];
      }
    }
  }

  lemma CoherentInit(events: seq<Event>, e: Event, id: string)
    requires Coherent(events + [e], id)
    ensures Coherent(events, id) && e.missionId == id && Handler.Known(e)
    ensures (exists i :: 0 <= i < |events| && events[i].eventId == e.eventId) <==> e in events
  {
    var more := events + [e];
    assert more[|events|] == e;
    forall i | 0 <= i < |events| ensures more[i] == events[i] {}
    if i :| 0 <= i < |events| && events[i].eventId == e.eventId {
      assert more[i] == more[|events|];
    }
  }

  lemma OneMoreArrival(s: State, arrivals: seq<Arrival>, a: Arrival)
    ensures Events(arrivals + [a]) == Events(arrivals) + [a.event]
    ensures WorldAfter(s, arrivals + [a]) ==
      Flights.RunFrom(WorldAfter(s, arrivals), Flights.Uninterrupted(|arrivals|, a.event, a.faults, true))
  {
    Snoc(arrivals, a);
    Flights.RunsOn(Flights.Initial(s), Deliveries(arrivals), Flights.Uninterrupted(|arrivals|, a.event, a.faults, true));
  }

  /** The world is where the status machine is after the distinct events. */
  ghost predicate Follows(w: Flights.World, id: string, from: Status, events: seq<Event>) {
    && Reaches(w, id, StatusAfter(from, Kinds(Dedup(events))), RejectedEvents(from, Dedup(events)))
    && Recorded(w.processed, events)
  }

  lemma RepeatIsFollowed(w: Flights.World, k: nat, id: string, from: Status, events: seq<Event>, a: Arrival)
    requires Follows(w, id, from, events) && a.event in events
    ensures Follows(Flights.RunFrom(w, Flights.Uninterrupted(k, a.event, a.faults, true)), id, from, events + [a.event])
  {
    DedupOneMore(events, a.event);
    RecordedOneMore(w.processed, events, a.event);
    assert Dedup(events) + [] == Dedup(events) && w.processed + {a.event.eventId} == w.processed;
    Flights.UninterruptedIsHandled(w, k, a.event, a.faults, true);
  }

  lemma NewIsFollowed(w: Flights.World, k: nat, from: Status, events: seq<Event>, a: Arrival)
    requires Follows(w, a.event.missionId, from, events) && Handler.Known(a.event) && GotOver(a.faults)
    requires a.event !in events && a.event.eventId !in w.processed
    ensures Follows(Flights.RunFrom(w, Flights.Uninterrupted(k, a.event, a.faults, true)), a.event.missionId, from, events + [a.event])
  {
    var seen := Dedup(events);
    DedupOneMore(events, a.event);
    RecordedOneMore(w.processed, events, a.event);
    OneMoreEvent(from, seen, a.event);
    DeliverOnce(w, k, a, StatusAfter(from, Kinds(seen)), RejectedEvents(from, seen));
  }

  lemma ArrivalIsFollowed(w: Flights.World, k: nat, id: string, from: Status, events: seq<Event>, a: Arrival)
    requires Follows(w, id, from, events) && Coherent(events + [a.event], id) && GotOver(a.faults)
    ensures Follows(Flights.RunFrom(w, Flights.Uninterrupted(k, a.event, a.faults, true)), id, from, events + [a.event])
  {
    CoherentInit(events, a.event, id);
    if a.event in events {
      RepeatIsFollowed(w, k, id, from, events, a);
    } else {
      NewIsFollowed(w, k, from, events, a);
    }
  }

  /** With no other writer and no fault that the tries do not get over, the handler follows the status machine over
      the distinct events: redeliveries change nothing, and exactly the events that are illegal when they come are
      dead-lettered, in order. */
  lemma {:induction false} HandlerFollowsMachine(s: State, arrivals: seq<Arrival>, id: string)
    requires id in s.missions && !s.missions[id].deleted && Coherent(Events(arrivals), id) && AllGotOver(arrivals)
    ensures Follows(WorldAfter(s, arrivals), id, s.missions[id].status, Events(arrivals))
    decreases |arrivals|, 0
  {
    if arrivals == [] {
      assert Events(arrivals) == [] && Kinds([]) == [];
    } else {
      InitLast(arrivals);
      HandlerMovesOn(s, arrivals[..|arrivals| - 1], arrivals[|arrivals| - 1], id);
    }
  }

  lemma HandlerMovesOn(s: State, init: seq<Arrival>, a: Arrival, id: string)
    requires id in s.missions && !s.missions[id].deleted && Coherent(Events(init + [a]), id) && AllGotOver(init + [a])
    ensures Follows(WorldAfter(s, init + [a]), id, s.missions[id].status, Events(init + [a]))
    decreases |init|, 1
  {
    OneMoreArrival(s, init, a);
    assert (init + [a])[|init|] == a && forall i :: 0 <= i < |init| ==> (init + [a])[i] == init[i];
    CoherentInit(Events(init), a.event, id);
    HandlerFollowsMachine(s, init, id);
    ArrivalIsFollowed(WorldAfter(s, init), |init|, id, s.missions[id].status, Events(init), a);
  }

  lemma DistinctIds(events: seq<Event>, id: string)
    requires Coherent(events, id)
    ensures IdsDiffer(Dedup(events))
  {
    var seen := Dedup(events);
    DedupAre(events);
    forall i, j | 0 <= i < j < |seen| ensures seen[i].eventId != seen[j].eventId {
      assert seen[i] in events && seen[j] in events;
    }
  }

  lemma KindsTake(events: seq<Event>, n: nat)
    requires n <= |events|
    ensures Kinds(events[..n]) == Kinds(events)[..n]
  {}

  lemma RejectedAt(events: seq<Event>, i: nat)
    requires IdsDiffer(events) && i < |events|
    ensures events[i].eventId in RejectedEvents(QUEUED, events) <==> !Moves(Kinds(events)[..i], Kinds(events)[i])
  {
    RejectedIff(events, i);
    KindsTake(events, i);
  }

  /** Main result: a queued mission, the worker's emission for its command delivered in order any number of times,
      no fault that the tries do not get over and no other writer: the mission ends as the emission says, and an
      event is dead-lettered exactly when it does not move the mission. */
  lemma CommandDecidesMission(s: State, id: string, d: Delivery, arrivals: seq<Arrival>)
    requires id in s.missions && !s.missions[id].deleted && s.missions[id].status == QUEUED
    requires Coherent(Events(arrivals), id) && AllGotOver(arrivals) && Kinds(Dedup(Events(arrivals))) == Emission(d)
    ensures var w, seen := WorldAfter(s, arrivals), Dedup(Events(arrivals));
      && Reaches(w, id, Verdict(Emission(d)), RejectedEvents(QUEUED, seen))
      && forall i :: 0 <= i < |seen| ==>
           (seen[i].eventId in Flights.EndedBy(w.ended, Handler.DeadLettered) <==> !Moves(Emission(d)[..i], Emission(d)[i]))
  {
    var seen := Dedup(Events(arrivals));
    HandlerFollowsMachine(s, arrivals, id);
    EmissionVerdict(d);
    DistinctIds(Events(arrivals), id);
    forall i | 0 <= i < |seen|
      ensures seen[i].eventId in RejectedEvents(QUEUED, seen) <==> !Moves(Emission(d)[..i], Emission(d)[i])
    {
      RejectedAt(seen, i);
    }
  }

  /** And when the emission has the usual shape, with k STARTED: for k > 0 the mission takes its last event's
      status, and the dead letters are the second to the k-th STARTED; for k = 0 it stays QUEUED, and they are all
      there is. */
  lemma ShapedCommandDecidesMission(s: State, id: string, d: Delivery, arrivals: seq<Arrival>) returns (k: nat)
    requires id in s.missions && !s.missions[id].deleted && s.missions[id].status == QUEUED
    requires Coherent(Events(arrivals), id) && AllGotOver(arrivals) && Kinds(Dedup(Events(arrivals))) == Emission(d)
    requires Shaped(Emission(d))
    ensures k == CountOf(Emission(d), Started) && k <= |Emission(d)| == |Dedup(Events(arrivals))|
    ensures Reaches(WorldAfter(s, arrivals), id,
                    if k == 0 then QUEUED else TargetOf(Emission(d)[|Emission(d)| - 1]),
                    Ids(if k == 0 then Dedup(Events(arrivals)) else Dedup(Events(arrivals))[1..k]))
  {
    k := ShapedSequenceEnds(Dedup(Events(arrivals)));
    HandlerFollowsMachine(s, arrivals, id);
    assert |Kinds(Dedup(Events(arrivals)))| == |Dedup(Events(arrivals))|;
  }

  /** A commit that is reported as a failure: a queued mission's STARTED is dead-lettered, although it moved it. */
  lemma UnreportedCommitIsDeadLettered(s: State, e: Event)
    requires e.missionId in s.missions && !s.missions[e.missionId].deleted && s.missions[e.missionId].status == QUEUED
    requires e.eventType == "PROCESSING_STARTED"
    ensures var w := Flights.RunFrom(Flights.Initial(s), Flights.Uninterrupted(0, e, [Handler.FailsAfter], true));
      && Flights.EndedBy(w.ended, Handler.DeadLettered) == [e.eventId]
      && e.missionId in w.state.missions && w.state.missions[e.missionId].status == PROCESSING
  {
    var start := Flights.Initial(s);
    Flights.DeadLetteredThoughMovedIff(start, 0, e, [Handler.FailsAfter], true);
    assert Handler.FaultAt([Handler.FailsAfter], 1).FailsAfter?;
    var end := Flights.End(e.eventId, Handler.DeadLettered);
    assert start.ended + [end] == [end];
    Flights.EndedByOneMore(start.ended, end, Handler.DeadLettered);
    assert Flights.EndedBy(start.ended, Handler.DeadLettered) == [];
  }
}
