/** The API's consumer of processing events: each drives a mission transition, or is dead-lettered. */
module ProcessingHandler {
  import opened Wrappers
  import opened Missions
  import opened Retry

  datatype ProcessingEvent = ProcessingEvent(eventId: string, eventType: string, missionId: string, correlationId: Option<string>)

  /** What the database does to one try: nothing, or an exception before anything is written, or one after the
      commit. */
  datatype Fault = NoFault | FailsBefore | FailsAfter

  datatype DeadLetter = DeadLetter(event: ProcessingEvent, attempts: nat)

  const RETRY_ATTEMPTS := 3

  /** `None` for an event type the handler does not know. */
  function TargetStatus(eventType: string): Option<Status> {
    if eventType == "PROCESSING_STARTED" then Some(PROCESSING)
    else if eventType == "PROCESSING_COMPLETED" then Some(COMPLETED)
    else if eventType == "PROCESSING_FAILED" then Some(FAILED)
    else None
  }

  predicate Known(e: ProcessingEvent) { TargetStatus(e.eventType).Some? }

  function RequestOf(e: ProcessingEvent): Request
    requires Known(e)
  {
    Transition(e.missionId, TargetStatus(e.eventType).value, e.correlationId)
  }

  /** One call of the mission service: the state after it, and whether it returned normally. */
  function Try(s: State, r: Request, fault: Fault): (State, bool) {
    var seen := Check(s.missions, r);
    if fault.FailsBefore? || seen.Err? then (s, false) else
    var after := Body(s, r, seen.value, "");
    if after.Err? then (s, false) else (after.value, fault.NoFault?)
  }

  function FaultAt(faults: seq<Fault>, n: nat): Fault { if 0 < n <= |faults| then faults[n - 1] else NoFault }

  /** `n` tries, stopping at the first that returns normally. */
  function TryAgain(s: State, r: Request, faults: seq<Fault>, n: nat): (State, bool) {
    if n == 0 then (s, false) else
    var before := TryAgain(s, r, faults, n - 1);
    if before.1 then before else Try(before.0, r, FaultAt(faults, n))
  }

  /** How the handling of an event ends: a try returned, the dead letter is out, or neither ever happens. */
  datatype Outcome = Returned | DeadLettered | Lost

  /** A known new event's tries and, if none returns, its dead letter. */
  function Settled(s: State, e: ProcessingEvent, faults: seq<Fault>, deadLetterSent: bool): (State, Outcome)
    requires Known(e)
  {
    var run := TryAgain(s, RequestOf(e), faults, RETRY_ATTEMPTS);
    (run.0, if run.1 then Returned else if deadLetterSent then DeadLettered else Lost)
  }

  lemma {:induction false} TriedEnough(s: State, r: Request, faults: seq<Fault>, k: nat, n: nat)
    requires k <= n && TryAgain(s, r, faults, k).1
    ensures TryAgain(s, r, faults, n) == TryAgain(s, r, faults, k)
    decreases n
  {
    if k < n {
      TriedEnough(s, r, faults, k, n - 1);
    }
  }

  ghost predicate IsTry(act: (State, nat) -> (State, bool), r: Request, faults: seq<Fault>) {
    forall s, n :: act(s, n) == Try(s, r, FaultAt(faults, n))
  }

  lemma {:induction false} RetryTriesAgain(s: State, r: Request, faults: seq<Fault>, act: (State, nat) -> (State, bool), n: nat)
    requires IsTry(act, r, faults)
    requires forall k: nat :: 0 < k < n ==> !Succeeds(s, act, k)
    ensures StateAfter(s, act, n) == TryAgain(s, r, faults, n).0
    ensures TryAgain(s, r, faults, n).1 <==> n > 0 && Succeeds(s, act, n)
  {
    if n > 0 {
      RetryTriesAgain(s, r, faults, act, n - 1);
      assert act(StateAfter(s, act, n - 1), n) == Try(StateAfter(s, act, n - 1), r, FaultAt(faults, n));
      assert n > 1 ==> !Succeeds(s, act, n - 1);
    }
  }

  class ProcessingEventsHandler {
    const service: MissionsService
    var processed: set<string>
    var deadLetters: seq<DeadLetter>
    var relayed: seq<ProcessingEvent>

    constructor (service: MissionsService)
      ensures this.service == service && processed == {} && deadLetters == [] && relayed == []
    {
      this.service := service;
      processed, deadLetters, relayed := {}, [], [];
    }

    /** The atomic insert-if-absent on (event id, consumer). */
    method MarkProcessed(eventId: string) returns (isNew: bool)
      modifies this`processed
      ensures isNew <==> eventId !in old(processed)
      ensures processed == old(processed) + {eventId}
    {
      isNew := eventId !in processed;
      processed := processed + {eventId};
    }

    /** The tries on the mission service. */
    method DriveTransition(r: Request, faults: seq<Fault>) returns (succeeded: bool)
      modifies service
      ensures (service.Abstract(), succeeded) == TryAgain(old(service.Abstract()), r, faults, RETRY_ATTEMPTS)
    {
      var start := State(service.missions, service.audit, service.outbox);
      var act := (s: State, n: nat) => Try(s, r, FaultAt(faults, n));
      var s, ok, tries, reports := WithBoundedRetry(start, RETRY_ATTEMPTS, act);
      RetryTriesAgain(start, r, faults, act, tries);
      if ok {
        TriedEnough(start, r, faults, tries, RETRY_ATTEMPTS);
      }
      service.missions, service.audit, service.outbox := s.missions, s.audit, s.outbox;
      succeeded := ok;
    }

    /** A known new event is recorded and then relayed, or dead-lettered with the number of attempts; `raised`
        says that sending the dead letter failed. Any other event changes nothing. */
    method HandleProcessingEventMessage(e: ProcessingEvent, faults: seq<Fault>, deadLetterSent: bool) returns (raised: bool)
      modifies this, service
      ensures !Known(e) || e.eventId in old(processed) ==>
        (!raised && processed == old(processed) && deadLetters == old(deadLetters) && relayed == old(relayed)
         && service.Abstract() == old(service.Abstract()))
      ensures Known(e) && e.eventId !in old(processed) ==>
        var end := Settled(old(service.Abstract()), e, faults, deadLetterSent);
        && processed == old(processed) + {e.eventId}
        && service.Abstract() == end.0
        && relayed == old(relayed) + (if end.1.Returned? then [e] else [])
        && deadLetters == old(deadLetters) + (if end.1.DeadLettered? then [DeadLetter(e, 3)] else [])
        && raised == end.1.Lost?
    {
      if TargetStatus(e.eventType).None? {
        return false;
      }
      var isNew := MarkProcessed(e.eventId);
      if !isNew {
        assert processed == old(processed);
        return false;
      }
      var succeeded := DriveTransition(RequestOf(e), faults);
      if succeeded {
        relayed := relayed + [e];
        return false;
      }
      if deadLetterSent {
        deadLetters := deadLetters + [DeadLetter(e, RETRY_ATTEMPTS)];
      }
      raised := !deadLetterSent;
    }
  }

  // ---------------------------------------------------------------- commits that are reported as failures

  /** The first try that the database lets through commits and then raises. */
  ghost predicate CommitsUnreported(faults: seq<Fault>, n: nat) {
    exists k :: 0 < k <= n && FaultAt(faults, k).FailsAfter? && forall m :: 0 < m < k ==> FaultAt(faults, m).FailsBefore?
  }

  ghost predicate NothingThrough(faults: seq<Fault>, n: nat) {
    forall m :: 0 < m <= n ==> FaultAt(faults, m).FailsBefore?
  }

  /** The tables once the transition has happened, whatever the caller was told. */
  function Moved(s: State, r: Request): State
    requires r.Transition? && Live(s, r.id)
  {
    State(s.missions[r.id := s.missions[r.id].(status := r.target)],
          s.audit + [AuditRow(r.id, Transitioned(s.missions[r.id].status, r.target))], s.outbox)
  }

  predicate DrivenByEvents(r: Request) { r.Transition? && r.target in {PROCESSING, COMPLETED, FAILED} }

  predicate MayMove(s: State, r: Request)
    requires DrivenByEvents(r)
  {
    Live(s, r.id) && IsLegal(s.missions[r.id].status, r.target)
  }

  lemma TryMoves(s: State, r: Request, fault: Fault)
    requires DrivenByEvents(r)
    ensures Try(s, r, fault) == if fault.FailsBefore? || !MayMove(s, r) then (s, false) else (Moved(s, r), fault.NoFault?)
    ensures MayMove(s, r) ==> !MayMove(Moved(s, r), r)
  {
    assert s.outbox + [] == s.outbox;
  }

  lemma OneMoreFault(faults: seq<Fault>, n: nat)
    requires n > 0
    ensures CommitsUnreported(faults, n) <==>
      CommitsUnreported(faults, n - 1) || (NothingThrough(faults, n - 1) && FaultAt(faults, n).FailsAfter?)
    ensures CommitsUnreported(faults, n) ==> !NothingThrough(faults, n)
  {}

  /** The tries: nothing gets through, or the first try that does moves the mission once, and either returns or
      leaves the rest to be refused. */
  lemma {:induction false} TriesMoveOnce(s: State, r: Request, faults: seq<Fault>, n: nat)
    requires DrivenByEvents(r)
    ensures TryAgain(s, r, faults, n) ==
      if !MayMove(s, r) || NothingThrough(faults, n) then (s, false) else (Moved(s, r), !CommitsUnreported(faults, n))
  {
    if n > 0 {
      TriesMoveOnce(s, r, faults, n - 1);
      TryMoves(s, r, FaultAt(faults, n));
      if MayMove(s, r) {
        TryMoves(Moved(s, r), r, FaultAt(faults, n));
      }
      assert NothingThrough(faults, n) <==> NothingThrough(faults, n - 1) && FaultAt(faults, n).FailsBefore?;
      OneMoreFault(faults, n);
    }
  }

  /** The tries fail although they moved the mission exactly when it is there, the transition is legal and the first
      try that gets through commits and then raises. */
  lemma MovedButFailedIff(s: State, r: Request, faults: seq<Fault>, n: nat)
    requires DrivenByEvents(r)
    ensures var run := TryAgain(s, r, faults, n);
      !run.1 && |run.0.audit| > |s.audit| <==> MayMove(s, r) && CommitsUnreported(faults, n)
  {
    TriesMoveOnce(s, r, faults, n);
    if n > 0 {
      OneMoreFault(faults, n);
    }
  }

  // ---------------------------------------------------------------- what becomes of an event

  /** Three event types are known, each for one status. */
  lemma KnownIff(e: ProcessingEvent)
    ensures Known(e) <==> e.eventType in ["PROCESSING_STARTED", "PROCESSING_COMPLETED", "PROCESSING_FAILED"]
    ensures Known(e) ==> RequestOf(e).id == e.missionId && DrivenByEvents(RequestOf(e))
    ensures e.eventType == "PROCESSING_STARTED" ==> RequestOf(e).target == PROCESSING
    ensures e.eventType == "PROCESSING_COMPLETED" ==> RequestOf(e).target == COMPLETED
    ensures e.eventType == "PROCESSING_FAILED" ==> RequestOf(e).target == FAILED
  {}

  /** The `k`-th try is the first that the database lets through. */
  ghost predicate FirstThrough(faults: seq<Fault>, k: nat) {
    !FaultAt(faults, k).FailsBefore? && forall m :: 0 < m < k ==> FaultAt(faults, m).FailsBefore?
  }

  lemma {:induction false} FirstThroughExists(faults: seq<Fault>, n: nat)
    ensures NothingThrough(faults, n) || exists k :: 0 < k <= n && FirstThrough(faults, k)
  {
    if n > 0 {
      FirstThroughExists(faults, n - 1);
      if NothingThrough(faults, n - 1) && !FaultAt(faults, n).FailsBefore? {
        assert FirstThrough(faults, n);
      }
    }
  }

  /** The mission moves exactly when it may and one of three tries gets through. The event ends well exactly when the
      first such try is reported as a success; otherwise it is dead-lettered if that can be sent, and else lost. */
  lemma EventSettles(s: State, e: ProcessingEvent, faults: seq<Fault>, deadLetterSent: bool)
    requires Known(e)
    ensures var r, end := RequestOf(e), Settled(s, e, faults, deadLetterSent);
      && DrivenByEvents(r)
      && end.0 == (if MayMove(s, r) && (exists k :: 0 < k <= 3 && FirstThrough(faults, k)) then Moved(s, r) else s)
      && (end.1 == Returned <==> MayMove(s, r) && exists k :: 0 < k <= 3 && FirstThrough(faults, k) && FaultAt(faults, k) == NoFault)
      && (end.1 != Returned ==> end.1 == if deadLetterSent then DeadLettered else Lost)
  {
    KnownIff(e);
    TriesMoveOnce(s, RequestOf(e), faults, RETRY_ATTEMPTS);
    FirstThroughExists(faults, RETRY_ATTEMPTS);
    if k :| 0 < k <= 3 && FirstThrough(faults, k) {
      forall l | 0 < l <= 3 && FirstThrough(faults, l) ensures l == k {
        assert l < k ==> FaultAt(faults, l).FailsBefore?;
        assert k < l ==> FaultAt(faults, k).FailsBefore?;
      }
    }
  }
}
