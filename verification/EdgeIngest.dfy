/** The server's ingest of one batch, and the device's sync cycle around it, each on its own. */
module EdgeIngest {
  import opened Sequences
  import opened Wrappers
  import opened EdgeBuffer
  import opened OutboxRows

  /** Where a request is cut short: an exception from the dedup insert, the outbox insert, or the final update. */
  datatype Fault = NoFault | MarkFails(at: nat) | InsertFails(at: nat) | TouchFails

  datatype IngestError = UnsupportedEventType | IngestFailed

  datatype IngestResult = IngestResult(accepted: nat, duplicates: nat)

  predicate Supported(events: seq<Event>) {
    forall i :: 0 <= i < |events| ==> events[i].eventType == DEVICE_HEALTH_REPORTED
  }

  function EventIds(events: seq<Event>): set<string> {
    if events == [] then {} else EventIds(events[..|events| - 1]) + {events[|events| - 1].eventId}
  }

  /** The events whose ids are neither recorded nor repeated: first occurrences, in order. */
  function Novel(events: seq<Event>, processed: set<string>): seq<Event> {
    if events == [] then [] else
    var init, last := events[..|events| - 1], events[|events| - 1];
    Novel(init, processed) + if last.eventId in processed + EventIds(init) then [] else [last]
  }

  /** What one request brings besides its events; `uuid(k)` is the fresh id of the k-th outbox row. */
  datatype Request = Request(deviceId: string, correlationId: Option<string>, uuid: nat -> string)

  function RowFor(q: Request, e: Event, k: nat): OutboxRow {
    HealthRow(q.uuid(k), q.deviceId, e.eventType, e.payload, q.correlationId)
  }

  /** Outbox rows for events, in order, the first of them being row `from`. */
  function RowsFor(q: Request, events: seq<Event>, from: nat): seq<OutboxRow> {
    if events == [] then [] else
    RowsFor(q, events[..|events| - 1], from) + [RowFor(q, events[|events| - 1], from + |events| - 1)]
  }

  lemma OneMoreId(events: seq<Event>, e: Event)
    ensures EventIds(events + [e]) == EventIds(events) + {e.eventId}
  {
    Snoc(events, e);
  }

  lemma {:induction false} NovelIdsAre(events: seq<Event>, processed: set<string>)
    ensures EventIds(Novel(events, processed)) == EventIds(events) - processed
  {
    if events != [] {
      var init, last := events[..|events| - 1], events[|events| - 1];
      NovelIdsAre(init, processed);
      OneMoreId(Novel(init, processed), last);
      assert Novel(init, processed) + [] == Novel(init, processed);
    }
  }

  lemma {:induction false} NovelIdsDiffer(events: seq<Event>, processed: set<string>)
    ensures |EventIds(Novel(events, processed))| == |Novel(events, processed)|
  {
    if events != [] {
      var init, last := events[..|events| - 1], events[|events| - 1];
      NovelIdsDiffer(init, processed);
      NovelIdsAre(init, processed);
      OneMoreId(Novel(init, processed), last);
      assert Novel(init, processed) + [] == Novel(init, processed);
    }
  }

  /** The events that get rows carry the unrecorded ids of the batch, once each. */
  lemma NovelIds(events: seq<Event>, processed: set<string>)
    ensures EventIds(Novel(events, processed)) == EventIds(events) - processed
    ensures |EventIds(Novel(events, processed))| == |Novel(events, processed)|
  {
    NovelIdsAre(events, processed);
    NovelIdsDiffer(events, processed);
  }

  /** Event `i` is the first of its id, for the table and within the batch. */
  predicate IsNovel(events: seq<Event>, processed: set<string>, i: nat)
    requires i < |events|
  {
    events[i].eventId !in processed + EventIds(events[..i])
  }

  predicate MarkBreaks(events: seq<Event>, fault: Fault) { fault.MarkFails? && fault.at < |events| }

  /** A duplicate is never inserted, so its insert cannot fail. */
  predicate InsertBreaks(events: seq<Event>, processed: set<string>, fault: Fault) {
    fault.InsertFails? && fault.at < |events| && IsNovel(events, processed, fault.at)
  }

  /** How many events of the batch are handled in full. */
  function Handled(events: seq<Event>, processed: set<string>, fault: Fault): nat {
    if MarkBreaks(events, fault) || InsertBreaks(events, processed, fault) then fault.at else |events|
  }

  /** The ids recorded in all; a failed outbox insert leaves its own id recorded without a row. */
  function RecordedIds(events: seq<Event>, processed: set<string>, fault: Fault): set<string> {
    EventIds(events[..Handled(events, processed, fault)]) +
    if InsertBreaks(events, processed, fault) then {events[fault.at].eventId} else {}
  }

  datatype Server = Server(processed: set<string>, outbox: seq<OutboxRow>)

  /** One event handled in full. */
  function Handle(s: Server, q: Request, e: Event): Server {
    if e.eventId in s.processed then s
    else Server(s.processed + {e.eventId}, s.outbox + [RowFor(q, e, |s.outbox|)])
  }

  function HandleFirst(s: Server, q: Request, events: seq<Event>, n: nat): Server
    requires n <= |events|
  {
    if n == 0 then s else Handle(HandleFirst(s, q, events, n - 1), q, events[n - 1])
  }

  lemma Advance(events: seq<Event>, processed: set<string>, i: nat)
    requires i < |events|
    ensures EventIds(events[..i + 1]) == EventIds(events[..i]) + {events[i].eventId}
    ensures Novel(events[..i + 1], processed) ==
      if IsNovel(events, processed, i) then Novel(events[..i], processed) + [events[i]] else Novel(events[..i], processed)
  {
    TakeTake(events, i, i + 1);
    assert Novel(events[..i], processed) + [] == Novel(events[..i], processed);
  }

  lemma {:induction false} RowsForSize(q: Request, events: seq<Event>, from: nat)
    ensures |RowsFor(q, events, from)| == |events|
  {
    if events != [] {
      RowsForSize(q, events[..|events| - 1], from);
    }
  }

  lemma {:induction false} HandleFirstRecords(s: Server, q: Request, events: seq<Event>, n: nat)
    requires n <= |events|
    ensures HandleFirst(s, q, events, n).processed == s.processed + EventIds(events[..n])
  {
    if n > 0 {
      HandleFirstRecords(s, q, events, n - 1);
      Advance(events, s.processed, n - 1);
    }
  }

  /** One more event, once the events before it are known to have given `novel` rows. */
  lemma HandleAppends(s: Server, q: Request, e: Event, outbox: seq<OutboxRow>, novel: seq<Event>)
    requires s.outbox == outbox + RowsFor(q, novel, |outbox|)
    ensures Handle(s, q, e).outbox == outbox + RowsFor(q, if e.eventId in s.processed then novel else novel + [e], |outbox|)
  {
    if e.eventId !in s.processed {
      RowsForSize(q, novel, |outbox|);
    }
  }

  lemma HandleOneMore(s: Server, q: Request, events: seq<Event>, n: nat)
    requires n < |events|
    requires HandleFirst(s, q, events, n).outbox == s.outbox + RowsFor(q, Novel(events[..n], s.processed), |s.outbox|)
    ensures HandleFirst(s, q, events, n + 1).outbox == s.outbox + RowsFor(q, Novel(events[..n + 1], s.processed), |s.outbox|)
  {
    HandleFirstRecords(s, q, events, n);
    Advance(events, s.processed, n);
    HandleAppends(HandleFirst(s, q, events, n), q, events[n], s.outbox, Novel(events[..n], s.processed));
  }

  lemma NothingHandled(s: Server, q: Request, events: seq<Event>)
    ensures RowsFor(q, Novel(events[..0], s.processed), |s.outbox|) == []
  {
    assert events[..0] == [];
  }

  /** Handling events one by one records all their ids and adds one row for each first occurrence. */
  lemma {:induction false} HandleFirstAre(s: Server, q: Request, events: seq<Event>, n: nat)
    requires n <= |events|
    ensures HandleFirst(s, q, events, n).processed == s.processed + EventIds(events[..n])
    ensures HandleFirst(s, q, events, n).outbox == s.outbox + RowsFor(q, Novel(events[..n], s.processed), |s.outbox|)
  {
    HandleFirstRecords(s, q, events, n);
    if n == 0 {
      NothingHandled(s, q, events);
    } else {
      HandleFirstAre(s, q, events, n - 1);
      HandleOneMore(s, q, events, n - 1);
    }
  }

  // ---------------------------------------------------------------- which events get rows, and what is in them

  lemma {:induction false} EventIdsAre(events: seq<Event>)
    ensures forall x :: x in EventIds(events) <==> exists i :: 0 <= i < |events| && events[i].eventId == x
  {
    if events != [] {
      var init, last := events[..|events| - 1], events[|events| - 1];
      EventIdsAre(init);
      forall x ensures x in EventIds(events) <==> exists i :: 0 <= i < |events| && events[i].eventId == x {
        if i :| 0 <= i < |init| && init[i].eventId == x {
          assert events[i].eventId == x;
        }
        if i :| 0 <= i < |events| && events[i].eventId == x {
          assert i < |init| ==> init[i].eventId == x;
        }
      }
    }
  }

  /** The id is not recorded, and no event before `i` has it. */
  ghost predicate FirstOfId(events: seq<Event>, processed: set<string>, i: nat)
    requires i < |events|
  {
    events[i].eventId !in processed && forall k :: 0 <= k < i ==> events[k].eventId != events[i].eventId
  }

  /** `positions` names, in increasing order, exactly the first occurrences. */
  ghost predicate Firsts(events: seq<Event>, processed: set<string>, positions: seq<nat>) {
    && (forall j :: 0 <= j < |positions| ==> positions[j] < |events|)
    && (forall j, k :: 0 <= j < k < |positions| ==> positions[j] < positions[k])
    && (forall i: nat :: i < |events| ==> (FirstOfId(events, processed, i) <==> i in positions))
  }

  lemma FirstStays(events: seq<Event>, e: Event, processed: set<string>, i: nat)
    requires i < |events|
    ensures FirstOfId(events + [e], processed, i) <==> FirstOfId(events, processed, i)
  {
    assert forall k :: 0 <= k <= i ==> (events + [e])[k] == events[k];
  }

  lemma LastIsFirstIff(events: seq<Event>, e: Event, processed: set<string>)
    ensures FirstOfId(events + [e], processed, |events|) <==> e.eventId !in processed + EventIds(events)
  {
    EventIdsAre(events);
    assert (events + [e])[|events|] == e && forall k :: 0 <= k < |events| ==> (events + [e])[k] == events[k];
  }

  lemma FirstsOneMore(events: seq<Event>, e: Event, processed: set<string>, positions: seq<nat>, positions': seq<nat>)
    requires Firsts(events, processed, positions)
    requires positions' == if e.eventId in processed + EventIds(events) then positions else positions + [|events|]
    ensures Firsts(events + [e], processed, positions')
  {
    LastIsFirstIff(events, e, processed);
    InConcat(positions, [|events|]);
    forall i: nat | i <= |events| ensures FirstOfId(events + [e], processed, i) <==> i in positions' {
      if i < |events| {
        FirstStays(events, e, processed, i);
      }
    }
  }

  /** The events that get rows are those at the first occurrences, in order. */
  lemma {:induction false} NovelAreFirsts(events: seq<Event>, processed: set<string>) returns (positions: seq<nat>)
    ensures Firsts(events, processed, positions) && |positions| == |Novel(events, processed)|
    ensures forall j :: 0 <= j < |positions| ==> positions[j] < |events| && Novel(events, processed)[j] == events[positions[j]]
  {
    if events == [] {
      positions := [];
    } else {
      var init, last := events[..|events| - 1], events[|events| - 1];
      var before := NovelAreFirsts(init, processed);
      positions := if last.eventId in processed + EventIds(init) then before else before + [|init|];
      FirstsOneMore(init, last, processed, before, positions);
      InitLast(events);
    }
  }

  /** The row is keyed by the device and carries the event's type and content. */
  ghost predicate RowCarries(row: OutboxRow, deviceId: string, e: Event) {
    && row.aggregateType == "edge_device" && row.aggregateId == deviceId && row.eventType == e.eventType
    && row.payload == HealthReport(e.payload) && row.causationId == None
  }

  lemma {:induction false} RowsCarryEvents(q: Request, events: seq<Event>, from: nat)
    ensures |RowsFor(q, events, from)| == |events|
    ensures forall j :: 0 <= j < |events| ==> RowCarries(RowsFor(q, events, from)[j], q.deviceId, events[j])
    ensures forall j :: 0 <= j < |events| ==>
      RowsFor(q, events, from)[j].eventId == q.uuid(from + j) && RowsFor(q, events, from)[j].correlationId == q.correlationId
  {
    if events != [] {
      RowsCarryEvents(q, events[..|events| - 1], from);
    }
  }

  /** The row is that of a first occurrence, with the request's correlation id. */
  ghost predicate FromFirst(row: OutboxRow, q: Request, events: seq<Event>, processed: set<string>) {
    row.correlationId == q.correlationId &&
    exists i: nat :: i < |events| && FirstOfId(events, processed, i) && RowCarries(row, q.deviceId, events[i])
  }

  ghost predicate AllCarry(rows: seq<OutboxRow>, q: Request, events: seq<Event>, processed: set<string>) {
    forall j :: 0 <= j < |rows| ==> FromFirst(rows[j], q, events, processed)
  }

  lemma RowsOfNovel(q: Request, events: seq<Event>, processed: set<string>, from: nat)
    ensures AllCarry(RowsFor(q, Novel(events, processed), from), q, events, processed)
  {
    var positions := NovelAreFirsts(events, processed);
    RowsCarryEvents(q, Novel(events, processed), from);
    forall j | 0 <= j < |RowsFor(q, Novel(events, processed), from)|
      ensures FromFirst(RowsFor(q, Novel(events, processed), from)[j], q, events, processed)
    {
      assert positions[j] in positions;
      assert FirstOfId(events, processed, positions[j]);
    }
  }

  datatype Outcome = Accepted | Duplicate | MarkFailed | InsertFailed

  /** Where the loop stops is where the batch breaks. */
  lemma BreakIsHandled(s: Server, q: Request, events: seq<Event>, fault: Fault, n: nat)
    requires n <= |events|
    requires n < |events| ==>
      (fault == MarkFails(n) || (fault == InsertFails(n) && events[n].eventId !in HandleFirst(s, q, events, n).processed))
    requires forall k :: 0 <= k < n ==> fault != MarkFails(k)
    requires forall k :: 0 <= k < n && fault == InsertFails(k) ==> events[k].eventId in HandleFirst(s, q, events, k).processed
    ensures n == Handled(events, s.processed, fault)
    ensures (n < |events| && fault.InsertFails?) <==> InsertBreaks(events, s.processed, fault)
  {
    if (fault.InsertFails? || fault.MarkFails?) && fault.at < |events| {
      HandleFirstAre(s, q, events, fault.at);
    }
  }

  class EdgeEventsService {
    var processed: set<string>
    var outbox: seq<OutboxRow>

    ghost function Abstract(): Server reads this { Server(processed, outbox) }

    constructor ()
      ensures Abstract() == Server({}, [])
    {
      processed, outbox := {}, [];
    }

    /** The atomic insert-if-absent on (event id, consumer). */
    method MarkProcessed(eventId: string) returns (isNew: bool)
      modifies this`processed
      ensures isNew <==> eventId !in old(processed)
      ensures processed == old(processed) + {eventId}
    {
      isNew := eventId !in processed;
      processed := processed + {eventId};
    }

    /** One event: recorded first, and given a row only if it is new. */
    method IngestOne(q: Request, e: Event, markFails: bool, insertFails: bool) returns (outcome: Outcome)
      modifies this
      ensures outcome == (if markFails then MarkFailed else if e.eventId in old(processed) then Duplicate
                          else if insertFails then InsertFailed else Accepted)
      ensures outcome.MarkFailed? ==> Abstract() == old(Abstract())
      ensures outcome.InsertFailed? ==> Abstract() == Server(old(processed) + {e.eventId}, old(outbox))
      ensures outcome.Duplicate? || outcome.Accepted? ==> Abstract() == Handle(old(Abstract()), q, e)
      ensures |outbox| == |old(outbox)| + if outcome.Accepted? then 1 else 0
    {
      if markFails {
        return MarkFailed;
      }
      var isNew := MarkProcessed(e.eventId);
      if !isNew {
        assert processed == old(processed);
        return Duplicate;
      }
      if insertFails {
        return InsertFailed;
      }
      outbox := outbox + [RowFor(q, e, |outbox|)];
      outcome := Accepted;
    }

    /** The loop over the batch, up to where it breaks, if it does; `n` counts the events handled in full. */
    method IngestAll(q: Request, events: seq<Event>, fault: Fault) returns (n: nat, accepted: nat, duplicates: nat)
      modifies this
      ensures n <= |events| && accepted + duplicates == n
      ensures accepted == |HandleFirst(old(Abstract()), q, events, n).outbox| - |old(outbox)|
      ensures outbox == HandleFirst(old(Abstract()), q, events, n).outbox
      ensures n < |events| ==>
        (fault == MarkFails(n) || (fault == InsertFails(n) && events[n].eventId !in HandleFirst(old(Abstract()), q, events, n).processed))
      ensures processed == HandleFirst(old(Abstract()), q, events, n).processed +
                           if n < |events| && fault.InsertFails? then {events[n].eventId} else {}
      ensures forall k :: 0 <= k < n ==> fault != MarkFails(k)
      ensures forall k :: 0 <= k < n && fault == InsertFails(k) ==>
        events[k].eventId in HandleFirst(old(Abstract()), q, events, k).processed
    {
      ghost var s := Abstract();
      accepted, duplicates := 0, 0;
      n := 0;
      while n < |events|
        invariant n <= |events| && accepted + duplicates == n
        invariant accepted == |outbox| - |s.outbox|
        invariant Abstract() == HandleFirst(s, q, events, n)
        invariant forall k :: 0 <= k < n ==> fault != MarkFails(k)
        invariant forall k :: 0 <= k < n && fault == InsertFails(k) ==> events[k].eventId in HandleFirst(s, q, events, k).processed
      {
        var outcome := IngestOne(q, events[n], fault == MarkFails(n), fault == InsertFails(n));
        match outcome {
          case MarkFailed | InsertFailed => return;
          case Duplicate => duplicates := duplicates + 1;
          case Accepted => accepted := accepted + 1;
        }
        n := n + 1;
      }
    }

    /** Each new id handled gets one outbox row, in first-occurrence order, and the counters add up to the
        batch; the answer is a success exactly when nothing broke. */
    method Ingest(q: Request, events: seq<Event>, fault: Fault) returns (r: Result<IngestResult, IngestError>)
      modifies this
      ensures !Supported(events) ==> r == Err(UnsupportedEventType) && Abstract() == old(Abstract())
      ensures Supported(events) ==>
        processed == old(processed) + RecordedIds(events, old(processed), fault)
      ensures Supported(events) ==>
        outbox == old(outbox) + RowsFor(q, Novel(events[..Handled(events, old(processed), fault)], old(processed)), |old(outbox)|)
      ensures Supported(events) ==>
        AllCarry(outbox[|old(outbox)|..], q, events[..Handled(events, old(processed), fault)], old(processed))
      ensures r.Ok? <==> Supported(events) && Handled(events, old(processed), fault) == |events| && !fault.TouchFails?
      ensures r.Ok? ==> r.value.accepted + r.value.duplicates == |events|
      ensures r.Ok? ==> r.value.accepted == |Novel(events, old(processed))|
    {
      if !Supported(events) {
        return Err(UnsupportedEventType);
      }
      var n, accepted, duplicates := IngestAll(q, events, fault);
      BreakIsHandled(old(Abstract()), q, events, fault, n);
      HandleFirstAre(old(Abstract()), q, events, n);
      RowsForSize(q, Novel(events[..n], old(processed)), |old(outbox)|);
      RowsOfNovel(q, events[..n], old(processed), |old(outbox)|);
      assert outbox[|old(outbox)|..] == RowsFor(q, Novel(events[..n], old(processed)), |old(outbox)|);
      TakeAll(events);
      r := if n == |events| && !fault.TouchFails? then Ok(IngestResult(accepted, duplicates)) else Err(IngestFailed);
    }
  }

  // ---------------------------------------------------------------- the device's side

  /** What becomes of a request: no answer, a refusal, a success, or a success with an unreadable body. */
  datatype Response = NetworkError | Rejected | Confirmed(result: IngestResult) | Unreadable

  datatype SyncResult = SyncResult(synced: nat, duplicates: nat)

  /** One cycle: rows change only once the server has confirmed the whole batch. `None` is an exception. */
  method RunSyncCycle(buffer: EdgeEventBuffer, maxEvents: int, maxBytes: int, response: Response, now: int)
    returns (r: Option<SyncResult>)
    requires Valid(buffer.Abstract())
    modifies buffer
    ensures Valid(buffer.Abstract()) && buffer.nextRowId == old(buffer.nextRowId)
    ensures var batch := old(NextBatch(buffer.rows, maxEvents, maxBytes));
      && buffer.rows == (if response.Confirmed? then Mark(old(buffer.rows), Ids(batch), now) else old(buffer.rows))
      && old(Unsynced(buffer.rows)) == (if response.Confirmed? then batch else []) + Unsynced(buffer.rows)
      && (r.None? <==> batch != [] && response.Unreadable?)
      && (r.Some? ==> r.value == if batch != [] && response.Confirmed?
                                 then SyncResult(response.result.accepted, response.result.duplicates) else SyncResult(0, 0))
  {
    CycleShortens(buffer.Abstract(), maxEvents, maxBytes, now);
    var batch := buffer.NextUnsyncedBatch(maxEvents, maxBytes);
    if batch == [] {
      MarkUnknown(buffer.rows, Ids(batch), now);
      return Some(SyncResult(0, 0));
    }
    match response
    case NetworkError => r := Some(SyncResult(0, 0));
    case Rejected => r := Some(SyncResult(0, 0));
    case Unreadable => r := None;
    case Confirmed(result) =>
      buffer.MarkSynced(Ids(batch), now);
      r := Some(SyncResult(result.accepted, result.duplicates));
  }
}
