/** The device and the server together, step by step, with anything interleaved, lost or broken. */
module EdgeDelivery {
  import opened Sequences
  import opened Wrappers
  import opened EdgeBuffer
  import opened OutboxRows
  import opened EdgeIngest

  /** How far the server is with a request. `holding` says that event `next` is recorded but has no row yet. */
  datatype Serving = Sent | Vanished | Ingesting(next: nat, holding: bool) | Answered(ok: bool)

  /** One sync cycle: its batch, whether the device still waits, and the request's progress. */
  datatype Cycle = Cycle(batch: seq<Row>, correlationId: Option<string>, waiting: bool, serving: Serving)

  /** `entered`, `origins`, `lost` and `failures` are history: the events `append` took in, the event id behind
      each outbox row, the ids recorded by an ingest that broke before the row, and how many ingests broke. */
  datatype World = World(deviceId: string, buffer: Table, cycles: map<nat, Cycle>, processed: set<string>,
                         outbox: seq<OutboxRow>, entered: set<Event>, origins: seq<string>, lost: set<string>,
                         failures: nat)

  datatype Step =
    | Append(e: Event)
    | AppendLocalOnly(e: Event, now: int)
    | Prune(maxRows: int, cutoff: int)
    | StartCycle(cycle: nat, maxEvents: int, maxBytes: int, correlationId: Option<string>)
    | LoseRequest(cycle: nat)
    | Receive(cycle: nat)
    | MarkNext(cycle: nat)
    | InsertNext(cycle: nat, rowId: string)
    | FailIngest(cycle: nat)
    | FinishIngest(cycle: nat)
    | GiveUp(cycle: nat)
    | Confirm(cycle: nat, now: int)

  function Initial(deviceId: string): World {
    World(deviceId, Table([], 1), map[], {}, [], {}, [], {}, 0)
  }

  function IdsOf(events: set<Event>): set<string> { set e | e in events :: e.eventId }

  function EventsOf(batch: seq<Row>): seq<Event> {
    seq(|batch|, i requires 0 <= i < |batch| => batch[i].event)
  }

  predicate Holds(c: Cycle) { c.serving.Ingesting? && c.serving.holding && c.serving.next < |c.batch| }

  predicate MayMark(c: Cycle) { c.serving.Ingesting? && !c.serving.holding && c.serving.next < |c.batch| }

  function NextId(c: Cycle): string
    requires Holds(c) || MayMark(c)
  {
    c.batch[c.serving.next].event.eventId
  }

  predicate FreshRowId(outbox: seq<OutboxRow>, rowId: string) {
    forall i :: 0 <= i < |outbox| ==> outbox[i].eventId != rowId
  }

  // ---------------------------------------------------------------- steps; one that is not enabled changes nothing

  function DoAppend(w: World, e: Event): World {
    if HasEvent(w.buffer.rows, e.eventId) then w
    else w.(buffer := InsertOrIgnore(w.buffer, e, None), entered := w.entered + {e})
  }

  function Serve(w: World, k: nat, serving: Serving): World
    requires k in w.cycles
  {
    w.(cycles := w.cycles[k := w.cycles[k].(serving := serving)])
  }

  function DoReceive(w: World, k: nat): World
    requires k in w.cycles
  {
    if !w.cycles[k].serving.Sent? then w
    else Serve(w, k, if Supported(EventsOf(w.cycles[k].batch)) then Ingesting(0, false) else Answered(false))
  }

  function DoMark(w: World, k: nat): World
    requires k in w.cycles
  {
    var c := w.cycles[k];
    if !MayMark(c) then w
    else if NextId(c) in w.processed then Serve(w, k, Ingesting(c.serving.next + 1, false))
    else Serve(w, k, Ingesting(c.serving.next, true)).(processed := w.processed + {NextId(c)})
  }

  function DoInsert(w: World, k: nat, rowId: string): World
    requires k in w.cycles
  {
    var c := w.cycles[k];
    if !Holds(c) || !FreshRowId(w.outbox, rowId) then w else
    var e := c.batch[c.serving.next].event;
    Serve(w, k, Ingesting(c.serving.next + 1, false))
      .(outbox := w.outbox + [HealthRow(rowId, w.deviceId, e.eventType, e.payload, c.correlationId)],
        origins := w.origins + [e.eventId])
  }

  function DoFail(w: World, k: nat): World
    requires k in w.cycles
  {
    var c := w.cycles[k];
    if !c.serving.Ingesting? then w
    else Serve(w, k, Answered(false))
      .(failures := w.failures + 1, lost := w.lost + if Holds(c) then {NextId(c)} else {})
  }

  function DoFinish(w: World, k: nat): World
    requires k in w.cycles
  {
    if w.cycles[k].serving == Ingesting(|w.cycles[k].batch|, false) then Serve(w, k, Answered(true)) else w
  }

  function DoConfirm(w: World, k: nat, now: int): World
    requires k in w.cycles
  {
    var c := w.cycles[k];
    if !c.waiting || c.serving != Answered(true) then w
    else w.(buffer := w.buffer.(rows := Mark(w.buffer.rows, Ids(c.batch), now)),
            cycles := w.cycles[k := c.(waiting := false)])
  }

  function Next(w: World, s: Step): World {
    match s
    case Append(e) => DoAppend(w, e)
    case AppendLocalOnly(e, now) => w.(buffer := InsertOrIgnore(w.buffer, e, Some(now)))
    case Prune(maxRows, cutoff) => w.(buffer := w.buffer.(rows := Pruned(w.buffer.rows, maxRows, cutoff)))
    case StartCycle(k, maxEvents, maxBytes, correlationId) =>
      var batch := NextBatch(w.buffer.rows, maxEvents, maxBytes);
      if batch == [] || k in w.cycles then w
      else w.(cycles := w.cycles[k := Cycle(batch, correlationId, true, Sent)])
    case LoseRequest(k) => if k in w.cycles && w.cycles[k].serving.Sent? then Serve(w, k, Vanished) else w
    case Receive(k) => if k in w.cycles then DoReceive(w, k) else w
    case MarkNext(k) => if k in w.cycles then DoMark(w, k) else w
    case InsertNext(k, rowId) => if k in w.cycles then DoInsert(w, k, rowId) else w
    case FailIngest(k) => if k in w.cycles then DoFail(w, k) else w
    case FinishIngest(k) => if k in w.cycles then DoFinish(w, k) else w
    case GiveUp(k) => if k in w.cycles then w.(cycles := w.cycles[k := w.cycles[k].(waiting := false)]) else w
    case Confirm(k, now) => if k in w.cycles then DoConfirm(w, k, now) else w
  }

  function Run(deviceId: string, steps: seq<Step>): World {
    if steps == [] then Initial(deviceId) else Next(Run(deviceId, steps[..|steps| - 1]), steps[|steps| - 1])
  }

  // ---------------------------------------------------------------- which ids have rows

  /** The ids recorded by an ingest still under way that have no row yet, by cycle. */
  function HeldBy(cycles: map<nat, Cycle>): map<nat, string> {
    map k | k in cycles && Holds(cycles[k]) :: NextId(cycles[k])
  }

  /** Every recorded id has exactly one outbox row, or is in flight in exactly one ingest, or is lost. */
  ghost predicate Accounted(processed: set<string>, origins: seq<string>, lost: set<string>, held: map<nat, string>) {
    && (forall i, j :: 0 <= i < j < |origins| ==> origins[i] != origins[j])
    && (forall i :: 0 <= i < |origins| ==> origins[i] in processed && origins[i] !in lost)
    && (forall i, k :: 0 <= i < |origins| && k in held ==> origins[i] != held[k])
    && (forall k, l :: k in held && l in held && k != l ==> held[k] != held[l])
    && (forall k :: k in held ==> held[k] in processed && held[k] !in lost)
    && (forall id :: id in lost ==> id in processed)
    && (forall id :: id in processed ==> id in origins || id in lost || exists k :: k in held && held[k] == id)
  }

  lemma RecordKeepsAccount(processed: set<string>, origins: seq<string>, lost: set<string>, held: map<nat, string>, k: nat, id: string)
    requires Accounted(processed, origins, lost, held) && id !in processed && k !in held
    ensures Accounted(processed + {id}, origins, lost, held[k := id])
  {
    var held' := held[k := id];
    forall x | x in processed + {id} ensures x in origins || x in lost || exists l :: l in held' && held'[l] == x {
      if x == id {
        assert held'[k] == x;
      } else if x !in origins && x !in lost {
        var l :| l in held && held[l] == x;
        assert held'[l] == x;
      }
    }
  }

  lemma StoreKeepsAccount(processed: set<string>, origins: seq<string>, lost: set<string>, held: map<nat, string>, k: nat)
    requires Accounted(processed, origins, lost, held) && k in held
    ensures Accounted(processed, origins + [held[k]], lost, held - {k})
  {
    var held' := held - {k};
    forall x | x in processed && x !in origins + [held[k]] && x !in lost ensures exists l :: l in held' && held'[l] == x {
      assert x !in origins by {
        InConcat(origins, [held[k]]);
      }
      var l :| l in held && held[l] == x;
      assert held'[l] == x;
    }
  }

  lemma LoseKeepsAccount(processed: set<string>, origins: seq<string>, lost: set<string>, held: map<nat, string>, k: nat)
    requires Accounted(processed, origins, lost, held) && k in held
    ensures Accounted(processed, origins, lost + {held[k]}, held - {k})
  {
    var held' := held - {k};
    forall x | x in processed && x !in origins && x !in lost + {held[k]} ensures exists l :: l in held' && held'[l] == x {
      var l :| l in held && held[l] == x;
      assert held'[l] == x;
    }
  }

  lemma HeldAfter(cycles: map<nat, Cycle>, k: nat, c: Cycle)
    ensures HeldBy(cycles[k := c]) == if Holds(c) then HeldBy(cycles)[k := NextId(c)] else HeldBy(cycles) - {k}
  {}

  // ---------------------------------------------------------------- how far requests are

  predicate AllIn(batch: seq<Row>, n: nat, ids: set<string>)
    requires n <= |batch|
  {
    forall i :: 0 <= i < n ==> batch[i].event.eventId in ids
  }

  /** An ingest has recorded what it went past; an answer of success means the whole batch is recorded. */
  ghost predicate Progressed(c: Cycle, processed: set<string>) {
    match c.serving
    case Ingesting(next, holding) => next <= |c.batch| && AllIn(c.batch, next, processed) && (holding ==> Holds(c))
    case Answered(ok) => ok ==> AllIn(c.batch, |c.batch|, processed)
    case _ => true
  }

  ghost predicate AllProgressed(cycles: map<nat, Cycle>, processed: set<string>) {
    forall k :: k in cycles ==> Progressed(cycles[k], processed)
  }

  lemma ProgressIsKept(w: World, k: nat, serving: Serving, processed: set<string>)
    requires AllProgressed(w.cycles, w.processed) && w.processed <= processed && k in w.cycles
    requires Progressed(w.cycles[k].(serving := serving), processed)
    ensures AllProgressed(Serve(w, k, serving).cycles, processed)
  {}

  // ---------------------------------------------------------------- the device's table

  predicate Pending(rows: seq<Row>, id: string) { exists r :: r in rows && r.event.eventId == id && r.syncedAt.None? }

  /** Every row of the later table is an old one, up to its mark, or has a new row id. */
  ghost predicate Follows(t: Table, t': Table) {
    && t.nextRowId <= t'.nextRowId
    && forall x :: x in t'.rows ==> t.nextRowId <= x.rowId || exists y :: y in t.rows && y.rowId == x.rowId && y.event == x.event
  }

  ghost predicate RecallsRow(t: Table, entered: set<string>, r: Row) {
    && r.rowId < t.nextRowId && r.event.eventId in entered
    && forall x :: x in t.rows && x.rowId == r.rowId ==> x.event == r.event
  }

  /** Batches hold entered events, and a row id never comes to mean another event. */
  ghost predicate Recalls(t: Table, entered: set<string>, batch: seq<Row>) {
    forall r :: r in batch ==> RecallsRow(t, entered, r)
  }

  ghost predicate AllRecalled(cycles: map<nat, Cycle>, t: Table, entered: set<string>) {
    forall k :: k in cycles ==> Recalls(t, entered, cycles[k].batch)
  }

  /** Entered ids are pending or recorded; pending and recorded ids were entered. */
  ghost predicate Conserved(rows: seq<Row>, processed: set<string>, entered: set<string>) {
    && (forall id :: id in entered ==> id in processed || Pending(rows, id))
    && (forall r :: r in rows && r.syncedAt.None? ==> r.event.eventId in entered)
    && processed <= entered
  }

  lemma RecallsRowLater(t: Table, t': Table, entered: set<string>, entered': set<string>, r: Row)
    requires Follows(t, t') && entered <= entered' && RecallsRow(t, entered, r)
    ensures RecallsRow(t', entered', r)
  {
    forall x | x in t'.rows && x.rowId == r.rowId ensures x.event == r.event {
      var y :| y in t.rows && y.rowId == x.rowId && y.event == x.event;
    }
  }

  lemma RecallsLater(t: Table, t': Table, entered: set<string>, entered': set<string>, cycles: map<nat, Cycle>)
    requires AllRecalled(cycles, t, entered) && Follows(t, t') && entered <= entered'
    ensures AllRecalled(cycles, t', entered')
  {
    forall k, r | k in cycles && r in cycles[k].batch ensures RecallsRow(t', entered', r) {
      RecallsRowLater(t, t', entered, entered', r);
    }
  }

  lemma InsertFollows(t: Table, e: Event, syncedAt: Option<int>)
    requires Valid(t)
    ensures Valid(InsertOrIgnore(t, e, syncedAt)) && Follows(t, InsertOrIgnore(t, e, syncedAt))
    ensures forall id :: Pending(InsertOrIgnore(t, e, syncedAt).rows, id) <==>
      Pending(t.rows, id) || (id == e.eventId && syncedAt.None? && !HasEvent(t.rows, e.eventId))
  {
    InsertKeepsValid(t, e, syncedAt);
    var r := Row(t.nextRowId, e, syncedAt);
    InConcat(t.rows, [r]);
    if !HasEvent(t.rows, e.eventId) && syncedAt.None? {
      assert r in t.rows + [r];
    }
  }

  lemma PruneFollows(t: Table, maxRows: int, cutoff: int)
    requires Valid(t)
    ensures var t' := t.(rows := Pruned(t.rows, maxRows, cutoff));
      Valid(t') && Follows(t, t') && forall id :: Pending(t'.rows, id) <==> Pending(t.rows, id)
  {
    var rows := Pruned(t.rows, maxRows, cutoff);
    PruneKeepsUnsynced(t, maxRows, cutoff);
    WhereAre(t.rows, false);
    WhereAre(rows, false);
    forall r: Row | r.syncedAt.None? ensures r in rows <==> r in t.rows {
      assert r in Unsynced(rows) <==> r in rows;
      assert r in Unsynced(t.rows) <==> r in t.rows;
    }
  }

  /** A prune between any two steps keeps what is unsynced and bounds the table. */
  lemma PruneStepIsBounded(w: World, maxRows: int, cutoff: int)
    requires Valid(w.buffer)
    ensures var w' := Next(w, Prune(maxRows, cutoff));
      && w' == w.(buffer := w'.buffer) && w'.buffer.nextRowId == w.buffer.nextRowId
      && Unsynced(w'.buffer.rows) == Unsynced(w.buffer.rows)
      && |w'.buffer.rows| <= Larger(maxRows, |Unsynced(w.buffer.rows)|)
      && AllWithin(w'.buffer.rows, w.buffer.rows, cutoff)
  {
    PruneSizes(w.buffer, maxRows, cutoff);
  }

  /** A lost request never reaches the server, and an answer that comes after the device gave up marks nothing. */
  lemma UnansweredMarksNothing(w: World, k: nat, now: int)
    requires k in w.cycles
    ensures Next(Next(w, GiveUp(k)), Confirm(k, now)).buffer == w.buffer
    ensures w.cycles[k].serving.Sent? ==>
      Next(Next(w, LoseRequest(k)), Receive(k)) == w.(cycles := w.cycles[k := w.cycles[k].(serving := Vanished)])
  {}

  lemma MarkedAre(rows: seq<Row>, ids: seq<nat>, now: int)
    ensures forall x :: x in Mark(rows, ids, now) ==> exists y :: y in rows && x == Marked(y, ids, now)
    ensures forall y :: y in rows ==> Marked(y, ids, now) in Mark(rows, ids, now)
  {
    MarkAt(rows, ids, now);
    forall x | x in Mark(rows, ids, now) ensures exists y :: y in rows && x == Marked(y, ids, now) {
      var i :| 0 <= i < |Mark(rows, ids, now)| && Mark(rows, ids, now)[i] == x;
      assert rows[i] in rows;
    }
    forall y | y in rows ensures Marked(y, ids, now) in Mark(rows, ids, now) {
      var i :| 0 <= i < |rows| && rows[i] == y;
      assert Mark(rows, ids, now)[i] == Marked(y, ids, now);
    }
  }

  lemma MarkFollows(t: Table, ids: seq<nat>, now: int)
    requires Valid(t)
    ensures Valid(t.(rows := Mark(t.rows, ids, now))) && Follows(t, t.(rows := Mark(t.rows, ids, now)))
  {
    MarkKeepsValid(t, ids, now);
    MarkedAre(t.rows, ids, now);
  }

  lemma MarkedIsRecorded(t: Table, processed: set<string>, entered: set<string>, batch: seq<Row>, r: Row)
    requires Recalls(t, entered, batch) && AllIn(batch, |batch|, processed)
    requires r in t.rows && r.rowId in Ids(batch)
    ensures r.event.eventId in processed
  {
    var i :| 0 <= i < |Ids(batch)| && Ids(batch)[i] == r.rowId;
    assert batch[i] in batch && RecallsRow(t, entered, batch[i]);
  }

  /** Marking a recorded batch takes nothing out of the account. */
  lemma MarkConserves(t: Table, processed: set<string>, entered: set<string>, batch: seq<Row>, now: int)
    requires Valid(t) && Conserved(t.rows, processed, entered)
    requires Recalls(t, entered, batch) && AllIn(batch, |batch|, processed)
    ensures Conserved(Mark(t.rows, Ids(batch), now), processed, entered)
  {
    var ids := Ids(batch);
    var rows := Mark(t.rows, ids, now);
    MarkedAre(t.rows, ids, now);
    forall id | id in entered && id !in processed ensures Pending(rows, id) {
      var r :| r in t.rows && r.event.eventId == id && r.syncedAt.None?;
      if r.rowId in ids {
        MarkedIsRecorded(t, processed, entered, batch, r);
      }
      assert Marked(r, ids, now) in rows;
    }
  }

  // ---------------------------------------------------------------- the invariant

  ghost predicate Rows(w: World) {
    && |w.origins| == |w.outbox|
    && (forall i, j :: 0 <= i < j < |w.outbox| ==> w.outbox[i].eventId != w.outbox[j].eventId)
    && (forall i :: 0 <= i < |w.outbox| ==> w.outbox[i].eventType == DEVICE_HEALTH_REPORTED && w.outbox[i].aggregateId == w.deviceId)
  }

  /** An ingest only ever starts on a supported batch. */
  ghost predicate AllSupported(cycles: map<nat, Cycle>) {
    forall k :: k in cycles && cycles[k].serving.Ingesting? ==> Supported(EventsOf(cycles[k].batch))
  }

  ghost predicate DeviceInv(w: World) {
    && Valid(w.buffer)
    && Conserved(w.buffer.rows, w.processed, IdsOf(w.entered))
    && AllRecalled(w.cycles, w.buffer, IdsOf(w.entered))
  }

  ghost predicate ServerInv(w: World) {
    && AllProgressed(w.cycles, w.processed)
    && AllSupported(w.cycles)
    && Accounted(w.processed, w.origins, w.lost, HeldBy(w.cycles))
    && |w.lost| <= w.failures
    && Rows(w)
  }

  ghost predicate Inv(w: World) { DeviceInv(w) && ServerInv(w) }

  predicate DeviceStep(s: Step) { s.Append? || s.AppendLocalOnly? || s.Prune? }

  lemma AppendedIds(w: World, s: Step)
    requires DeviceStep(s)
    ensures IdsOf(Next(w, s).entered) ==
      IdsOf(w.entered) + if s.Append? && !HasEvent(w.buffer.rows, s.e.eventId) then {s.e.eventId} else {}
  {
    if s.Append? {
      forall id | id in IdsOf(w.entered) ensures id in IdsOf(w.entered + {s.e}) {
        var e :| e in w.entered && e.eventId == id;
        assert e in w.entered + {s.e};
      }
      assert s.e in w.entered + {s.e};
    }
  }

  lemma UnsyncedAreEntered(w: World, s: Step)
    requires Inv(w) && DeviceStep(s)
    ensures forall r :: r in Next(w, s).buffer.rows && r.syncedAt.None? ==> r.event.eventId in IdsOf(Next(w, s).entered)
  {
    AppendedIds(w, s);
    forall r | r in Next(w, s).buffer.rows && r.syncedAt.None? ensures r.event.eventId in IdsOf(Next(w, s).entered) {
      assert Pending(Next(w, s).buffer.rows, r.event.eventId);
      match s {
        case Append(e) => InsertFollows(w.buffer, e, None);
        case AppendLocalOnly(e, now) => InsertFollows(w.buffer, e, Some(now));
        case Prune(maxRows, cutoff) => PruneFollows(w.buffer, maxRows, cutoff);
      }
    }
  }

  lemma DeviceStepKeepsInv(w: World, s: Step)
    requires Inv(w) && DeviceStep(s)
    ensures Inv(Next(w, s))
  {
    var w' := Next(w, s);
    match s {
      case Append(e) => InsertFollows(w.buffer, e, None);
      case AppendLocalOnly(e, now) => InsertFollows(w.buffer, e, Some(now));
      case Prune(maxRows, cutoff) => PruneFollows(w.buffer, maxRows, cutoff);
    }
    AppendedIds(w, s);
    RecallsLater(w.buffer, w'.buffer, IdsOf(w.entered), IdsOf(w'.entered), w.cycles);
    UnsyncedAreEntered(w, s);
  }

  lemma SameRowId(t: Table, r: Row)
    requires Valid(t) && r in t.rows
    ensures r.rowId < t.nextRowId
    ensures forall x :: x in t.rows && x.rowId == r.rowId ==> x == r
  {}

  lemma StartKeepsInv(w: World, k: nat, maxEvents: int, maxBytes: int, correlationId: Option<string>)
    requires Inv(w) && k !in w.cycles
    ensures Inv(Next(w, StartCycle(k, maxEvents, maxBytes, correlationId)))
  {
    var batch := NextBatch(w.buffer.rows, maxEvents, maxBytes);
    NextBatchIsLongest(w.buffer.rows, maxEvents, maxBytes);
    WhereAre(w.buffer.rows, false);
    forall r | r in batch ensures RecallsRow(w.buffer, IdsOf(w.entered), r) {
      assert r in Unsynced(w.buffer.rows);
      SameRowId(w.buffer, r);
    }
    HeldAfter(w.cycles, k, Cycle(batch, correlationId, true, Sent));
    assert HeldBy(w.cycles) - {k} == HeldBy(w.cycles);
  }

  /** A step of the request that records nothing, stores nothing and loses nothing. */
  lemma QuietServeKeepsInv(w: World, k: nat, serving: Serving)
    requires Inv(w) && k in w.cycles && !Holds(w.cycles[k])
    requires var c := w.cycles[k].(serving := serving);
      !Holds(c) && Progressed(c, w.processed) && (serving.Ingesting? ==> Supported(EventsOf(c.batch)))
    ensures Inv(Serve(w, k, serving))
  {
    HeldAfter(w.cycles, k, w.cycles[k].(serving := serving));
    assert HeldBy(w.cycles) - {k} == HeldBy(w.cycles);
  }

  lemma MarkKeepsInv(w: World, k: nat)
    requires Inv(w) && k in w.cycles
    ensures Inv(DoMark(w, k))
  {
    var c := w.cycles[k];
    if MayMark(c) {
      var id := NextId(c);
      if id in w.processed {
        QuietServeKeepsInv(w, k, Ingesting(c.serving.next + 1, false));
      } else {
        var c' := c.(serving := Ingesting(c.serving.next, true));
        HeldAfter(w.cycles, k, c');
        RecordKeepsAccount(w.processed, w.origins, w.lost, HeldBy(w.cycles), k, id);
        ProgressIsKept(w, k, c'.serving, w.processed + {id});
        assert c.batch[c.serving.next] in c.batch && RecallsRow(w.buffer, IdsOf(w.entered), c.batch[c.serving.next]);
      }
    }
  }

  lemma InsertKeepsAccount(w: World, k: nat, rowId: string)
    requires ServerInv(w) && k in w.cycles && Holds(w.cycles[k]) && FreshRowId(w.outbox, rowId)
    ensures var w' := DoInsert(w, k, rowId);
      Accounted(w'.processed, w'.origins, w'.lost, HeldBy(w'.cycles)) && AllProgressed(w'.cycles, w'.processed)
  {
    var c := w.cycles[k];
    HeldAfter(w.cycles, k, c.(serving := Ingesting(c.serving.next + 1, false)));
    assert HeldBy(w.cycles)[k] == NextId(c);
    StoreKeepsAccount(w.processed, w.origins, w.lost, HeldBy(w.cycles), k);
    ProgressIsKept(w, k, Ingesting(c.serving.next + 1, false), w.processed);
  }

  lemma InsertKeepsRows(w: World, k: nat, rowId: string)
    requires Rows(w) && AllSupported(w.cycles) && k in w.cycles && Holds(w.cycles[k]) && FreshRowId(w.outbox, rowId)
    ensures Rows(DoInsert(w, k, rowId)) && AllSupported(DoInsert(w, k, rowId).cycles)
  {
    var c := w.cycles[k];
    assert EventsOf(c.batch)[c.serving.next] == c.batch[c.serving.next].event;
  }

  lemma InsertKeepsInv(w: World, k: nat, rowId: string)
    requires Inv(w) && k in w.cycles
    ensures Inv(DoInsert(w, k, rowId))
  {
    if Holds(w.cycles[k]) && FreshRowId(w.outbox, rowId) {
      InsertKeepsAccount(w, k, rowId);
      InsertKeepsRows(w, k, rowId);
    }
  }

  lemma FailKeepsInv(w: World, k: nat)
    requires Inv(w) && k in w.cycles
    ensures Inv(DoFail(w, k))
  {
    var c := w.cycles[k];
    if Holds(c) {
      HeldAfter(w.cycles, k, c.(serving := Answered(false)));
      assert HeldBy(w.cycles)[k] == NextId(c);
      LoseKeepsAccount(w.processed, w.origins, w.lost, HeldBy(w.cycles), k);
      ProgressIsKept(w, k, Answered(false), w.processed);
    } else if c.serving.Ingesting? {
      QuietServeKeepsInv(w, k, Answered(false));
      assert w.lost + {} == w.lost;
    }
  }

  lemma WaitingIsIrrelevant(w: World, k: nat)
    requires ServerInv(w) && k in w.cycles
    ensures ServerInv(w.(cycles := w.cycles[k := w.cycles[k].(waiting := false)]))
  {
    var c := w.cycles[k];
    HeldAfter(w.cycles, k, c.(waiting := false));
    if Holds(c) {
      assert HeldBy(w.cycles)[k] == NextId(c);
    }
    assert HeldBy(w.cycles[k := c.(waiting := false)]) == HeldBy(w.cycles);
  }

  lemma ConfirmKeepsInv(w: World, k: nat, now: int)
    requires Inv(w) && k in w.cycles
    ensures Inv(DoConfirm(w, k, now))
  {
    var c := w.cycles[k];
    if c.waiting && c.serving == Answered(true) {
      assert Progressed(c, w.processed) && Recalls(w.buffer, IdsOf(w.entered), c.batch);
      MarkFollows(w.buffer, Ids(c.batch), now);
      MarkConserves(w.buffer, w.processed, IdsOf(w.entered), c.batch, now);
      RecallsLater(w.buffer, DoConfirm(w, k, now).buffer, IdsOf(w.entered), IdsOf(w.entered), w.cycles);
      WaitingIsIrrelevant(w, k);
    }
  }

  lemma RequestStepKeepsInv(w: World, s: Step)
    requires Inv(w) && !DeviceStep(s) && !s.StartCycle? && s.cycle in w.cycles
    ensures Inv(Next(w, s))
  {
    var k := s.cycle;
    var c := w.cycles[k];
    match s
    case LoseRequest(_) => if c.serving.Sent? { QuietServeKeepsInv(w, k, Vanished); }
    case Receive(_) =>
      if c.serving.Sent? {
        QuietServeKeepsInv(w, k, if Supported(EventsOf(c.batch)) then Ingesting(0, false) else Answered(false));
      }
    case MarkNext(_) => MarkKeepsInv(w, k);
    case InsertNext(_, rowId) => InsertKeepsInv(w, k, rowId);
    case FailIngest(_) => FailKeepsInv(w, k);
    case FinishIngest(_) =>
      if c.serving == Ingesting(|c.batch|, false) {
        assert Progressed(c, w.processed);
        QuietServeKeepsInv(w, k, Answered(true));
      }
    case GiveUp(_) => WaitingIsIrrelevant(w, k);
    case Confirm(_, now) => ConfirmKeepsInv(w, k, now);
  }

  lemma NextKeepsInv(w: World, s: Step)
    requires Inv(w)
    ensures Inv(Next(w, s))
  {
    if DeviceStep(s) {
      DeviceStepKeepsInv(w, s);
    } else if s.StartCycle? {
      if s.cycle !in w.cycles {
        StartKeepsInv(w, s.cycle, s.maxEvents, s.maxBytes, s.correlationId);
      }
    } else if s.cycle in w.cycles {
      RequestStepKeepsInv(w, s);
    }
  }

  lemma {:induction false} EveryRunKeepsInv(deviceId: string, steps: seq<Step>)
    ensures Inv(Run(deviceId, steps)) && Run(deviceId, steps).deviceId == deviceId
  {
    if steps != [] {
      EveryRunKeepsInv(deviceId, steps[..|steps| - 1]);
      NextKeepsInv(Run(deviceId, steps[..|steps| - 1]), steps[|steps| - 1]);
    }
  }

  // ---------------------------------------------------------------- what is in the rows

  /** The row is that of an entered event: it has the event's id behind it and carries its content. */
  ghost predicate FromEntered(row: OutboxRow, id: string, deviceId: string, entered: set<Event>) {
    exists e :: e in entered && e.eventId == id && RowCarries(row, deviceId, e)
  }

  ghost predicate BatchEntered(batch: seq<Row>, entered: set<Event>) { forall r :: r in batch ==> r.event in entered }

  /** What is to be sent, what is being sent and what has been stored are entered events, content and all. */
  ghost predicate Content(w: World) {
    && (forall r :: r in w.buffer.rows && r.syncedAt.None? ==> r.event in w.entered)
    && (forall k :: k in w.cycles ==> BatchEntered(w.cycles[k].batch, w.entered))
    && |w.origins| == |w.outbox|
    && (forall i :: 0 <= i < |w.outbox| ==> FromEntered(w.outbox[i], w.origins[i], w.deviceId, w.entered))
  }

  lemma FromEnteredLater(row: OutboxRow, id: string, deviceId: string, entered: set<Event>, entered': set<Event>)
    requires FromEntered(row, id, deviceId, entered) && entered <= entered'
    ensures FromEntered(row, id, deviceId, entered')
  {
    var e :| e in entered && e.eventId == id && RowCarries(row, deviceId, e);
    assert e in entered';
  }

  /** A device step adds no unsynced row but that of the event it appends. */
  lemma DeviceStepRows(w: World, s: Step)
    requires Valid(w.buffer) && DeviceStep(s)
    ensures forall r :: r in Next(w, s).buffer.rows && r.syncedAt.None? ==>
      r in w.buffer.rows || (s.Append? && !HasEvent(w.buffer.rows, s.e.eventId) && r.event == s.e)
  {
    match s {
      case Append(e) => InConcat(w.buffer.rows, [Row(w.buffer.nextRowId, e, None)]);
      case AppendLocalOnly(e, now) => InConcat(w.buffer.rows, [Row(w.buffer.nextRowId, e, Some(now))]);
      case Prune(maxRows, cutoff) => PruneKeepsUnsynced(w.buffer, maxRows, cutoff);
    }
  }

  lemma DeviceStepKeepsContent(w: World, s: Step)
    requires DeviceInv(w) && Content(w) && DeviceStep(s)
    ensures Content(Next(w, s))
  {
    DeviceStepRows(w, s);
    var w' := Next(w, s);
    forall i | 0 <= i < |w'.outbox| ensures FromEntered(w'.outbox[i], w'.origins[i], w'.deviceId, w'.entered) {
      FromEnteredLater(w.outbox[i], w.origins[i], w.deviceId, w.entered, w'.entered);
    }
  }

  lemma StartKeepsContent(w: World, s: Step)
    requires Content(w) && s.StartCycle?
    ensures Content(Next(w, s))
  {
    var batch := NextBatch(w.buffer.rows, s.maxEvents, s.maxBytes);
    NextBatchIsLongest(w.buffer.rows, s.maxEvents, s.maxBytes);
    WhereAre(w.buffer.rows, false);
    forall r | r in batch ensures r.event in w.entered {
      assert r in Unsynced(w.buffer.rows);
    }
  }

  lemma InsertKeepsContent(w: World, k: nat, rowId: string)
    requires Content(w) && k in w.cycles
    ensures Content(DoInsert(w, k, rowId))
  {
    var c := w.cycles[k];
    if Holds(c) && FreshRowId(w.outbox, rowId) {
      var r := c.batch[c.serving.next];
      assert r in c.batch;
      assert RowCarries(HealthRow(rowId, w.deviceId, r.event.eventType, r.event.payload, c.correlationId), w.deviceId, r.event);
    }
  }

  lemma ConfirmKeepsContent(w: World, k: nat, now: int)
    requires Content(w) && k in w.cycles
    ensures Content(DoConfirm(w, k, now))
  {
    MarkedAre(w.buffer.rows, Ids(w.cycles[k].batch), now);
  }

  lemma NextKeepsContent(w: World, s: Step)
    requires DeviceInv(w) && Content(w)
    ensures Content(Next(w, s))
  {
    if DeviceStep(s) {
      DeviceStepKeepsContent(w, s);
    } else if s.StartCycle? {
      StartKeepsContent(w, s);
    } else if s.cycle in w.cycles {
      match s
      case InsertNext(k, rowId) => InsertKeepsContent(w, k, rowId);
      case Confirm(k, now) => ConfirmKeepsContent(w, k, now);
      case LoseRequest(_) =>
      case Receive(_) =>
      case MarkNext(_) =>
      case FailIngest(_) =>
      case FinishIngest(_) =>
      case GiveUp(_) =>
    }
  }

  /** In every run, each outbox row carries the content of an event that `append` took in under the row's id. */
  lemma {:induction false} RowsCarryEnteredEvents(deviceId: string, steps: seq<Step>)
    ensures Content(Run(deviceId, steps))
  {
    if steps != [] {
      RowsCarryEnteredEvents(deviceId, steps[..|steps| - 1]);
      EveryRunKeepsInv(deviceId, steps[..|steps| - 1]);
      NextKeepsContent(Run(deviceId, steps[..|steps| - 1]), steps[|steps| - 1]);
    }
  }

  // ---------------------------------------------------------------- what the invariant says

  /** Main result. After any steps: every id `append` took in is still pending on the device or recorded on the
      server; a recorded id has one outbox row, or is in flight, or is one of at most `failures` lost ids; no id
      has two rows, no row comes from an id that was never taken in, and row ids are unique. */
  lemma NothingIsLostOrDoubled(deviceId: string, steps: seq<Step>)
    ensures var w := Run(deviceId, steps);
      var held := HeldBy(w.cycles);
      && (forall id :: id in IdsOf(w.entered) ==> id in w.processed || Pending(w.buffer.rows, id))
      && (forall id :: id in w.processed ==> id in w.origins || id in w.lost || exists k :: k in held && held[k] == id)
      && (forall i, j :: 0 <= i < j < |w.origins| ==> w.origins[i] != w.origins[j])
      && (forall i, j :: 0 <= i < j < |w.outbox| ==> w.outbox[i].eventId != w.outbox[j].eventId)
      && |w.origins| == |w.outbox|
      && (forall i :: 0 <= i < |w.origins| ==> w.origins[i] in IdsOf(w.entered) && w.origins[i] !in w.lost)
      && |w.lost| <= w.failures
  {
    EveryRunKeepsInv(deviceId, steps);
  }

  lemma {:induction false} CountDistinct(s: seq<string>, ids: set<string>)
    requires forall i, j :: 0 <= i < j < |s| ==> s[i] != s[j]
    requires forall id :: id in ids <==> id in s
    ensures |s| == |ids|
  {
    if s == [] {
      assert ids == {};
    } else {
      InitLast(s);
      var init, last := s[..|s| - 1], s[|s| - 1];
      InConcat(init, [last]);
      assert last !in init;
      CountDistinct(init, ids - {last});
    }
  }

  lemma CountEntered(origins: seq<string>, lost: set<string>, entered: set<string>)
    requires forall i, j :: 0 <= i < j < |origins| ==> origins[i] != origins[j]
    requires forall id :: id in entered <==> id in origins || id in lost
    requires forall id :: !(id in origins && id in lost)
    ensures |entered| == |origins| + |lost|
  {
    assert forall id :: id in origins ==> id in entered - lost;
    CountDistinct(origins, entered - lost);
    assert entered == (entered - lost) + lost;
  }

  /** With nothing in flight and nothing left to send, each entered id has one row or is lost, never both; so the
      rows are the entered ids, once each, exactly when nothing is lost. */
  lemma QuietMeansExactlyOnce(deviceId: string, steps: seq<Step>)
    requires HeldBy(Run(deviceId, steps).cycles) == map[] && Unsynced(Run(deviceId, steps).buffer.rows) == []
    ensures var w := Run(deviceId, steps);
      && (forall id :: id in IdsOf(w.entered) <==> id in w.origins || id in w.lost)
      && (forall id :: !(id in w.origins && id in w.lost))
      && |IdsOf(w.entered)| == |w.outbox| + |w.lost|
      && ((forall id :: id in IdsOf(w.entered) <==> id in w.origins) <==> w.lost == {})
  {
    var w := Run(deviceId, steps);
    EveryRunKeepsInv(deviceId, steps);
    WhereAre(w.buffer.rows, false);
    forall id | id in IdsOf(w.entered) ensures id in w.origins || id in w.lost {
      assert !Pending(w.buffer.rows, id);
    }
    CountEntered(w.origins, w.lost, IdsOf(w.entered));
    if id :| id in w.lost {
      assert id in IdsOf(w.entered) && id !in w.origins;
    }
  }

  /** After an append, the event is accounted for exactly when its id is new to the table, still pending there,
      or recorded already. */
  lemma AppendIsAccountedIff(deviceId: string, steps: seq<Step>, e: Event)
    ensures var w := Run(deviceId, steps);
      var w' := Next(w, Append(e));
      (e.eventId in w'.processed || Pending(w'.buffer.rows, e.eventId)) <==>
      (!HasEvent(w.buffer.rows, e.eventId) || Pending(w.buffer.rows, e.eventId) || e.eventId in w.processed)
  {
    var w := Run(deviceId, steps);
    EveryRunKeepsInv(deviceId, steps);
    InsertFollows(w.buffer, e, None);
  }

  /** Left to itself, the ingest handles each event as `EdgeIngest.Handle` does: the two steps compose to it. */
  lemma UninterruptedIngestIsHandle(w: World, k: nat, q: Request)
    requires k in w.cycles && MayMark(w.cycles[k])
    requires q.deviceId == w.deviceId && q.correlationId == w.cycles[k].correlationId
    requires FreshRowId(w.outbox, q.uuid(|w.outbox|))
    ensures var w' := DoInsert(DoMark(w, k), k, q.uuid(|w.outbox|));
      var c := w.cycles[k];
      && Server(w'.processed, w'.outbox) == Handle(Server(w.processed, w.outbox), q, c.batch[c.serving.next].event)
      && w'.cycles[k].serving == Ingesting(c.serving.next + 1, false)
  {
    var m := DoMark(w, k);
    if NextId(w.cycles[k]) !in w.processed {
      assert Holds(m.cycles[k]) && FreshRowId(m.outbox, q.uuid(|w.outbox|));
    }
  }

  lemma LostGrows(w: World, s: Step)
    ensures w.lost <= Next(w, s).lost
  {}

  lemma {:induction false} LostPersists(deviceId: string, steps: seq<Step>, more: seq<Step>)
    ensures Run(deviceId, steps).lost <= Run(deviceId, steps + more).lost
  {
    if more == [] {
      assert steps + more == steps;
    } else {
      InitOfConcat(steps, more);
      LostPersists(deviceId, steps, more[..|more| - 1]);
      LostGrows(Run(deviceId, steps + more[..|more| - 1]), more[|more| - 1]);
    }
  }

  /** A lost id stays lost: no steps that follow ever give it a row. */
  lemma LostStaysLost(deviceId: string, steps: seq<Step>, more: seq<Step>, id: string)
    requires id in Run(deviceId, steps).lost
    ensures id in Run(deviceId, steps + more).lost && id !in Run(deviceId, steps + more).origins
  {
    LostPersists(deviceId, steps, more);
    EveryRunKeepsInv(deviceId, steps + more);
  }

  /** A step loses an id exactly when it breaks an ingest between an event's record and its row; then it is that
      event's. */
  lemma LosesIff(deviceId: string, steps: seq<Step>, s: Step)
    ensures var w := Run(deviceId, steps);
      && (Next(w, s).lost != w.lost <==> s.FailIngest? && s.cycle in w.cycles && Holds(w.cycles[s.cycle]))
      && (s.FailIngest? && s.cycle in w.cycles && Holds(w.cycles[s.cycle]) ==>
            Next(w, s).lost == w.lost + {NextId(w.cycles[s.cycle])})
  {
    var w := Run(deviceId, steps);
    EveryRunKeepsInv(deviceId, steps);
    if s.FailIngest? && s.cycle in w.cycles && Holds(w.cycles[s.cycle]) {
      assert HeldBy(w.cycles)[s.cycle] !in w.lost;
    }
  }

  lemma RunOneMore(deviceId: string, steps: seq<Step>, s: Step)
    ensures Run(deviceId, steps + [s]) == Next(Run(deviceId, steps), s)
  {
    Snoc(steps, s);
  }

  /** The batch of a table that holds one unsynced row. */
  lemma OnlyBatch(r: Row)
    requires r.syncedAt.None?
    ensures Unsynced([r]) == [r] && NextBatch([r], 1, 0) == [r] && EventsOf([r]) == [r.event]
  {
    assert [r][1..] == [] && [r] + [] == [r];
    assert Where([r], false) == [r] + Where([], false);
    NextBatchIsLongest([r], 1, 0);
  }

  /** Such a run: the ingest of the one event breaks after its record ... */
  lemma BrokenIngestLoses(deviceId: string, e: Event) returns (steps: seq<Step>)
    requires e.eventType == DEVICE_HEALTH_REPORTED
    ensures var w := Run(deviceId, steps);
      && w.entered == {e} && w.lost == w.processed == {e.eventId} && w.origins == []
      && w.buffer == Table([Row(1, e, None)], 2) && w.cycles.Keys == {0} && !Holds(w.cycles[0])
  {
    var r := Row(1, e, None);
    OnlyBatch(r);
    RunOneMore(deviceId, [], Append(e));
    steps := [] + [Append(e)];
    assert [] + [r] == [r];
    assert Run(deviceId, steps) == Initial(deviceId).(buffer := Table([r], 2), entered := {e});
    RunOneMore(deviceId, steps, StartCycle(0, 1, 0, None));
    steps := steps + [StartCycle(0, 1, 0, None)];
    RunOneMore(deviceId, steps, Receive(0));
    steps := steps + [Receive(0)];
    RunOneMore(deviceId, steps, MarkNext(0));
    steps := steps + [MarkNext(0)];
    assert Run(deviceId, steps).cycles == map[0 := Cycle([r], None, true, Ingesting(0, true))];
    RunOneMore(deviceId, steps, FailIngest(0));
    steps := steps + [FailIngest(0)];
    assert Run(deviceId, steps).cycles == map[0 := Cycle([r], None, true, Answered(false))];
  }

  /** A recorded event is sent again: the four steps up to the answer, and the last. */
  lemma ResendIsDuplicate(w: World, r: Row)
    requires w.buffer.rows == [r] && r.syncedAt.None? && r.event.eventType == DEVICE_HEALTH_REPORTED
    requires r.event.eventId in w.processed && 1 !in w.cycles
    ensures Next(Next(Next(Next(w, StartCycle(1, 1, 0, None)), Receive(1)), MarkNext(1)), FinishIngest(1)) ==
      w.(cycles := w.cycles[1 := Cycle([r], None, true, Answered(true))])
  {
    OnlyBatch(r);
    var w1 := Next(w, StartCycle(1, 1, 0, None));
    assert w1 == w.(cycles := w.cycles[1 := Cycle([r], None, true, Sent)]);
    var w2 := Next(w1, Receive(1));
    assert w2 == w.(cycles := w.cycles[1 := Cycle([r], None, true, Ingesting(0, false))]);
    var w3 := Next(w2, MarkNext(1));
    assert w3 == w.(cycles := w.cycles[1 := Cycle([r], None, true, Ingesting(1, false))]);
  }

  lemma ConfirmMarks(w: World, r: Row, now: int)
    requires w.buffer.rows == [r] && 1 in w.cycles && w.cycles[1] == Cycle([r], None, true, Answered(true))
    ensures Next(w, Confirm(1, now)) ==
      w.(buffer := w.buffer.(rows := [r.(syncedAt := Some(now))]), cycles := w.cycles[1 := Cycle([r], None, false, Answered(true))])
  {
    MarkAt([r], Ids([r]), now);
    assert Ids([r])[0] == r.rowId;
  }

  lemma FiveMore(deviceId: string, steps: seq<Step>, a: Step, b: Step, c: Step, d: Step, e: Step)
    ensures Run(deviceId, steps + [a] + [b] + [c] + [d] + [e]) == Next(Next(Next(Next(Next(Run(deviceId, steps), a), b), c), d), e)
  {
    RunOneMore(deviceId, steps, a);
    RunOneMore(deviceId, steps + [a], b);
    RunOneMore(deviceId, steps + [a] + [b], c);
    RunOneMore(deviceId, steps + [a] + [b] + [c], d);
    RunOneMore(deviceId, steps + [a] + [b] + [c] + [d], e);
  }

  /** ... and the next cycle sends it again, is told that it is a duplicate, and marks it synced. */
  lemma RetryOfLostIsAcknowledged(deviceId: string, e: Event, now: int) returns (steps: seq<Step>)
    requires e.eventType == DEVICE_HEALTH_REPORTED
    ensures var w := Run(deviceId, steps);
      && w.entered == {e} && w.lost == {e.eventId} && w.origins == []
      && w.buffer.rows == [Row(1, e, Some(now))] && HeldBy(w.cycles) == map[]
  {
    var r := Row(1, e, None);
    var broken := BrokenIngestLoses(deviceId, e);
    var w := Run(deviceId, broken);
    ResendIsDuplicate(w, r);
    var answered := w.(cycles := w.cycles[1 := Cycle([r], None, true, Answered(true))]);
    ConfirmMarks(answered, r, now);
    FiveMore(deviceId, broken, StartCycle(1, 1, 0, None), Receive(1), MarkNext(1), FinishIngest(1), Confirm(1, now));
    steps := broken + [StartCycle(1, 1, 0, None)] + [Receive(1)] + [MarkNext(1)] + [FinishIngest(1)] + [Confirm(1, now)];
    assert Run(deviceId, steps) == Next(answered, Confirm(1, now));
  }

  /** An id first written by `appendLocalOnly` shadows a later `append`, which then never reaches the server. */
  lemma LocalRowShadowsAppend(deviceId: string, e: Event, now: int)
    ensures var w := Run(deviceId, [AppendLocalOnly(e, now), Append(e)]);
      e.eventId !in w.processed && !Pending(w.buffer.rows, e.eventId) && HasEvent(w.buffer.rows, e.eventId)
  {
    var first, both := [AppendLocalOnly(e, now)], [AppendLocalOnly(e, now), Append(e)];
    assert both[..1] == first && first[..0] == [];
    var row := Row(1, e, Some(now));
    var w := Initial(deviceId).(buffer := Table([row], 2));
    assert [] + [row] == [row];
    assert Next(Initial(deviceId), AppendLocalOnly(e, now)) == w;
    assert Run(deviceId, first) == w;
    assert row in [row];
    assert Next(w, Append(e)) == w;
  }

  /** The batch of a table that holds two unsynced rows. */
  lemma PairBatch(r: Row, q: Row)
    requires r.syncedAt.None? && q.syncedAt.None?
    ensures NextBatch([r, q], 2, Bytes([r, q])) == [r, q] && EventsOf([r, q]) == [r.event, q.event]
  {
    var rows := [r, q];
    assert rows[1..] == [q] && [q][1..] == [] && [q] + [] == [q] && [r] + [q] == rows;
    assert Where([q], false) == [q] + Where([], false);
    assert Unsynced(rows) == rows;
    NextBatchIsLongest(rows, 2, Bytes(rows));
    assert rows[..2] == rows && Fits(rows, Bytes(rows), 2);
  }

  lemma ThreeMore(deviceId: string, steps: seq<Step>, a: Step, b: Step, c: Step)
    ensures Run(deviceId, steps + [a] + [b] + [c]) == Next(Next(Next(Run(deviceId, steps), a), b), c)
  {
    RunOneMore(deviceId, steps, a);
    RunOneMore(deviceId, steps + [a], b);
    RunOneMore(deviceId, steps + [a] + [b], c);
  }

  /** A new event of a batch under way: recorded, and then stored. */
  lemma NextIsIngested(w: World, k: nat, rowId: string)
    requires k in w.cycles && MayMark(w.cycles[k]) && NextId(w.cycles[k]) !in w.processed && FreshRowId(w.outbox, rowId)
    ensures var c := w.cycles[k];
      var e := c.batch[c.serving.next].event;
      Next(Next(w, MarkNext(k)), InsertNext(k, rowId)) ==
        w.(cycles := w.cycles[k := c.(serving := Ingesting(c.serving.next + 1, false))],
           processed := w.processed + {e.eventId}, origins := w.origins + [e.eventId],
           outbox := w.outbox + [HealthRow(rowId, w.deviceId, e.eventType, e.payload, c.correlationId)])
  {
    var c := w.cycles[k];
    assert w.cycles[k := c.(serving := Ingesting(c.serving.next, true))][k := c.(serving := Ingesting(c.serving.next + 1, false))]
        == w.cycles[k := c.(serving := Ingesting(c.serving.next + 1, false))];
  }

  lemma PairIsSent(w: World, r: Row, q: Row)
    requires w.buffer.rows == [r, q] && w.cycles == map[] && r.syncedAt.None? && q.syncedAt.None?
    requires r.event.eventType == DEVICE_HEALTH_REPORTED && q.event.eventType == DEVICE_HEALTH_REPORTED
    ensures Next(Next(w, StartCycle(0, 2, Bytes([r, q]), None)), Receive(0)) ==
      w.(cycles := map[0 := Cycle([r, q], None, true, Ingesting(0, false))])
  {
    PairBatch(r, q);
    assert Next(w, StartCycle(0, 2, Bytes([r, q]), None)) == w.(cycles := map[0 := Cycle([r, q], None, true, Sent)]);
  }

  lemma TwoEventsSent(deviceId: string, e: Event, f: Event) returns (steps: seq<Step>)
    requires e.eventId != f.eventId && e.eventType == DEVICE_HEALTH_REPORTED && f.eventType == DEVICE_HEALTH_REPORTED
    ensures var rows := [Row(1, e, None), Row(2, f, None)];
      Run(deviceId, steps) ==
        Initial(deviceId).(buffer := Table(rows, 3), entered := {e, f},
                           cycles := map[0 := Cycle(rows, None, true, Ingesting(0, false))])
  {
    var r, q := Row(1, e, None), Row(2, f, None);
    RunOneMore(deviceId, [], Append(e));
    steps := [] + [Append(e)];
    assert [] + [r] == [r] && [r] + [q] == [r, q] && {e} + {f} == {e, f};
    assert Run(deviceId, steps) == Initial(deviceId).(buffer := Table([r], 2), entered := {e});
    ThreeMore(deviceId, steps, Append(f), StartCycle(0, 2, Bytes([r, q]), None), Receive(0));
    var w := Initial(deviceId).(buffer := Table([r, q], 3), entered := {e, f});
    assert Next(Run(deviceId, steps), Append(f)) == w;
    PairIsSent(w, r, q);
    steps := steps + [Append(f)] + [StartCycle(0, 2, Bytes([r, q]), None)] + [Receive(0)];
  }

  /** A run in which two events get their rows in the order they were appended. */
  lemma TwoEventsIngested(deviceId: string, e: Event, f: Event) returns (steps: seq<Step>)
    requires e.eventId != f.eventId && e.eventType == DEVICE_HEALTH_REPORTED && f.eventType == DEVICE_HEALTH_REPORTED
    ensures |Run(deviceId, steps).outbox| == 2 && Run(deviceId, steps).origins == [e.eventId, f.eventId]
  {
    steps := TwoEventsSent(deviceId, e, f);
    var w := Run(deviceId, steps);
    NextIsIngested(w, 0, "a");
    var w1 := Next(Next(w, MarkNext(0)), InsertNext(0, "a"));
    NextIsIngested(w1, 0, "b");
    RunOneMore(deviceId, steps, MarkNext(0));
    ThreeMore(deviceId, steps + [MarkNext(0)], InsertNext(0, "a"), MarkNext(0), InsertNext(0, "b"));
    steps := steps + [MarkNext(0)] + [InsertNext(0, "a")] + [MarkNext(0)] + [InsertNext(0, "b")];
  }
}
