/** What one sync cycle that nothing disturbs achieves, whatever happened before it. */
module EdgeProgress {
  import opened Sequences
  import opened Wrappers
  import opened EdgeBuffer
  import opened OutboxRows
  import opened EdgeIngest
  import opened EdgeDelivery

  /** The request's row ids are new, and stay so. */
  ghost predicate FreshFrom(outbox: seq<OutboxRow>, uuid: nat -> string) {
    && (forall i, j: nat :: 0 <= i < |outbox| <= j ==> outbox[i].eventId != uuid(j))
    && (forall i: nat, j: nat :: i < j ==> uuid(i) != uuid(j))
  }

  lemma HandleKeepsFresh(s: Server, q: Request, e: Event)
    requires FreshFrom(s.outbox, q.uuid)
    ensures FreshFrom(Handle(s, q, e).outbox, q.uuid)
  {
    var outbox := Handle(s, q, e).outbox;
    forall i, j: nat | 0 <= i < |outbox| <= j ensures outbox[i].eventId != q.uuid(j) {
      if i == |s.outbox| {
        assert outbox[i].eventId == q.uuid(i);
      }
    }
  }

  /** Nothing but the server's tables and cycle `k` has changed. */
  ghost predicate Served(w: World, w': World, k: nat, serving: Serving)
    requires k in w.cycles
  {
    && w'.deviceId == w.deviceId && w'.buffer == w.buffer && w'.entered == w.entered
    && w'.lost == w.lost && w'.failures == w.failures
    && w'.cycles == w.cycles[k := w.cycles[k].(serving := serving)]
  }

  lemma NextIsServed(w: World, k: nat, q: Request)
    requires k in w.cycles && MayMark(w.cycles[k])
    requires q.deviceId == w.deviceId && q.correlationId == w.cycles[k].correlationId && FreshFrom(w.outbox, q.uuid)
    ensures var w', c := Next(Next(w, MarkNext(k)), InsertNext(k, q.uuid(|w.outbox|))), w.cycles[k];
      && Server(w'.processed, w'.outbox) == Handle(Server(w.processed, w.outbox), q, c.batch[c.serving.next].event)
      && Served(w, w', k, Ingesting(c.serving.next + 1, false))
  {
    assert FreshRowId(w.outbox, q.uuid(|w.outbox|));
    UninterruptedIngestIsHandle(w, k, q);
    var c, m := w.cycles[k], DoMark(w, k);
    if NextId(c) !in w.processed {
      assert Holds(m.cycles[k]);
      assert w.cycles[k := m.cycles[k]][k := c.(serving := Ingesting(c.serving.next + 1, false))]
          == w.cycles[k := c.(serving := Ingesting(c.serving.next + 1, false))];
    }
  }

  /** The first `n` events of the batch, one after the other. */
  lemma {:induction false} BatchIsServed(deviceId: string, steps: seq<Step>, k: nat, q: Request, n: nat) returns (more: seq<Step>)
    requires var w := Run(deviceId, steps);
      && k in w.cycles && w.cycles[k].serving == Ingesting(0, false) && n <= |w.cycles[k].batch|
      && q.deviceId == w.deviceId && q.correlationId == w.cycles[k].correlationId && FreshFrom(w.outbox, q.uuid)
    ensures var w, w' := Run(deviceId, steps), Run(deviceId, more);
      && steps <= more && FreshFrom(w'.outbox, q.uuid)
      && Server(w'.processed, w'.outbox) == HandleFirst(Server(w.processed, w.outbox), q, EventsOf(w.cycles[k].batch), n)
      && Served(w, w', k, Ingesting(n, false))
  {
    var w := Run(deviceId, steps);
    if n == 0 {
      more := steps;
      assert w.cycles[k := w.cycles[k]] == w.cycles;
    } else {
      more := BatchIsServed(deviceId, steps, k, q, n - 1);
      var v := Run(deviceId, more);
      NextIsServed(v, k, q);
      HandleKeepsFresh(Server(v.processed, v.outbox), q, EventsOf(w.cycles[k].batch)[n - 1]);
      RunOneMore(deviceId, more, MarkNext(k));
      RunOneMore(deviceId, more + [MarkNext(k)], InsertNext(k, q.uuid(|v.outbox|)));
      more := more + [MarkNext(k)] + [InsertNext(k, q.uuid(|v.outbox|))];
      assert w.cycles[k := v.cycles[k]][k := w.cycles[k].(serving := Ingesting(n, false))]
          == w.cycles[k := w.cycles[k].(serving := Ingesting(n, false))];
    }
  }

  lemma CycleStarts(deviceId: string, steps: seq<Step>, k: nat, maxEvents: int, maxBytes: int, correlationId: Option<string>)
    requires var w := Run(deviceId, steps);
      k !in w.cycles && NextBatch(w.buffer.rows, maxEvents, maxBytes) != []
      && Supported(EventsOf(NextBatch(w.buffer.rows, maxEvents, maxBytes)))
    ensures var w := Run(deviceId, steps);
      Run(deviceId, steps + [StartCycle(k, maxEvents, maxBytes, correlationId)] + [Receive(k)]) ==
        w.(cycles := w.cycles[k := Cycle(NextBatch(w.buffer.rows, maxEvents, maxBytes), correlationId, true, Ingesting(0, false))])
  {
    var w, start := Run(deviceId, steps), StartCycle(k, maxEvents, maxBytes, correlationId);
    var batch := NextBatch(w.buffer.rows, maxEvents, maxBytes);
    RunOneMore(deviceId, steps, start);
    RunOneMore(deviceId, steps + [start], Receive(k));
    var sent := Cycle(batch, correlationId, true, Sent);
    assert w.cycles[k := sent][k := sent.(serving := Ingesting(0, false))] == w.cycles[k := sent.(serving := Ingesting(0, false))];
  }

  lemma CycleEnds(deviceId: string, steps: seq<Step>, k: nat, now: int)
    requires var w := Run(deviceId, steps);
      k in w.cycles && w.cycles[k].waiting && w.cycles[k].serving == Ingesting(|w.cycles[k].batch|, false)
    ensures var w, w' := Run(deviceId, steps), Run(deviceId, steps + [FinishIngest(k)] + [Confirm(k, now)]);
      && w'.buffer == w.buffer.(rows := Mark(w.buffer.rows, Ids(w.cycles[k].batch), now))
      && w'.processed == w.processed && w'.outbox == w.outbox && w'.lost == w.lost && w'.entered == w.entered
  {
    RunOneMore(deviceId, steps, FinishIngest(k));
    RunOneMore(deviceId, steps + [FinishIngest(k)], Confirm(k, now));
  }

  /** The cycle has done its work: the batch is off the device's list, its ids are recorded, and each event whose
      id was new has its row. */
  ghost predicate Delivered(w: World, w': World, q: Request, batch: seq<Row>) {
    && Unsynced(w.buffer.rows) == batch + Unsynced(w'.buffer.rows)
    && w'.processed == w.processed + EventIds(EventsOf(batch))
    && w'.outbox == w.outbox + RowsFor(q, Novel(EventsOf(batch), w.processed), |w.outbox|)
    && w'.lost == w.lost && w'.entered == w.entered && FreshFrom(w'.outbox, q.uuid)
  }

  lemma HandledIsDelivered(w: World, v: World, w': World, q: Request, maxEvents: int, maxBytes: int, now: int)
    requires Valid(w.buffer) && FreshFrom(v.outbox, q.uuid)
    requires var batch := NextBatch(w.buffer.rows, maxEvents, maxBytes);
      && v.buffer == w.buffer && v.lost == w.lost && v.entered == w.entered
      && Server(v.processed, v.outbox) == HandleFirst(Server(w.processed, w.outbox), q, EventsOf(batch), |EventsOf(batch)|)
      && w'.buffer == v.buffer.(rows := Mark(v.buffer.rows, Ids(batch), now))
      && w'.processed == v.processed && w'.outbox == v.outbox && w'.lost == v.lost && w'.entered == v.entered
    ensures Delivered(w, w', q, NextBatch(w.buffer.rows, maxEvents, maxBytes))
  {
    var events := EventsOf(NextBatch(w.buffer.rows, maxEvents, maxBytes));
    CycleShortens(w.buffer, maxEvents, maxBytes, now);
    HandleFirstAre(Server(w.processed, w.outbox), q, events, |events|);
    TakeAll(events);
  }

  /** After any run, a sync cycle that nothing disturbs delivers its batch and loses nothing. */
  lemma CleanCycleDelivers(deviceId: string, steps: seq<Step>, k: nat, maxEvents: int, maxBytes: int, q: Request, now: int)
    returns (more: seq<Step>)
    requires var w := Run(deviceId, steps);
      && k !in w.cycles && NextBatch(w.buffer.rows, maxEvents, maxBytes) != []
      && Supported(EventsOf(NextBatch(w.buffer.rows, maxEvents, maxBytes)))
      && FreshFrom(w.outbox, q.uuid)
    requires q.deviceId == deviceId
    ensures steps <= more
    ensures var w := Run(deviceId, steps);
      Delivered(w, Run(deviceId, more), q, NextBatch(w.buffer.rows, maxEvents, maxBytes))
  {
    var w := Run(deviceId, steps);
    var batch := NextBatch(w.buffer.rows, maxEvents, maxBytes);
    EveryRunKeepsInv(deviceId, steps);
    CycleStarts(deviceId, steps, k, maxEvents, maxBytes, q.correlationId);
    more := steps + [StartCycle(k, maxEvents, maxBytes, q.correlationId)] + [Receive(k)];
    more := BatchIsServed(deviceId, more, k, q, |batch|);
    var v := Run(deviceId, more);
    CycleEnds(deviceId, more, k, now);
    more := more + [FinishIngest(k)] + [Confirm(k, now)];
    HandledIsDelivered(w, v, Run(deviceId, more), q, maxEvents, maxBytes, now);
  }

  // ---------------------------------------------------------------- draining

  lemma {:induction false} NewKey(keys: set<nat>) returns (k: nat)
    ensures forall x :: x in keys ==> x < k
  {
    if keys == {} {
      k := 0;
    } else {
      var x :| x in keys;
      var rest := NewKey(keys - {x});
      k := if x < rest then rest else x + 1;
      forall y | y in keys ensures y < k {
        assert y == x || y in keys - {x};
      }
    }
  }

  lemma {:induction false} IdsConcat(a: seq<Event>, b: seq<Event>)
    ensures EventIds(a + b) == EventIds(a) + EventIds(b)
  {
    if b == [] {
      assert a + b == a;
    } else {
      InitOfConcat(a, b);
      IdsConcat(a, b[..|b| - 1]);
    }
  }

  lemma SuffixIsSupported(u: seq<Row>, batch: seq<Row>, rest: seq<Row>)
    requires u == batch + rest && Supported(EventsOf(u))
    ensures Supported(EventsOf(batch)) && Supported(EventsOf(rest))
    ensures EventIds(EventsOf(u)) == EventIds(EventsOf(batch)) + EventIds(EventsOf(rest))
  {
    forall i | 0 <= i < |batch| ensures batch[i].event.eventType == DEVICE_HEALTH_REPORTED {
      assert EventsOf(u)[i] == batch[i].event;
    }
    forall i | 0 <= i < |rest| ensures rest[i].event.eventType == DEVICE_HEALTH_REPORTED {
      assert EventsOf(u)[|batch| + i] == rest[i].event;
    }
    assert EventsOf(u) == EventsOf(batch) + EventsOf(rest);
    IdsConcat(EventsOf(batch), EventsOf(rest));
  }

  /** After any run, however disturbed, some further cycles empty the device's list and record all its ids, and
      lose nothing more. */
  lemma {:induction false} EverythingDrains(deviceId: string, steps: seq<Step>, maxEvents: int, maxBytes: int, q: Request, now: int)
    returns (more: seq<Step>)
    requires var w := Run(deviceId, steps);
      && maxEvents != 0 && Supported(EventsOf(Unsynced(w.buffer.rows))) && FreshFrom(w.outbox, q.uuid)
    requires q.deviceId == deviceId
    ensures steps <= more
    ensures var w, w' := Run(deviceId, steps), Run(deviceId, more);
      && Unsynced(w'.buffer.rows) == []
      && w'.processed == w.processed + EventIds(EventsOf(Unsynced(w.buffer.rows)))
      && w'.lost == w.lost && w'.entered == w.entered
    decreases |Unsynced(Run(deviceId, steps).buffer.rows)|
  {
    var w := Run(deviceId, steps);
    var u, batch := Unsynced(w.buffer.rows), NextBatch(w.buffer.rows, maxEvents, maxBytes);
    NextBatchIsLongest(w.buffer.rows, maxEvents, maxBytes);
    if u == [] {
      more := steps;
      assert EventsOf(u) == [];
    } else {
      EveryRunKeepsInv(deviceId, steps);
      CycleShortens(w.buffer, maxEvents, maxBytes, now);
      SuffixIsSupported(u, batch, Unsynced(AfterCycle(w.buffer.rows, maxEvents, maxBytes, now)));
      var k := NewKey(w.cycles.Keys);
      more := CleanCycleDelivers(deviceId, steps, k, maxEvents, maxBytes, q, now);
      SuffixIsSupported(u, batch, Unsynced(Run(deviceId, more).buffer.rows));
      more := EverythingDrains(deviceId, more, maxEvents, maxBytes, q, now);
    }
  }
}
