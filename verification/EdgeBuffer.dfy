/** The edge agent's durable event buffer: one table, rows in row-id order. */
module EdgeBuffer {
  import opened Sequences
  import opened Wrappers

  /** `payload` is the serialized payload, as bytes. */
  datatype Event = Event(eventId: string, eventType: string, occurredAt: string, payload: seq<bv8>)

  /** `syncedAt` is a time in seconds, unset until the row is confirmed. */
  datatype Row = Row(rowId: nat, event: Event, syncedAt: Option<int>)

  /** `nextRowId` is the autoincrement counter: row ids are never handed out twice. */
  datatype Table = Table(rows: seq<Row>, nextRowId: nat)

  const SECONDS_PER_HOUR := 3600

  // ---------------------------------------------------------------- the table's statements

  predicate HasEvent(rows: seq<Row>, eventId: string) { exists r :: r in rows && r.event.eventId == eventId }

  /** INSERT OR IGNORE: nothing happens when the event id is already there. */
  function InsertOrIgnore(t: Table, e: Event, syncedAt: Option<int>): Table {
    if HasEvent(t.rows, e.eventId) then t else Table(t.rows + [Row(t.nextRowId, e, syncedAt)], t.nextRowId + 1)
  }

  /** The rows that are synced, or those that are not, oldest first. */
  function Where(rows: seq<Row>, synced: bool): seq<Row> {
    if rows == [] then [] else (if rows[0].syncedAt.Some? == synced then [rows[0]] else []) + Where(rows[1..], synced)
  }

  function Unsynced(rows: seq<Row>): seq<Row> { Where(rows, false) }

  /** SQL's LIMIT: negative means none. */
  function Limit<T>(s: seq<T>, n: int): seq<T> { if n < 0 || n >= |s| then s else s[..n] }

  function Marked(r: Row, ids: seq<nat>, now: int): Row { if r.rowId in ids then r.(syncedAt := Some(now)) else r }

  function Mark(rows: seq<Row>, ids: seq<nat>, now: int): seq<Row> {
    if rows == [] then [] else [Marked(rows[0], ids, now)] + Mark(rows[1..], ids, now)
  }

  predicate Expired(r: Row, cutoff: int) { r.syncedAt.Some? && r.syncedAt.value < cutoff }

  /** DELETE of the rows synced before the cutoff. */
  function WithoutExpired(rows: seq<Row>, cutoff: int): seq<Row> {
    if rows == [] then [] else (if Expired(rows[0], cutoff) then [] else [rows[0]]) + WithoutExpired(rows[1..], cutoff)
  }

  /** DELETE of the first `n` synced rows. */
  function WithoutFirstSynced(rows: seq<Row>, n: nat): seq<Row> {
    if rows == [] || n == 0 then rows
    else if rows[0].syncedAt.Some? then WithoutFirstSynced(rows[1..], n - 1)
    else [rows[0]] + WithoutFirstSynced(rows[1..], n)
  }

  function Pruned(rows: seq<Row>, maxRows: int, cutoff: int): seq<Row> {
    var kept := WithoutExpired(rows, cutoff);
    if |kept| > maxRows then WithoutFirstSynced(kept, |kept| - maxRows) else kept
  }

  function Bytes(rows: seq<Row>): nat {
    if rows == [] then 0 else Bytes(rows[..|rows| - 1]) + |rows[|rows| - 1].event.payload|
  }

  /** How far a batch that already holds `n` candidates reaches. */
  function BatchCount(cands: seq<Row>, maxBytes: int, n: nat): nat
    requires n <= |cands|
    decreases |cands| - n
  {
    if n == |cands| || (n > 0 && Bytes(cands[..n + 1]) > maxBytes) then n else BatchCount(cands, maxBytes, n + 1)
  }

  lemma {:induction false} BatchCountBounds(cands: seq<Row>, maxBytes: int, n: nat)
    requires n <= |cands|
    ensures n <= BatchCount(cands, maxBytes, n) <= |cands|
    decreases |cands| - n
  {
    if !(n == |cands| || (n > 0 && Bytes(cands[..n + 1]) > maxBytes)) {
      BatchCountBounds(cands, maxBytes, n + 1);
    }
  }

  function NextBatch(rows: seq<Row>, maxEvents: int, maxBytes: int): seq<Row> {
    var cands := Limit(Unsynced(rows), maxEvents);
    BatchCountBounds(cands, maxBytes, 0);
    cands[..BatchCount(cands, maxBytes, 0)]
  }

  // ---------------------------------------------------------------- well-formed tables

  ghost predicate Valid(t: Table) {
    && (forall i :: 0 <= i < |t.rows| ==> t.rows[i].rowId < t.nextRowId)
    && (forall i, j :: 0 <= i < j < |t.rows| ==> t.rows[i].rowId < t.rows[j].rowId)
    && (forall i, j :: 0 <= i < j < |t.rows| ==> t.rows[i].event.eventId != t.rows[j].event.eventId)
  }

  lemma InsertKeepsValid(t: Table, e: Event, syncedAt: Option<int>)
    requires Valid(t)
    ensures Valid(InsertOrIgnore(t, e, syncedAt))
  {
    forall i | 0 <= i < |t.rows| && !HasEvent(t.rows, e.eventId) ensures t.rows[i].event.eventId != e.eventId {
      assert t.rows[i] in t.rows;
    }
  }

  lemma {:induction false} MarkAt(rows: seq<Row>, ids: seq<nat>, now: int)
    ensures |Mark(rows, ids, now)| == |rows|
    ensures forall i :: 0 <= i < |rows| ==> Mark(rows, ids, now)[i] == Marked(rows[i], ids, now)
    ensures forall i :: 0 <= i < |rows| ==>
      Mark(rows, ids, now)[i] == Row(rows[i].rowId, rows[i].event, if rows[i].rowId in ids then Some(now) else rows[i].syncedAt)
  {
    if rows != [] {
      MarkAt(rows[1..], ids, now);
    }
  }

  lemma MarkKeepsValid(t: Table, ids: seq<nat>, now: int)
    requires Valid(t)
    ensures Valid(Table(Mark(t.rows, ids, now), t.nextRowId))
  {
    MarkAt(t.rows, ids, now);
  }

  lemma TailIsValid(t: Table)
    requires Valid(t) && t.rows != []
    ensures Valid(Table(t.rows[1..], t.nextRowId))
    ensures forall r :: r in t.rows[1..] ==> r.rowId > t.rows[0].rowId && r.event.eventId != t.rows[0].event.eventId
  {
    var rest := t.rows[1..];
    forall i | 0 <= i < |rest| ensures rest[i] == t.rows[i + 1] {}
  }

  lemma ConsKeepsValid(r: Row, rest: seq<Row>, nextRowId: nat)
    requires Valid(Table(rest, nextRowId)) && r.rowId < nextRowId
    requires forall x :: x in rest ==> x.rowId > r.rowId && x.event.eventId != r.event.eventId
    ensures Valid(Table([r] + rest, nextRowId))
  {
    forall i | 0 <= i < |rest| ensures rest[i] in rest {}
  }

  // ---------------------------------------------------------------- batches

  lemma {:induction false} WhereAre(rows: seq<Row>, synced: bool)
    ensures forall r :: r in Where(rows, synced) <==> r in rows && r.syncedAt.Some? == synced
  {
    if rows != [] {
      WhereAre(rows[1..], synced);
      assert forall r :: r in rows <==> r == rows[0] || r in rows[1..];
    }
  }

  lemma {:induction false} WhereIsValid(t: Table, synced: bool)
    requires Valid(t)
    ensures Valid(Table(Where(t.rows, synced), t.nextRowId))
    decreases |t.rows|
  {
    if t.rows != [] {
      TailIsValid(t);
      var rest := Table(t.rows[1..], t.nextRowId);
      WhereIsValid(rest, synced);
      WhereAre(rest.rows, synced);
      if t.rows[0].syncedAt.Some? == synced {
        ConsKeepsValid(t.rows[0], Where(rest.rows, synced), t.nextRowId);
      }
    }
  }

  lemma {:induction false} BytesGrow(rows: seq<Row>, m: nat, n: nat)
    requires m <= n <= |rows|
    ensures Bytes(rows[..m]) <= Bytes(rows[..n])
    decreases n
  {
    if m < n {
      BytesGrow(rows, m, n - 1);
      TakeTake(rows, n - 1, n);
    }
  }

  /** A batch of the first `n` candidates respects the byte cap, or is a single row. */
  predicate Fits(cands: seq<Row>, maxBytes: int, n: nat)
    requires n <= |cands|
  {
    n <= 1 || Bytes(cands[..n]) <= maxBytes
  }

  lemma {:induction false} BatchCountIsLongest(cands: seq<Row>, maxBytes: int, n: nat)
    requires n <= |cands| && Fits(cands, maxBytes, n)
    ensures n <= BatchCount(cands, maxBytes, n) <= |cands|
    ensures Fits(cands, maxBytes, BatchCount(cands, maxBytes, n))
    ensures forall k :: BatchCount(cands, maxBytes, n) < k <= |cands| ==> !Fits(cands, maxBytes, k)
    decreases |cands| - n
  {
    if n == |cands| {
    } else if n > 0 && Bytes(cands[..n + 1]) > maxBytes {
      forall k | n < k <= |cands| ensures !Fits(cands, maxBytes, k) {
        BytesGrow(cands, n + 1, k);
      }
    } else {
      BatchCountIsLongest(cands, maxBytes, n + 1);
    }
  }

  /** The batch is the longest prefix of the unsynced rows within both caps, or one oversized row. */
  ghost predicate IsLongestBatch(batch: seq<Row>, rows: seq<Row>, maxEvents: int, maxBytes: int) {
    var cands := Limit(Unsynced(rows), maxEvents);
    && |batch| <= |cands| && batch == cands[..|batch|] && batch <= Unsynced(rows)
    && forall n :: 0 <= n <= |cands| ==> (Fits(cands, maxBytes, n) <==> n <= |batch|)
  }

  lemma NextBatchIsLongest(rows: seq<Row>, maxEvents: int, maxBytes: int)
    ensures IsLongestBatch(NextBatch(rows, maxEvents, maxBytes), rows, maxEvents, maxBytes)
    ensures NextBatch(rows, maxEvents, maxBytes) == [] <==> Unsynced(rows) == [] || maxEvents == 0
  {
    var cands := Limit(Unsynced(rows), maxEvents);
    var k := BatchCount(cands, maxBytes, 0);
    BatchCountIsLongest(cands, maxBytes, 0);
    forall n | 0 <= n <= k ensures Fits(cands, maxBytes, n) {
      BytesGrow(cands, n, k);
    }
    if cands != [] {
      assert Fits(cands, maxBytes, 1);
    }
  }

  lemma {:induction false} BytesAdd(a: seq<Row>, b: seq<Row>)
    ensures Bytes(a + b) == Bytes(a) + Bytes(b)
    ensures |b| == 1 ==> Bytes(b) == |b[0].event.payload|
  {
    if b == [] {
      assert a + b == a;
    } else {
      InitOfConcat(a, b);
      BytesAdd(a, b[..|b| - 1]);
    }
  }

  /** The batch in plain terms: a prefix of the unsynced rows, within the event cap unless that is negative, within
      the byte cap unless it is one row; and any longer such prefix would break one of the two. */
  lemma NextBatchMeans(rows: seq<Row>, maxEvents: int, maxBytes: int)
    ensures var batch, all := NextBatch(rows, maxEvents, maxBytes), Unsynced(rows);
      && batch <= all
      && (maxEvents < 0 || |batch| <= maxEvents) && (|batch| <= 1 || Bytes(batch) <= maxBytes)
      && forall n :: |batch| < n <= |all| ==> 0 <= maxEvents < n || (n > 1 && Bytes(all[..n]) > maxBytes)
  {
    var batch, all := NextBatch(rows, maxEvents, maxBytes), Unsynced(rows);
    var cands := Limit(all, maxEvents);
    NextBatchIsLongest(rows, maxEvents, maxBytes);
    assert Fits(cands, maxBytes, |batch|);
    forall n | |batch| < n <= |all| ensures 0 <= maxEvents < n || (n > 1 && Bytes(all[..n]) > maxBytes) {
      if n <= |cands| {
        assert !Fits(cands, maxBytes, n);
        assert cands[..n] == all[..n];
      }
    }
  }

  // ---------------------------------------------------------------- pruning

  lemma {:induction false} WithoutExpiredAre(t: Table, cutoff: int)
    requires Valid(t)
    ensures Valid(Table(WithoutExpired(t.rows, cutoff), t.nextRowId))
    ensures forall r :: r in WithoutExpired(t.rows, cutoff) <==> r in t.rows && !Expired(r, cutoff)
    ensures Unsynced(WithoutExpired(t.rows, cutoff)) == Unsynced(t.rows)
    ensures |WithoutExpired(t.rows, cutoff)| <= |t.rows|
    decreases |t.rows|
  {
    if t.rows != [] {
      TailIsValid(t);
      var rest := Table(t.rows[1..], t.nextRowId);
      WithoutExpiredAre(rest, cutoff);
      assert forall r :: r in t.rows <==> r == t.rows[0] || r in rest.rows;
      var kept := WithoutExpired(rest.rows, cutoff);
      if !Expired(t.rows[0], cutoff) {
        ConsKeepsValid(t.rows[0], kept, t.nextRowId);
      } else {
        assert WithoutExpired(t.rows, cutoff) == kept;
      }
      HeadTail(t.rows);
    }
  }

  lemma {:induction false} WhereSizes(rows: seq<Row>)
    ensures |Where(rows, true)| + |Where(rows, false)| == |rows|
  {
    if rows != [] {
      WhereSizes(rows[1..]);
    }
  }

  function Drop<T>(s: seq<T>, n: nat): seq<T> { if n < |s| then s[n..] else [] }

  lemma {:induction false} WithoutFirstSyncedKeepsValid(t: Table, n: nat)
    requires Valid(t)
    ensures Valid(Table(WithoutFirstSynced(t.rows, n), t.nextRowId))
    ensures forall x :: x in WithoutFirstSynced(t.rows, n) ==> x in t.rows
    decreases |t.rows|
  {
    if t.rows != [] && n > 0 {
      TailIsValid(t);
      var rest := Table(t.rows[1..], t.nextRowId);
      if t.rows[0].syncedAt.Some? {
        WithoutFirstSyncedKeepsValid(rest, n - 1);
      } else {
        WithoutFirstSyncedKeepsValid(rest, n);
        ConsKeepsValid(t.rows[0], WithoutFirstSynced(rest.rows, n), t.nextRowId);
      }
    }
  }

  lemma WhereCons(r: Row, rest: seq<Row>)
    requires r.syncedAt.None?
    ensures Where([r] + rest, false) == [r] + Where(rest, false) && Where([r] + rest, true) == Where(rest, true)
  {
    ConsTail(r, rest);
    assert [] + Where(rest, true) == Where(rest, true);
  }

  lemma {:induction false} WithoutFirstSyncedSplits(rows: seq<Row>, n: nat)
    ensures Unsynced(WithoutFirstSynced(rows, n)) == Unsynced(rows)
    ensures Where(WithoutFirstSynced(rows, n), true) == Drop(Where(rows, true), n)
  {
    if rows != [] && n > 0 {
      if rows[0].syncedAt.Some? {
        WithoutFirstSyncedSplits(rows[1..], n - 1);
      } else {
        WithoutFirstSyncedSplits(rows[1..], n);
        HeadTail(rows);
        WhereCons(rows[0], rows[1..]);
        WhereCons(rows[0], WithoutFirstSynced(rows[1..], n));
      }
    }
  }

  /** What deleting the first `n` synced rows leaves: the unsynced ones, and the synced ones but for the
      oldest `n`. */
  lemma WithoutFirstSyncedAre(t: Table, n: nat)
    requires Valid(t)
    ensures var r := WithoutFirstSynced(t.rows, n);
      && Valid(Table(r, t.nextRowId))
      && (forall x :: x in r ==> x in t.rows)
      && Unsynced(r) == Unsynced(t.rows)
      && Where(r, true) == Drop(Where(t.rows, true), n)
  {
    WithoutFirstSyncedKeepsValid(t, n);
    WithoutFirstSyncedSplits(t.rows, n);
  }

  function Larger(a: int, b: int): int { if a < b then b else a }

  /** How far the table is over its cap after the expired rows are gone. */
  function Overflow(kept: seq<Row>, maxRows: int): nat { if |kept| > maxRows then |kept| - maxRows else 0 }

  lemma PruneKeepsUnsynced(t: Table, maxRows: int, cutoff: int)
    requires Valid(t)
    ensures Valid(Table(Pruned(t.rows, maxRows, cutoff), t.nextRowId))
    ensures Unsynced(Pruned(t.rows, maxRows, cutoff)) == Unsynced(t.rows)
    ensures |WithoutExpired(t.rows, cutoff)| <= |t.rows|
    ensures forall x :: x in Pruned(t.rows, maxRows, cutoff) ==> x in t.rows && !Expired(x, cutoff)
    ensures Where(Pruned(t.rows, maxRows, cutoff), true) ==
      Drop(Where(WithoutExpired(t.rows, cutoff), true), Overflow(WithoutExpired(t.rows, cutoff), maxRows))
  {
    var kept := Table(WithoutExpired(t.rows, cutoff), t.nextRowId);
    WithoutExpiredAre(t, cutoff);
    WithoutFirstSyncedAre(kept, Overflow(kept.rows, maxRows));
  }

  /** Pruning keeps every unsynced row, leaves at most max(maxRows, unsynced) rows, and deletes only rows past
      the cutoff and then, oldest first, as many synced rows as the table is over its cap. */
  lemma PruneIsBounded(t: Table, maxRows: int, cutoff: int)
    requires Valid(t)
    ensures var r, kept := Pruned(t.rows, maxRows, cutoff), WithoutExpired(t.rows, cutoff);
      && Valid(Table(r, t.nextRowId))
      && Unsynced(r) == Unsynced(t.rows)
      && |r| <= Larger(maxRows, |Unsynced(t.rows)|) && |r| <= |kept| <= |t.rows|
      && (forall x :: x in kept <==> x in t.rows && (x.syncedAt == None || x.syncedAt.value >= cutoff))
      && (forall x :: x in r ==> x in kept)
      && Where(r, true) == (if |kept| <= maxRows then Where(kept, true) else Drop(Where(kept, true), |kept| - maxRows))
  {
    PruneKeepsUnsynced(t, maxRows, cutoff);
    WithoutExpiredAre(t, cutoff);
    WhereSizes(WithoutExpired(t.rows, cutoff));
    WhereSizes(Pruned(t.rows, maxRows, cutoff));
  }

  /** The rows are among those before, unsynced or synced no earlier than the cutoff. */
  ghost predicate AllWithin(rows: seq<Row>, before: seq<Row>, cutoff: int) {
    forall r :: r in rows ==> r in before && (r.syncedAt == None || r.syncedAt.value >= cutoff)
  }

  lemma PruneSizes(t: Table, maxRows: int, cutoff: int)
    requires Valid(t)
    ensures Valid(Table(Pruned(t.rows, maxRows, cutoff), t.nextRowId))
    ensures Unsynced(Pruned(t.rows, maxRows, cutoff)) == Unsynced(t.rows)
    ensures |Pruned(t.rows, maxRows, cutoff)| <= |WithoutExpired(t.rows, cutoff)| <= |t.rows|
    ensures |Pruned(t.rows, maxRows, cutoff)| <= Larger(maxRows, |Unsynced(t.rows)|)
    ensures AllWithin(Pruned(t.rows, maxRows, cutoff), t.rows, cutoff)
  {
    PruneIsBounded(t, maxRows, cutoff);
  }

  // ---------------------------------------------------------------- draining

  function Ids(rows: seq<Row>): seq<nat> {
    seq(|rows|, i requires 0 <= i < |rows| => rows[i].rowId)
  }

  lemma {:induction false} MarkUnknown(rows: seq<Row>, ids: seq<nat>, now: int)
    requires forall r :: r in rows ==> r.rowId !in ids
    ensures Mark(rows, ids, now) == rows
  {
    if rows != [] {
      MarkUnknown(rows[1..], ids, now);
    }
  }

  /** Marking ids that single out the first `k` unsynced rows leaves exactly the others unsynced. */
  lemma {:induction false} MarkPrefix(rows: seq<Row>, ids: seq<nat>, k: nat, now: int)
    requires k <= |Unsynced(rows)|
    requires forall i :: 0 <= i < |Unsynced(rows)| ==> (Unsynced(rows)[i].rowId in ids <==> i < k)
    ensures Unsynced(Mark(rows, ids, now)) == Unsynced(rows)[k..]
  {
    if rows != [] {
      var r, u := rows[0], Unsynced(rows[1..]);
      if r.syncedAt.Some? {
        assert Unsynced(rows) == u;
        MarkPrefix(rows[1..], ids, k, now);
      } else {
        assert Unsynced(rows) == [r] + u;
        assert Unsynced(rows)[0] == r;
        forall i | 0 <= i < |u| ensures u[i].rowId in ids <==> i + 1 < k {
          assert Unsynced(rows)[i + 1] == u[i];
        }
        MarkPrefix(rows[1..], ids, if k == 0 then 0 else k - 1, now);
      }
    }
  }

  lemma PrefixIds(t: Table, k: nat)
    requires Valid(t) && k <= |Unsynced(t.rows)|
    ensures forall i :: 0 <= i < |Unsynced(t.rows)| ==> (Unsynced(t.rows)[i].rowId in Ids(Unsynced(t.rows)[..k]) <==> i < k)
  {
    var u := Unsynced(t.rows);
    var ids := Ids(u[..k]);
    WhereIsValid(t, false);
    forall i | 0 <= i < |u| ensures u[i].rowId in ids <==> i < k {
      if i < k {
        assert ids[i] == u[i].rowId;
      } else {
        forall j | 0 <= j < k ensures ids[j] != u[i].rowId {
          assert ids[j] == u[j].rowId;
        }
      }
    }
  }

  function AfterCycle(rows: seq<Row>, maxEvents: int, maxBytes: int, now: int): seq<Row> {
    Mark(rows, Ids(NextBatch(rows, maxEvents, maxBytes)), now)
  }

  lemma CycleShortens(t: Table, maxEvents: int, maxBytes: int, now: int)
    requires Valid(t)
    ensures var batch, after := NextBatch(t.rows, maxEvents, maxBytes), AfterCycle(t.rows, maxEvents, maxBytes, now);
      && Valid(Table(after, t.nextRowId))
      && Unsynced(t.rows) == batch + Unsynced(after)
      && (maxEvents != 0 && Unsynced(t.rows) != [] ==> batch != [])
  {
    var batch := NextBatch(t.rows, maxEvents, maxBytes);
    NextBatchIsLongest(t.rows, maxEvents, maxBytes);
    MarkKeepsValid(t, Ids(batch), now);
    assert batch == Unsynced(t.rows)[..|batch|];
    PrefixIds(t, |batch|);
    MarkPrefix(t.rows, Ids(batch), |batch|, now);
  }

  /** The table after `n` acknowledged cycles in a row, the k-th of them confirmed at `clock(k)`. */
  function AfterCycles(rows: seq<Row>, maxEvents: int, maxBytes: int, clock: nat -> int, n: nat): seq<Row> {
    if n == 0 then rows else AfterCycle(AfterCycles(rows, maxEvents, maxBytes, clock, n - 1), maxEvents, maxBytes, clock(n - 1))
  }

  /** All that these cycles sent. */
  function Sent(rows: seq<Row>, maxEvents: int, maxBytes: int, clock: nat -> int, n: nat): seq<Row> {
    if n == 0 then [] else
    Sent(rows, maxEvents, maxBytes, clock, n - 1) + NextBatch(AfterCycles(rows, maxEvents, maxBytes, clock, n - 1), maxEvents, maxBytes)
  }

  lemma OneMoreCycle(u: seq<Row>, sent: seq<Row>, t: Table, maxEvents: int, maxBytes: int, now: int)
    requires Valid(t) && u == sent + Unsynced(t.rows)
    ensures u == (sent + NextBatch(t.rows, maxEvents, maxBytes)) + Unsynced(AfterCycle(t.rows, maxEvents, maxBytes, now))
    ensures Valid(Table(AfterCycle(t.rows, maxEvents, maxBytes, now), t.nextRowId))
    ensures maxEvents != 0 ==>
      |Unsynced(AfterCycle(t.rows, maxEvents, maxBytes, now))| <= Larger(0, |Unsynced(t.rows)| - 1)
  {
    CycleShortens(t, maxEvents, maxBytes, now);
    var batch, after := NextBatch(t.rows, maxEvents, maxBytes), Unsynced(AfterCycle(t.rows, maxEvents, maxBytes, now));
    assert sent + (batch + after) == (sent + batch) + after;
  }

  lemma {:induction false} CyclesMakeProgress(t: Table, maxEvents: int, maxBytes: int, clock: nat -> int, n: nat)
    requires Valid(t)
    ensures Valid(Table(AfterCycles(t.rows, maxEvents, maxBytes, clock, n), t.nextRowId))
    ensures Unsynced(t.rows) ==
      Sent(t.rows, maxEvents, maxBytes, clock, n) + Unsynced(AfterCycles(t.rows, maxEvents, maxBytes, clock, n))
    ensures maxEvents != 0 ==> |Unsynced(AfterCycles(t.rows, maxEvents, maxBytes, clock, n))| <= Larger(0, |Unsynced(t.rows)| - n)
  {
    if n > 0 {
      CyclesMakeProgress(t, maxEvents, maxBytes, clock, n - 1);
      OneMoreCycle(Unsynced(t.rows), Sent(t.rows, maxEvents, maxBytes, clock, n - 1),
                   Table(AfterCycles(t.rows, maxEvents, maxBytes, clock, n - 1), t.nextRowId), maxEvents, maxBytes, clock(n - 1));
    }
  }

  lemma {:induction false} NoBatchNoProgress(t: Table, maxBytes: int, clock: nat -> int, n: nat)
    requires Valid(t)
    ensures AfterCycles(t.rows, 0, maxBytes, clock, n) == t.rows
  {
    if n > 0 {
      NoBatchNoProgress(t, maxBytes, clock, n - 1);
      NextBatchIsLongest(t.rows, 0, maxBytes);
      assert Ids([]) == [];
      MarkUnknown(t.rows, Ids([]), clock(n - 1));
    }
  }

  /** As many acknowledged cycles as there are unsynced rows drain the buffer, having sent exactly those rows in
      append order, unless the batch size is zero. */
  lemma CyclesDrain(t: Table, maxEvents: int, maxBytes: int, clock: nat -> int)
    requires Valid(t)
    ensures var n := |Unsynced(t.rows)|;
      && (Unsynced(AfterCycles(t.rows, maxEvents, maxBytes, clock, n)) == [] <==> maxEvents != 0 || n == 0)
      && (maxEvents != 0 ==> Sent(t.rows, maxEvents, maxBytes, clock, n) == Unsynced(t.rows))
  {
    CyclesMakeProgress(t, maxEvents, maxBytes, clock, |Unsynced(t.rows)|);
    if maxEvents == 0 {
      NoBatchNoProgress(t, maxBytes, clock, |Unsynced(t.rows)|);
    }
  }

  // ---------------------------------------------------------------- the buffer

  lemma {:induction false} WhereConcat(a: seq<Row>, b: seq<Row>, synced: bool)
    ensures Where(a + b, synced) == Where(a, synced) + Where(b, synced)
  {
    if a == [] {
      assert a + b == b;
    } else {
      WhereConcat(a[1..], b, synced);
      assert a + b == [a[0]] + (a[1..] + b);
      var first := if a[0].syncedAt.Some? == synced then [a[0]] else [];
      Associates(first, Where(a[1..], synced), Where(b, synced));
    }
  }

  /** The positions of the unsynced rows among the first `n`. */
  function UnsyncedAt(rows: seq<Row>, n: nat): set<nat>
    requires n <= |rows|
  {
    set i: nat | i < n && rows[i].syncedAt.None?
  }

  lemma OneMoreRow(rows: seq<Row>, n: nat)
    requires n < |rows|
    ensures |UnsyncedAt(rows, n + 1)| == |UnsyncedAt(rows, n)| + if rows[n].syncedAt.None? then 1 else 0
    ensures |Unsynced(rows[..n + 1])| == |Unsynced(rows[..n])| + if rows[n].syncedAt.None? then 1 else 0
  {
    assert UnsyncedAt(rows, n + 1) == UnsyncedAt(rows, n) + if rows[n].syncedAt.None? then {n} else {};
    TakeOneMore(rows, n);
    WhereConcat(rows[..n], [rows[n]], false);
  }

  /** The accumulation loop of a batch. */
  method TakeBatch(candidates: seq<Row>, maxBytes: int) returns (batch: seq<Row>)
    ensures BatchCount(candidates, maxBytes, 0) <= |candidates|
    ensures batch == candidates[..BatchCount(candidates, maxBytes, 0)]
  {
    batch := [];
    var totalBytes := 0;
    var n := 0;
    while n < |candidates|
      invariant n <= |candidates| && batch == candidates[..n] && totalBytes == Bytes(batch)
      invariant BatchCount(candidates, maxBytes, n) == BatchCount(candidates, maxBytes, 0)
    {
      var rowBytes := |candidates[n].event.payload|;
      TakeTake(candidates, n, n + 1);
      if n > 0 && totalBytes + rowBytes > maxBytes {
        break;
      }
      batch := batch + [candidates[n]];
      totalBytes := totalBytes + rowBytes;
      n := n + 1;
    }
  }

  class EdgeEventBuffer {
    var rows: seq<Row>
    var nextRowId: nat

    ghost function Abstract(): Table reads this { Table(rows, nextRowId) }

    constructor ()
      ensures Abstract() == Table([], 1) && Valid(Abstract())
    {
      rows, nextRowId := [], 1;
    }

    method Append(e: Event)
      requires Valid(Abstract())
      modifies this
      ensures Valid(Abstract()) && Abstract() == InsertOrIgnore(old(Abstract()), e, None)
    {
      InsertKeepsValid(Abstract(), e, None);
      if !HasEvent(rows, e.eventId) {
        rows, nextRowId := rows + [Row(nextRowId, e, None)], nextRowId + 1;
      }
    }

    method AppendLocalOnly(e: Event, now: int)
      requires Valid(Abstract())
      modifies this
      ensures Valid(Abstract()) && Abstract() == InsertOrIgnore(old(Abstract()), e, Some(now))
      ensures Unsynced(rows) == old(Unsynced(rows))
    {
      InsertKeepsValid(Abstract(), e, Some(now));
      if !HasEvent(rows, e.eventId) {
        WhereConcat(rows, [Row(nextRowId, e, Some(now))], false);
        rows, nextRowId := rows + [Row(nextRowId, e, Some(now))], nextRowId + 1;
      }
    }

    /** How many rows have no sync time: as many as there are to send. */
    method CountUnsynced() returns (n: nat)
      ensures n == |UnsyncedAt(rows, |rows|)| == |Unsynced(rows)|
    {
      n := 0;
      for i := 0 to |rows|
        invariant n == |UnsyncedAt(rows, i)| == |Unsynced(rows[..i])|
      {
        OneMoreRow(rows, i);
        if rows[i].syncedAt.None? {
          n := n + 1;
        }
      }
      TakeAll(rows);
    }

    method NextUnsyncedBatch(maxEvents: int, maxBytes: int) returns (batch: seq<Row>)
      ensures batch == NextBatch(rows, maxEvents, maxBytes)
      ensures IsLongestBatch(batch, rows, maxEvents, maxBytes)
    {
      NextBatchIsLongest(rows, maxEvents, maxBytes);
      var candidates := Limit(Unsynced(rows), maxEvents);
      batch := TakeBatch(candidates, maxBytes);
    }

    method MarkSynced(rowIds: seq<nat>, now: int)
      requires Valid(Abstract())
      modifies this
      ensures Valid(Abstract()) && Abstract() == old(Table(Mark(rows, rowIds, now), nextRowId))
    {
      MarkKeepsValid(Abstract(), rowIds, now);
      if rowIds == [] {
        MarkUnknown(rows, rowIds, now);
        return;
      }
      rows := Mark(rows, rowIds, now);
    }

    /** Returns how many rows it deleted. */
    method Prune(maxRows: int, retentionHours: int, now: int) returns (deleted: int)
      requires Valid(Abstract())
      modifies this
      ensures Valid(Abstract()) && nextRowId == old(nextRowId)
      ensures rows == old(Pruned(rows, maxRows, now - retentionHours * SECONDS_PER_HOUR))
      ensures deleted == old(|rows|) - |rows| >= 0
      ensures Unsynced(rows) == old(Unsynced(rows)) && |rows| <= Larger(maxRows, |Unsynced(rows)|)
      ensures AllWithin(rows, old(rows), now - retentionHours * 3600)
    {
      var cutoff := now - retentionHours * SECONDS_PER_HOUR;
      PruneSizes(Abstract(), maxRows, cutoff);
      var before := |rows|;
      rows := WithoutExpired(rows, cutoff);
      deleted := before - |rows|;
      if |rows| > maxRows {
        var overflow := |rows| - maxRows;
        before := |rows|;
        rows := WithoutFirstSynced(rows, overflow);
        deleted := deleted + (before - |rows|);
      }
    }
  }
}
