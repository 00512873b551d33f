/** Outbox publishers, any number of them: batches claimed with row locks, sent to the log, and committed. */
module OutboxPublisher {
  import opened Sequences
  import opened OutboxRows

  /** An open transaction: the rows it has locked, by position in the outbox, and how many of them it has sent
      and marked. Its marks are not visible to anyone else. */
  datatype Batch = Batch(claimed: seq<nat>, sent: nat)

  /** `origins` and `undone` are history: the row behind each log message, and the sends of batches that were
      rolled back. */
  datatype World = World(outbox: seq<OutboxRow>, published: set<nat>, open: map<nat, Batch>, log: seq<Message>,
                         origins: seq<nat>, undone: multiset<nat>)

  const Empty: World := World([], {}, map[], [], [], multiset{})

  /** A send may reach the log or not, and be confirmed or not; a confirmed send has reached the log. */
  datatype Step =
    | Insert(row: OutboxRow)
    | Claim(publisher: nat, limit: nat)
    | Send(publisher: nat, delivered: bool, confirmed: bool)
    | Commit(publisher: nat, succeeds: bool)
    | Abort(publisher: nat)

  // ---------------------------------------------------------------- claims

  /** The first `limit` rows from position `from` on that are not taken. */
  function FirstFree(size: nat, taken: set<nat>, limit: nat, from: nat): seq<nat>
    decreases size - from
  {
    if from >= size || limit == 0 then []
    else if from in taken then FirstFree(size, taken, limit, from + 1)
    else [from] + FirstFree(size, taken, limit - 1, from + 1)
  }

  predicate LockedBy(open: map<nat, Batch>, i: nat) { exists p :: p in open && i in open[p].claimed }

  function Locked(w: World): set<nat> { set i | 0 <= i < |w.outbox| && LockedBy(w.open, i) }

  /** FOR UPDATE SKIP LOCKED over the unpublished rows. */
  function Claimed(w: World, limit: nat): seq<nat> { FirstFree(|w.outbox|, w.published + Locked(w), limit, 0) }

  lemma {:induction false} FirstFreeAre(size: nat, taken: set<nat>, limit: nat, from: nat)
    ensures var c := FirstFree(size, taken, limit, from);
      && |c| <= limit
      && (forall k :: 0 <= k < |c| ==> from <= c[k] < size && c[k] !in taken)
      && (forall k, l :: 0 <= k < l < |c| ==> c[k] < c[l])
    decreases size - from
  {
    if from >= size || limit == 0 {
    } else if from in taken {
      FirstFreeAre(size, taken, limit, from + 1);
    } else {
      FirstFreeAre(size, taken, limit - 1, from + 1);
    }
  }

  /** None is left out: a claim short of the limit has them all, and one that is not has all before its last. */
  lemma {:induction false} FirstFreeIsFull(size: nat, taken: set<nat>, limit: nat, from: nat)
    ensures var c := FirstFree(size, taken, limit, from);
      && (|c| < limit ==> forall i: nat :: from <= i < size && i !in taken ==> i in c)
      && (forall i: nat :: from <= i < size && i !in taken && c != [] && i < c[|c| - 1] ==> i in c)
    decreases size - from
  {
    if from < size && limit != 0 {
      var rest := FirstFree(size, taken, if from in taken then limit else limit - 1, from + 1);
      FirstFreeIsFull(size, taken, if from in taken then limit else limit - 1, from + 1);
      FirstFreeAre(size, taken, if from in taken then limit else limit - 1, from + 1);
      if from !in taken {
        InConcat([from], rest);
        assert rest == [] ==> ([from] + rest)[|rest|] == from;
      }
    }
  }

  /** Neither published nor locked. */
  predicate Free(w: World, i: nat) { i < |w.outbox| && i !in w.published && !LockedBy(w.open, i) }

  function FreeRows(w: World): set<nat> { set i: nat | i < |w.outbox| && Free(w, i) }

  lemma {:induction false} DistinctCount(s: seq<nat>, xs: set<nat>)
    requires forall k, l :: 0 <= k < l < |s| ==> s[k] < s[l]
    requires forall x :: x in xs <==> x in s
    ensures |xs| == |s|
  {
    if s == [] {
      assert xs == {};
    } else {
      var init, last := s[..|s| - 1], s[|s| - 1];
      assert last in xs && last !in init;
      assert forall x :: x in s <==> x in init || x == last;
      DistinctCount(init, xs - {last});
    }
  }

  function Smaller(a: nat, b: nat): nat { if a <= b then a else b }

  lemma ProperSubset(a: set<nat>, b: set<nat>)
    requires a <= b
    ensures |a| <= |b|
  {
    assert b == a + (b - a);
  }

  /** A claim is full: the oldest free rows, as many as the limit allows, and all of them if it allows more. */
  lemma ClaimIsFull(w: World, limit: nat)
    ensures var c := Claimed(w, limit);
      && |c| == Smaller(limit, |FreeRows(w)|)
      && (forall i :: i in c ==> Free(w, i))
      && (forall i, k :: Free(w, i) && 0 <= k < |c| && i < c[k] ==> i in c)
      && (|c| < limit ==> forall i :: Free(w, i) ==> i in c)
  {
    var c, free := Claimed(w, limit), FreeRows(w);
    FirstFreeAre(|w.outbox|, w.published + Locked(w), limit, 0);
    FirstFreeIsFull(|w.outbox|, w.published + Locked(w), limit, 0);
    forall i: nat | i < |w.outbox| ensures Free(w, i) <==> i !in w.published + Locked(w) {}
    var claimed := set i | i in c;
    DistinctCount(c, claimed);
    assert claimed <= free;
    ProperSubset(claimed, free);
    if |c| < limit {
      assert claimed == free;
    }
  }

  // ---------------------------------------------------------------- steps; one that is not enabled changes nothing

  function SentRows(b: Batch): set<nat> { set k | 0 <= k < b.sent && k < |b.claimed| :: b.claimed[k] }

  function Rollback(w: World, p: nat): World
    requires p in w.open
  {
    w.(open := w.open - {p}, undone := w.undone + multiset(SentRows(w.open[p])))
  }

  predicate MaySend(w: World, p: nat) {
    p in w.open && w.open[p].sent < |w.open[p].claimed| && w.open[p].claimed[w.open[p].sent] < |w.outbox|
  }

  /** The row a batch sends next. */
  function NextRow(w: World, p: nat): nat
    requires MaySend(w, p)
  {
    w.open[p].claimed[w.open[p].sent]
  }

  function Deliver(w: World, i: nat): World
    requires i < |w.outbox| && TopicForEventType(w.outbox[i].eventType).Some?
  {
    w.(log := w.log + [MessageFor(w.outbox[i])], origins := w.origins + [i])
  }

  function DoSend(w: World, p: nat, delivered: bool, confirmed: bool): World
    requires MaySend(w, p)
  {
    var i, b := NextRow(w, p), w.open[p];
    if TopicForEventType(w.outbox[i].eventType).None? then Rollback(w, p)
    else if confirmed then Deliver(w, i).(open := w.open[p := b.(sent := b.sent + 1)])
    else if delivered then Rollback(Deliver(w, i).(undone := w.undone + multiset{i}), p)
    else Rollback(w, p)
  }

  function DoCommit(w: World, p: nat, succeeds: bool): World
    requires p in w.open
  {
    if !succeeds then Rollback(w, p)
    else w.(published := w.published + SentRows(w.open[p]), open := w.open - {p})
  }

  predicate FreshEvent(outbox: seq<OutboxRow>, row: OutboxRow) {
    forall i :: 0 <= i < |outbox| ==> outbox[i].eventId != row.eventId
  }

  function Next(w: World, s: Step): World {
    match s
    case Insert(row) => if FreshEvent(w.outbox, row) then w.(outbox := w.outbox + [row]) else w
    case Claim(p, limit) => if p in w.open then w else w.(open := w.open[p := Batch(Claimed(w, limit), 0)])
    case Send(p, delivered, confirmed) => if MaySend(w, p) then DoSend(w, p, delivered, confirmed) else w
    case Commit(p, succeeds) => if p in w.open && w.open[p].sent == |w.open[p].claimed| then DoCommit(w, p, succeeds) else w
    case Abort(p) => if p in w.open then Rollback(w, p) else w
  }

  function Run(steps: seq<Step>): World {
    if steps == [] then Empty else Next(Run(steps[..|steps| - 1]), steps[|steps| - 1])
  }

  // ---------------------------------------------------------------- any number of publishers

  ghost predicate ValidBatch(b: Batch, size: nat, published: set<nat>) {
    && b.sent <= |b.claimed|
    && (forall k :: 0 <= k < |b.claimed| ==> b.claimed[k] < size && b.claimed[k] !in published)
    && (forall k, l :: 0 <= k < l < |b.claimed| ==> b.claimed[k] < b.claimed[l])
  }

  ghost predicate Apart(a: Batch, b: Batch) {
    forall k, l :: 0 <= k < |a.claimed| && 0 <= l < |b.claimed| ==> a.claimed[k] != b.claimed[l]
  }

  ghost predicate Claims(w: World) {
    && (forall p :: p in w.open ==> ValidBatch(w.open[p], |w.outbox|, w.published))
    && (forall p, q :: p in w.open && q in w.open && p != q ==> Apart(w.open[p], w.open[q]))
  }

  ghost predicate IsCopy(w: World, m: Message, i: nat) {
    i < |w.outbox| && TopicForEventType(w.outbox[i].eventType).Some? && m == MessageFor(w.outbox[i])
  }

  ghost predicate Faithful(w: World) {
    && |w.log| == |w.origins|
    && (forall i, j :: 0 <= i < j < |w.outbox| ==> w.outbox[i].eventId != w.outbox[j].eventId)
    && forall k :: 0 <= k < |w.log| ==> IsCopy(w, w.log[k], w.origins[k])
  }

  ghost predicate SentInOpen(open: map<nat, Batch>, i: nat) { exists p :: p in open && i in SentRows(open[p]) }

  function OneIf(b: bool): nat { if b then 1 else 0 }

  /** Copies of a row in the log: those of rolled-back batches, one if it is published, one if an open batch has
      sent it. */
  ghost predicate Counted(w: World) {
    && (forall i :: multiset(w.origins)[i] == w.undone[i] + OneIf(i in w.published) + OneIf(SentInOpen(w.open, i)))
    && (forall i :: i in w.published ==> i < |w.outbox|)
  }

  ghost predicate Inv(w: World) { Claims(w) && Faithful(w) && Counted(w) }

  lemma OnlyOneSends(w: World, p: nat, q: nat, i: nat)
    requires Claims(w) && p in w.open && q in w.open && p != q && i in w.open[p].claimed
    ensures i !in w.open[q].claimed
  {
    assert Apart(w.open[p], w.open[q]);
  }

  lemma SentWithout(w: World, p: nat, i: nat)
    requires Claims(w) && p in w.open
    ensures SentInOpen(w.open - {p}, i) <==> SentInOpen(w.open, i) && i !in SentRows(w.open[p])
  {
    var open' := w.open - {p};
    if SentInOpen(open', i) {
      var q :| q in open' && i in SentRows(open'[q]);
      assert q in w.open && i in SentRows(w.open[q]);
      OnlyOneSends(w, q, p, i);
    }
    if SentInOpen(w.open, i) && i !in SentRows(w.open[p]) {
      var q :| q in w.open && i in SentRows(w.open[q]);
      assert open'[q] == w.open[q];
    }
  }

  /** What a batch has sent is unpublished. */
  lemma SentIsUnpublished(w: World, p: nat, i: nat)
    requires Claims(w) && p in w.open && i in SentRows(w.open[p])
    ensures i !in w.published && i < |w.outbox|
  {
    assert ValidBatch(w.open[p], |w.outbox|, w.published);
  }

  lemma RollbackKeepsInv(w: World, p: nat)
    requires Inv(w) && p in w.open
    ensures Inv(Rollback(w, p))
  {
    var w' := Rollback(w, p);
    forall i ensures multiset(w'.origins)[i] == w'.undone[i] + OneIf(i in w'.published) + OneIf(SentInOpen(w'.open, i)) {
      SentWithout(w, p, i);
      if i in SentRows(w.open[p]) {
        assert SentInOpen(w.open, i);
      }
    }
  }

  lemma CommitKeepsInv(w: World, p: nat)
    requires Inv(w) && p in w.open && w.open[p].sent == |w.open[p].claimed|
    ensures Inv(DoCommit(w, p, true))
  {
    var w' := DoCommit(w, p, true);
    forall i ensures multiset(w'.origins)[i] == w'.undone[i] + OneIf(i in w'.published) + OneIf(SentInOpen(w'.open, i)) {
      SentWithout(w, p, i);
      if i in SentRows(w.open[p]) {
        assert SentInOpen(w.open, i);
        SentIsUnpublished(w, p, i);
      }
    }
    forall i | i in w'.published ensures i < |w'.outbox| {
      if i in SentRows(w.open[p]) {
        SentIsUnpublished(w, p, i);
      }
    }
    forall q | q in w'.open ensures ValidBatch(w'.open[q], |w'.outbox|, w'.published) {
      assert Apart(w.open[p], w.open[q]) && ValidBatch(w.open[q], |w.outbox|, w.published);
    }
  }

  lemma DeliverKeepsFaithful(w: World, i: nat)
    requires Faithful(w) && i < |w.outbox| && TopicForEventType(w.outbox[i].eventType).Some?
    ensures Faithful(Deliver(w, i))
    ensures forall k :: multiset(Deliver(w, i).origins)[k] == multiset(w.origins)[k] + OneIf(k == i)
  {}

  lemma SentAdvances(w: World, p: nat, k: nat)
    requires Claims(w) && MaySend(w, p)
    ensures var b := w.open[p];
      var open' := w.open[p := b.(sent := b.sent + 1)];
      && (SentInOpen(open', k) <==> SentInOpen(w.open, k) || k == NextRow(w, p))
      && !SentInOpen(w.open, NextRow(w, p))
  {
    var b, i := w.open[p], NextRow(w, p);
    var b' := b.(sent := b.sent + 1);
    var open' := w.open[p := b'];
    assert SentRows(b') == SentRows(b) + {i} && i !in SentRows(b) by {
      assert ValidBatch(b, |w.outbox|, w.published);
      assert b'.claimed[b.sent] == i;
    }
    assert open'[p] == b';
    if SentInOpen(w.open, k) {
      var q :| q in w.open && k in SentRows(w.open[q]);
      assert k in SentRows(open'[q]);
    }
    if SentInOpen(w.open, i) {
      var q :| q in w.open && i in SentRows(w.open[q]);
      if q != p {
        OnlyOneSends(w, p, q, i);
      }
    }
  }

  lemma AdvanceKeepsClaims(w: World, p: nat)
    requires Claims(w) && MaySend(w, p)
    ensures Claims(w.(open := w.open[p := w.open[p].(sent := w.open[p].sent + 1)]))
  {
    var open' := w.open[p := w.open[p].(sent := w.open[p].sent + 1)];
    forall q, r | q in open' && r in open' && q != r ensures Apart(open'[q], open'[r]) {
      assert Apart(w.open[q], w.open[r]);
    }
    forall q | q in open' ensures ValidBatch(open'[q], |w.outbox|, w.published) {
      assert ValidBatch(w.open[q], |w.outbox|, w.published);
    }
  }

  lemma ConfirmedSendCounts(w: World, p: nat, k: nat)
    requires Inv(w) && MaySend(w, p) && TopicForEventType(w.outbox[NextRow(w, p)].eventType).Some?
    ensures var w' := DoSend(w, p, true, true);
      multiset(w'.origins)[k] == w'.undone[k] + OneIf(k in w'.published) + OneIf(SentInOpen(w'.open, k))
  {
    DeliverKeepsFaithful(w, NextRow(w, p));
    SentAdvances(w, p, k);
  }

  lemma ConfirmedSendIsCounted(w: World, p: nat)
    requires Inv(w) && MaySend(w, p) && TopicForEventType(w.outbox[NextRow(w, p)].eventType).Some?
    ensures Counted(DoSend(w, p, true, true))
  {
    var w' := DoSend(w, p, true, true);
    forall k ensures multiset(w'.origins)[k] == w'.undone[k] + OneIf(k in w'.published) + OneIf(SentInOpen(w'.open, k)) {
      ConfirmedSendCounts(w, p, k);
    }
  }

  lemma ConfirmedSendKeepsInv(w: World, p: nat)
    requires Inv(w) && MaySend(w, p) && TopicForEventType(w.outbox[NextRow(w, p)].eventType).Some?
    ensures Inv(DoSend(w, p, true, true))
  {
    ConfirmedSendIsCounted(w, p);
    DeliverKeepsFaithful(w, NextRow(w, p));
    AdvanceKeepsClaims(w, p);
  }

  lemma UnconfirmedSendKeepsInv(w: World, p: nat)
    requires Inv(w) && MaySend(w, p) && TopicForEventType(w.outbox[NextRow(w, p)].eventType).Some?
    ensures Inv(DoSend(w, p, true, false))
  {
    var i := NextRow(w, p);
    DeliverKeepsFaithful(w, i);
    RollbackKeepsInv(Deliver(w, i).(undone := w.undone + multiset{i}), p);
  }

  lemma SendKeepsInv(w: World, p: nat, delivered: bool, confirmed: bool)
    requires Inv(w) && MaySend(w, p)
    ensures Inv(DoSend(w, p, delivered, confirmed))
  {
    if TopicForEventType(w.outbox[NextRow(w, p)].eventType).None? || !(delivered || confirmed) {
      RollbackKeepsInv(w, p);
    } else if confirmed {
      ConfirmedSendKeepsInv(w, p);
    } else {
      UnconfirmedSendKeepsInv(w, p);
    }
  }

  lemma ClaimIsFree(w: World, limit: nat, q: nat)
    requires q in w.open && Claims(w)
    ensures Apart(Batch(Claimed(w, limit), 0), w.open[q]) && Apart(w.open[q], Batch(Claimed(w, limit), 0))
  {
    var c := Claimed(w, limit);
    FirstFreeAre(|w.outbox|, w.published + Locked(w), limit, 0);
    forall k, l | 0 <= k < |c| && 0 <= l < |w.open[q].claimed| ensures c[k] != w.open[q].claimed[l] {
      if c[k] == w.open[q].claimed[l] {
        assert LockedBy(w.open, c[k]);
      }
    }
  }

  lemma ClaimSendsNothing(w: World, p: nat, limit: nat, i: nat)
    requires p !in w.open
    ensures SentInOpen(Next(w, Claim(p, limit)).open, i) <==> SentInOpen(w.open, i)
  {
    var w' := Next(w, Claim(p, limit));
    assert SentRows(Batch(Claimed(w, limit), 0)) == {};
    if SentInOpen(w.open, i) {
      var q :| q in w.open && i in SentRows(w.open[q]);
      assert w'.open[q] == w.open[q];
    }
  }

  lemma ClaimKeepsClaims(w: World, p: nat, limit: nat)
    requires Claims(w) && p !in w.open
    ensures Claims(Next(w, Claim(p, limit)))
  {
    var w' := Next(w, Claim(p, limit));
    FirstFreeAre(|w.outbox|, w.published + Locked(w), limit, 0);
    forall q, r | q in w'.open && r in w'.open && q != r ensures Apart(w'.open[q], w'.open[r]) {
      if q == p {
        ClaimIsFree(w, limit, r);
      } else if r == p {
        ClaimIsFree(w, limit, q);
      }
    }
  }

  lemma ClaimKeepsInv(w: World, p: nat, limit: nat)
    requires Inv(w) && p !in w.open
    ensures Inv(Next(w, Claim(p, limit)))
  {
    ClaimKeepsClaims(w, p, limit);
    forall i ensures SentInOpen(Next(w, Claim(p, limit)).open, i) <==> SentInOpen(w.open, i) {
      ClaimSendsNothing(w, p, limit, i);
    }
  }

  lemma InsertKeepsInv(w: World, row: OutboxRow)
    requires Inv(w)
    ensures Inv(Next(w, Insert(row)))
  {
    var w' := Next(w, Insert(row));
    forall p | p in w'.open ensures ValidBatch(w'.open[p], |w'.outbox|, w'.published) {
      assert ValidBatch(w.open[p], |w.outbox|, w.published);
    }
    forall k | 0 <= k < |w'.log| ensures IsCopy(w', w'.log[k], w'.origins[k]) {
      assert IsCopy(w, w.log[k], w.origins[k]);
    }
  }

  lemma NextKeepsInv(w: World, s: Step)
    requires Inv(w)
    ensures Inv(Next(w, s))
  {
    match s
    case Insert(row) => InsertKeepsInv(w, row);
    case Claim(p, limit) => if p !in w.open { ClaimKeepsInv(w, p, limit); }
    case Send(p, delivered, confirmed) => if MaySend(w, p) { SendKeepsInv(w, p, delivered, confirmed); }
    case Commit(p, succeeds) =>
      if p in w.open && w.open[p].sent == |w.open[p].claimed| {
        if succeeds { CommitKeepsInv(w, p); } else { RollbackKeepsInv(w, p); }
      }
    case Abort(p) => if p in w.open { RollbackKeepsInv(w, p); }
  }

  /** A batch that is aborted, or whose commit fails, gives its rows back: none is published, and each is free. */
  lemma RolledBackRowsAreFree(w: World, p: nat, s: Step)
    requires Inv(w) && p in w.open
    requires s == Abort(p) || (s == Commit(p, false) && w.open[p].sent == |w.open[p].claimed|)
    ensures var w' := Next(w, s);
      && w'.outbox == w.outbox && w'.published == w.published && w'.log == w.log
      && w'.open.Keys == w.open.Keys - {p}
      && forall i :: i in w.open[p].claimed ==> Free(w', i)
  {
    var w' := Next(w, s);
    forall i | i in w.open[p].claimed ensures Free(w', i) {
      var k :| 0 <= k < |w.open[p].claimed| && w.open[p].claimed[k] == i;
      forall q | q in w'.open ensures i !in w'.open[q].claimed {
        OnlyOneSends(w, p, q, i);
      }
    }
  }

  lemma {:induction false} EveryRunKeepsInv(steps: seq<Step>)
    ensures Inv(Run(steps))
  {
    if steps != [] {
      EveryRunKeepsInv(steps[..|steps| - 1]);
      NextKeepsInv(Run(steps[..|steps| - 1]), steps[|steps| - 1]);
    }
  }

  /** Main result for any number of publishers. No row is in two open batches, and none of them is published; a
      published row is in the log; a row's copies are those of the rolled-back batches that sent it, plus one if
      it is published, plus one if an open batch has sent it; and all copies are the same message. */
  lemma NoRowIsClaimedTwice(steps: seq<Step>)
    ensures var w := Run(steps);
      && (forall p, q, i :: p in w.open && q in w.open && p != q && i in w.open[p].claimed ==> i !in w.open[q].claimed)
      && (forall p, i :: p in w.open && i in w.open[p].claimed ==> i !in w.published)
      && (forall i :: i in w.published ==> i in w.origins)
      && (forall i :: multiset(w.origins)[i] == w.undone[i] + OneIf(i in w.published) + OneIf(SentInOpen(w.open, i)))
      && |w.log| == |w.origins|
      && (forall k, l :: 0 <= k < |w.log| && 0 <= l < |w.log| ==>
            (w.origins[k] == w.origins[l] <==> w.log[k] == w.log[l]) &&
            (w.origins[k] == w.origins[l] <==> w.log[k].envelope.eventId == w.log[l].envelope.eventId))
  {
    var w := Run(steps);
    EveryRunKeepsInv(steps);
    forall p, q, i | p in w.open && q in w.open && p != q && i in w.open[p].claimed ensures i !in w.open[q].claimed {
      OnlyOneSends(w, p, q, i);
    }
    forall p, i | p in w.open && i in w.open[p].claimed ensures i !in w.published {
      assert ValidBatch(w.open[p], |w.outbox|, w.published);
    }
    forall i | i in w.published ensures i in w.origins {
      assert multiset(w.origins)[i] > 0;
    }
    forall k, l | 0 <= k < |w.log| && 0 <= l < |w.log|
      ensures w.origins[k] == w.origins[l] <==> w.log[k] == w.log[l]
      ensures w.origins[k] == w.origins[l] <==> w.log[k].envelope.eventId == w.log[l].envelope.eventId
    {
      assert IsCopy(w, w.log[k], w.origins[k]) && IsCopy(w, w.log[l], w.origins[l]);
    }
  }
}
