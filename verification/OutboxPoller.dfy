/** One poll cycle of a publisher, as the loop it is, against the steps of `OutboxPublisher`. */
module OutboxPoller {
  import opened Sequences
  import opened OutboxRows
  import opened OutboxPublisher

  /** What becomes of a send: confirmed, or an exception with the message in the log or not. */
  datatype SendOutcome = Confirmed | Unconfirmed | NotSent

  /** The outcome of a batch's sends in turn; those past the end of the list are confirmed. */
  function OutcomeAt(outcomes: seq<SendOutcome>, n: nat): SendOutcome {
    if n < |outcomes| then outcomes[n] else Confirmed
  }

  function SendStep(p: nat, outcome: SendOutcome): Step { Send(p, !outcome.NotSent?, outcome.Confirmed?) }

  function RunFrom(w: World, steps: seq<Step>): World {
    if steps == [] then w else Next(RunFrom(w, steps[..|steps| - 1]), steps[|steps| - 1])
  }

  function SendSteps(p: nat, outcomes: seq<SendOutcome>, n: nat): seq<Step> {
    if n == 0 then [] else SendSteps(p, outcomes, n - 1) + [SendStep(p, OutcomeAt(outcomes, n - 1))]
  }

  /** The first `n` sends of a batch; once one has failed the batch is gone and the rest change nothing. */
  function SendAll(w: World, p: nat, outcomes: seq<SendOutcome>, n: nat): World {
    RunFrom(w, SendSteps(p, outcomes, n))
  }

  /** A whole cycle as a run of steps. */
  function Polled(w: World, p: nat, batchSize: nat, outcomes: seq<SendOutcome>, commits: bool): World {
    Next(SendAll(Next(w, Claim(p, batchSize)), p, outcomes, |Claimed(w, batchSize)|), Commit(p, commits))
  }

  lemma {:induction false} SendAllStaysGone(w: World, p: nat, outcomes: seq<SendOutcome>, k: nat, n: nat)
    requires k <= n && p !in SendAll(w, p, outcomes, k).open
    ensures SendAll(w, p, outcomes, n) == SendAll(w, p, outcomes, k)
    decreases n
  {
    if k < n {
      SendAllStaysGone(w, p, outcomes, k, n - 1);
    }
  }

  lemma PolledIs(w: World, p: nat, batchSize: nat, outcomes: seq<SendOutcome>, commits: bool, sent: World)
    requires sent == SendAll(Next(w, Claim(p, batchSize)), p, outcomes, |Claimed(w, batchSize)|)
    ensures Polled(w, p, batchSize, outcomes, commits) == Next(sent, Commit(p, commits))
    ensures p !in sent.open ==> Polled(w, p, batchSize, outcomes, commits) == sent
  {}

  lemma SendKeepsTable(w: World, s: Step)
    requires s.Send?
    ensures Next(w, s).outbox == w.outbox && Next(w, s).published == w.published
  {}

  lemma CommittedCount(b: Batch, published: set<nat>)
    requires b.sent == |b.claimed|
    requires forall k :: 0 <= k < |b.claimed| ==> b.claimed[k] !in published
    requires forall k, l :: 0 <= k < l < |b.claimed| ==> b.claimed[k] < b.claimed[l]
    ensures |published + SentRows(b)| == |published| + |b.claimed|
  {
    DistinctCount(b.claimed, SentRows(b));
    assert published !! SentRows(b);
  }

  lemma {:induction false} RunFromKeepsInv(w: World, steps: seq<Step>)
    requires Inv(w)
    ensures Inv(RunFrom(w, steps))
  {
    if steps != [] {
      RunFromKeepsInv(w, steps[..|steps| - 1]);
      NextKeepsInv(RunFrom(w, steps[..|steps| - 1]), steps[|steps| - 1]);
    }
  }

  /** What `PollOnce` makes of a consistent table is consistent. */
  lemma PolledKeepsInv(w: World, p: nat, batchSize: nat, outcomes: seq<SendOutcome>, commits: bool)
    requires Inv(w)
    ensures Inv(Polled(w, p, batchSize, outcomes, commits))
  {
    NextKeepsInv(w, Claim(p, batchSize));
    RunFromKeepsInv(Next(w, Claim(p, batchSize)), SendSteps(p, outcomes, |Claimed(w, batchSize)|));
    NextKeepsInv(SendAll(Next(w, Claim(p, batchSize)), p, outcomes, |Claimed(w, batchSize)|), Commit(p, commits));
  }

  ghost predicate Sending(w: World, w': World, p: nat, claimed: seq<nat>, n: nat)
    requires n <= |claimed|
  {
    && w'.outbox == w.outbox && w'.published == w.published
    && p in w'.open && w'.open - {p} == w.open - {p} && w'.open[p] == Batch(claimed, n)
    && w'.origins == w.origins + claimed[..n]
  }

  lemma SendingAdvances(w: World, w': World, p: nat, claimed: seq<nat>, n: nat)
    requires n < |claimed| && Sending(w, w', p, claimed, n) && claimed[n] < |w.outbox|
    requires TopicForEventType(w.outbox[claimed[n]].eventType).Some?
    ensures Sending(w, Next(w', SendStep(p, Confirmed)), p, claimed, n + 1)
  {
    TakeOneMore(claimed, n);
    Associates(w.origins, claimed[..n], [claimed[n]]);
    assert w'.open[p := Batch(claimed, n + 1)] - {p} == w'.open - {p};
  }

  lemma {:induction false} CleanSends(w: World, p: nat, outcomes: seq<SendOutcome>, n: nat)
    requires p in w.open && w.open[p].sent == 0 && n <= |w.open[p].claimed|
    requires forall k :: 0 <= k < |w.open[p].claimed| ==>
      w.open[p].claimed[k] < |w.outbox| && TopicForEventType(w.outbox[w.open[p].claimed[k]].eventType).Some?
    requires forall k :: 0 <= k < |outcomes| ==> outcomes[k] == Confirmed
    ensures Sending(w, SendAll(w, p, outcomes, n), p, w.open[p].claimed, n)
  {
    if n > 0 {
      CleanSends(w, p, outcomes, n - 1);
      SendingAdvances(w, SendAll(w, p, outcomes, n - 1), p, w.open[p].claimed, n - 1);
    } else {
      assert w.origins + w.open[p].claimed[..0] == w.origins;
    }
  }

  /** Every row has a topic, every send is confirmed. */
  ghost predicate Undisturbed(w: World, outcomes: seq<SendOutcome>) {
    Sendable(w.outbox) && forall k :: 0 <= k < |outcomes| ==> outcomes[k] == Confirmed
  }

  /** A cycle in which every row has a topic, every send is confirmed and the commit succeeds publishes exactly
      the claimed rows, in outbox order, and releases its locks. */
  lemma CleanPollPublishes(w: World, p: nat, batchSize: nat, outcomes: seq<SendOutcome>)
    requires p !in w.open && Undisturbed(w, outcomes)
    ensures var c, w' := Claimed(w, batchSize), Polled(w, p, batchSize, outcomes, true);
      && w'.origins == w.origins + c
      && w'.published == w.published + SentRows(Batch(c, |c|))
      && w'.open == w.open && w'.outbox == w.outbox
  {
    var c, w1 := Claimed(w, batchSize), Next(w, Claim(p, batchSize));
    FirstFreeAre(|w.outbox|, w.published + Locked(w), batchSize, 0);
    CleanSends(w1, p, outcomes, |c|);
    TakeAll(c);
    assert w1.open - {p} == w.open;
  }

  /** An undisturbed cycle publishes as many rows as the batch size allows, of those that are free. */
  lemma CleanPollIsFull(w: World, p: nat, batchSize: nat, outcomes: seq<SendOutcome>)
    requires p !in w.open && Undisturbed(w, outcomes)
    ensures var w' := Polled(w, p, batchSize, outcomes, true);
      && w.published <= w'.published
      && |w'.published| - |w.published| == Smaller(batchSize, |FreeRows(w)|)
      && (forall i :: i in w'.published - w.published ==> Free(w, i))
  {
    var c := Claimed(w, batchSize);
    CleanPollPublishes(w, p, batchSize, outcomes);
    ClaimIsFull(w, batchSize);
    FirstFreeAre(|w.outbox|, w.published + Locked(w), batchSize, 0);
    CommittedCount(Batch(c, |c|), w.published);
  }

  class Publisher {
    var outbox: seq<OutboxRow>
    var published: set<nat>
    var open: map<nat, Batch>
    var log: seq<Message>
    ghost var origins: seq<nat>
    ghost var undone: multiset<nat>

    ghost function Abstract(): World reads this { World(outbox, published, open, log, origins, undone) }

    constructor ()
      ensures Abstract() == Empty
    {
      outbox, published, open, log, origins, undone := [], {}, map[], [], [], multiset{};
    }

    /** The transaction ends without effect on the table. */
    method RollbackBatch(p: nat)
      requires p in open
      modifies this`open, this`undone
      ensures Abstract() == Rollback(old(Abstract()), p)
    {
      undone := undone + multiset(SentRows(open[p]));
      open := open - {p};
    }

    /** Sends the next row and marks it, or leaves the marking out and reports the exception. */
    method SendAndMark(p: nat, outcome: SendOutcome) returns (ok: bool)
      requires MaySend(Abstract(), p)
      modifies this
      ensures Abstract() == Next(old(Abstract()), SendStep(p, outcome))
      ensures ok == (outcome.Confirmed? && old(TopicForEventType(outbox[NextRow(Abstract(), p)].eventType)).Some?)
      ensures ok ==> p in open && open[p] == old(open)[p].(sent := old(open)[p].sent + 1)
      ensures !ok ==> p !in open
    {
      var i := open[p].claimed[open[p].sent];
      var topic := TopicForEventType(outbox[i].eventType);
      if topic.None? {
        RollbackBatch(p);
        return false;
      }
      if !outcome.NotSent? {
        log := log + [MessageFor(outbox[i])];
        origins := origins + [i];
      }
      if !outcome.Confirmed? {
        undone := if outcome.Unconfirmed? then undone + multiset{i} else undone;
        RollbackBatch(p);
        return false;
      }
      open := open[p := open[p].(sent := open[p].sent + 1)];
      ok := true;
    }

    method ClaimBatch(p: nat, batchSize: nat) returns (rows: seq<nat>)
      requires p !in open
      modifies this`open
      ensures Abstract() == Next(old(Abstract()), Claim(p, batchSize))
      ensures rows == old(Claimed(Abstract(), batchSize)) && p in open && open[p] == Batch(rows, 0)
    {
      rows := FirstFree(|outbox|, published + (set i | 0 <= i < |outbox| && LockedBy(open, i)), batchSize, 0);
      open := open[p := Batch(rows, 0)];
    }

    /** The loop over a claimed batch; the first failed send ends it, and the batch with it. */
    method SendRows(p: nat, rows: seq<nat>, outcomes: seq<SendOutcome>) returns (ok: bool)
      requires p in open && open[p] == Batch(rows, 0)
      requires forall k :: 0 <= k < |rows| ==> rows[k] < |outbox|
      modifies this
      ensures Abstract() == SendAll(old(Abstract()), p, outcomes, |rows|)
      ensures outbox == old(outbox) && published == old(published)
      ensures if ok then p in open && open[p] == Batch(rows, |rows|) else p !in open
    {
      ghost var w := Abstract();
      var n := 0;
      while n < |rows|
        invariant n <= |rows| && Abstract() == SendAll(w, p, outcomes, n)
        invariant p in open && open[p] == Batch(rows, n)
        invariant outbox == w.outbox && published == w.published
      {
        SendKeepsTable(Abstract(), SendStep(p, OutcomeAt(outcomes, n)));
        ok := SendAndMark(p, OutcomeAt(outcomes, n));
        n := n + 1;
        if !ok {
          SendAllStaysGone(w, p, outcomes, n, |rows|);
          return;
        }
      }
      ok := true;
    }

    method CommitBatch(p: nat, rows: seq<nat>, commits: bool) returns (count: nat)
      requires p in open && open[p] == Batch(rows, |rows|)
      modifies this
      ensures Abstract() == Next(old(Abstract()), Commit(p, commits)) && p !in open
      ensures published == if commits then old(published) + SentRows(Batch(rows, |rows|)) else old(published)
      ensures count == if commits then |rows| else 0
    {
      if !commits {
        RollbackBatch(p);
        return 0;
      }
      published := published + SentRows(open[p]);
      open := open - {p};
      count := |rows|;
    }

    /** Claims a batch, sends and marks its rows in turn, and commits. Returns how many rows it published, or 0. */
    method PollOnce(p: nat, batchSize: nat, outcomes: seq<SendOutcome>, commits: bool) returns (count: nat)
      requires p !in open && Inv(Abstract())
      modifies this
      ensures Abstract() == Polled(old(Abstract()), p, batchSize, outcomes, commits)
      ensures p !in open && count == |published| - |old(published)|
      ensures commits && Undisturbed(old(Abstract()), outcomes) ==> count == Smaller(batchSize, |FreeRows(old(Abstract()))|)
    {
      ghost var taken := old(published) + Locked(Abstract());
      FirstFreeAre(|outbox|, taken, batchSize, 0);
      if commits && Undisturbed(Abstract(), outcomes) {
        CleanPollIsFull(Abstract(), p, batchSize, outcomes);
      }
      var rows := ClaimBatch(p, batchSize);
      var ok := SendRows(p, rows, outcomes);
      PolledIs(old(Abstract()), p, batchSize, outcomes, commits, Abstract());
      if !ok {
        return 0;
      }
      CommittedCount(Batch(rows, |rows|), published);
      count := CommitBatch(p, rows, commits);
    }
  }
}
