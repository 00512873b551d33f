/** The vision worker's handling of one command: what it writes to the processing-events topic. */
module ProcessingWorker {
  import opened Sequences
  import opened OutboxRows
  import opened Retry

  datatype Kind = Started | Completed | Failed

  /** How one attempt goes. An unconfirmed send raises, whether or not the message got written; so does cleaning
      up after a confirmed completion, which counts as unconfirmed. */
  datatype Attempt =
    | FailsEarly
    | StartUnconfirmed(written: bool)
    | FailsMidway
    | CompletionUnconfirmed(written: bool)
    | Finishes

  const RETRY_ATTEMPTS := 3

  function OneIf(b: bool, k: Kind): seq<Kind> { if b then [k] else [] }

  /** What an attempt writes. */
  function Writes(a: Attempt): seq<Kind> {
    match a
    case FailsEarly => []
    case StartUnconfirmed(written) => OneIf(written, Started)
    case FailsMidway => [Started]
    case CompletionUnconfirmed(written) => [Started] + OneIf(written, Completed)
    case Finishes => [Started, Completed]
  }

  /** One delivery of a command: its attempts, as far as they are made, whether the final PROCESSING_FAILED is
      written and whether the dead letter is. */
  datatype Delivery = Delivery(eventId: string, eventType: string, attempts: seq<Attempt>, failureWritten: bool, deadLetterSent: bool)

  predicate Complete(d: Delivery) { |d.attempts| == RETRY_ATTEMPTS }

  /** What the first `n` attempts write, and whether one of them has succeeded; nothing follows a success. */
  function Emitted(attempts: seq<Attempt>, n: nat): (r: (seq<Kind>, bool))
    requires n <= |attempts|
  {
    if n == 0 then ([], false) else
    var before := Emitted(attempts, n - 1);
    if before.1 then before else (before.0 + Writes(attempts[n - 1]), attempts[n - 1].Finishes?)
  }

  /** Everything a new command writes to the topic. */
  function Emission(d: Delivery): seq<Kind> {
    var all := Emitted(d.attempts, |d.attempts|);
    all.0 + OneIf(!all.1 && d.failureWritten, Failed)
  }

  /** The nested `process`, on its n-th try. */
  function Process(attempts: seq<Attempt>, s: seq<Kind>, n: nat): (seq<Kind>, bool) {
    if 0 < n <= |attempts| then (s + Writes(attempts[n - 1]), attempts[n - 1].Finishes?) else (s, false)
  }

  ghost predicate IsProcess(act: (seq<Kind>, nat) -> (seq<Kind>, bool), attempts: seq<Attempt>) {
    forall s, n :: act(s, n) == Process(attempts, s, n)
  }

  lemma {:induction false} TriesAreEmitted(attempts: seq<Attempt>, s: seq<Kind>, act: (seq<Kind>, nat) -> (seq<Kind>, bool), n: nat)
    requires n <= |attempts| && IsProcess(act, attempts)
    requires forall k: nat :: 0 < k < n ==> !Succeeds(s, act, k)
    ensures StateAfter(s, act, n) == s + Emitted(attempts, n).0
    ensures Emitted(attempts, n).1 <==> n > 0 && Succeeds(s, act, n)
  {
    if n > 0 {
      TriesAreEmitted(attempts, s, act, n - 1);
      assert act(StateAfter(s, act, n - 1), n) == Process(attempts, StateAfter(s, act, n - 1), n);
      assert n > 1 ==> !Succeeds(s, act, n - 1);
      Associates(s, Emitted(attempts, n - 1).0, Writes(attempts[n - 1]));
    }
  }

  lemma {:induction false} EmittedAfterSuccess(attempts: seq<Attempt>, k: nat, n: nat)
    requires k <= n <= |attempts| && Emitted(attempts, k).1
    ensures Emitted(attempts, n) == Emitted(attempts, k)
    decreases n
  {
    if k < n {
      EmittedAfterSuccess(attempts, k, n - 1);
    }
  }

  lemma EmittedInFull(attempts: seq<Attempt>, n: nat)
    requires n <= |attempts| && (n < |attempts| ==> Emitted(attempts, n).1)
    ensures Emitted(attempts, |attempts|) == Emitted(attempts, n)
  {
    if n < |attempts| {
      EmittedAfterSuccess(attempts, n, |attempts|);
    }
  }

  // ---------------------------------------------------------------- the handler

  class Worker {
    var processed: set<string>
    /** What has been written to processing-events, and how many dead letters there are. */
    var written: seq<Kind>
    var deadLetters: nat

    constructor ()
      ensures processed == {} && written == [] && deadLetters == 0
    {
      processed, written, deadLetters := {}, [], 0;
    }

    /** `raised` says that sending the dead letter failed. */
    method HandleCommandMessage(d: Delivery) returns (raised: bool)
      requires Complete(d)
      modifies this
      ensures d.eventType != MISSION_PROCESSING_REQUESTED || d.eventId in old(processed) ==>
        !raised && processed == old(processed) && written == old(written) && deadLetters == old(deadLetters)
      ensures d.eventType == MISSION_PROCESSING_REQUESTED && d.eventId !in old(processed) ==>
        processed == old(processed) + {d.eventId} && written == old(written) + Emission(d)
      ensures d.eventType == MISSION_PROCESSING_REQUESTED && d.eventId !in old(processed) ==>
        deadLetters - old(deadLetters) == (if !Emitted(d.attempts, RETRY_ATTEMPTS).1 && d.deadLetterSent then 1 else 0)
      ensures d.eventType == MISSION_PROCESSING_REQUESTED && d.eventId !in old(processed) ==>
        raised == (!Emitted(d.attempts, RETRY_ATTEMPTS).1 && !d.deadLetterSent)
    {
      if d.eventType != MISSION_PROCESSING_REQUESTED {
        return false;
      }
      var isNew := d.eventId !in processed;
      processed := processed + {d.eventId};
      if !isNew {
        return false;
      }
      var act := (s: seq<Kind>, n: nat) => Process(d.attempts, s, n);
      var all, succeeded, tries, reports := WithBoundedRetry(written, RETRY_ATTEMPTS, act);
      TriesAreEmitted(d.attempts, written, act, tries);
      EmittedInFull(d.attempts, tries);
      written := all;
      if succeeded {
        return false;
      }
      if d.failureWritten {
        written := written + [Failed];
      }
      if d.deadLetterSent {
        deadLetters := deadLetters + 1;
      }
      raised := !d.deadLetterSent;
    }
  }

  // ---------------------------------------------------------------- the shape of an emission

  /** STARTED a number of times, then at most one of COMPLETED and FAILED. */
  ghost predicate Shaped(kinds: seq<Kind>) {
    forall i :: 0 <= i < |kinds| - 1 ==> kinds[i].Started?
  }

  /** Attempt `n` is made. */
  ghost predicate NoneFinishes(attempts: seq<Attempt>, n: nat)
    requires n <= |attempts|
  {
    forall m :: 0 <= m < n ==> !attempts[m].Finishes?
  }

  /** Some attempt from `i` on writes something. */
  ghost predicate WritesFrom(attempts: seq<Attempt>, i: nat, n: nat)
    requires n <= |attempts|
  {
    exists j :: i <= j < n && NoneFinishes(attempts, j) && Writes(attempts[j]) != []
  }

  /** Attempt `i` is made and writes its completion without learning of it, and later an attempt writes again, or
      none ever finishes and the final PROCESSING_FAILED is written. */
  ghost predicate CompletedThenMore(d: Delivery, i: nat) {
    && i < |d.attempts| && d.attempts[i] == CompletionUnconfirmed(true) && NoneFinishes(d.attempts, i)
    && (WritesFrom(d.attempts, i + 1, |d.attempts|) || (NoneFinishes(d.attempts, |d.attempts|) && d.failureWritten))
  }

  lemma {:induction false} SucceedsIff(attempts: seq<Attempt>, n: nat)
    requires n <= |attempts|
    ensures Emitted(attempts, n).1 <==> !NoneFinishes(attempts, n)
  {
    if n > 0 {
      SucceedsIff(attempts, n - 1);
    }
  }

  lemma WritesFromOneMore(attempts: seq<Attempt>, i: nat, n: nat)
    requires i < n <= |attempts|
    ensures WritesFrom(attempts, i, n) <==>
      WritesFrom(attempts, i, n - 1) || (NoneFinishes(attempts, n - 1) && Writes(attempts[n - 1]) != [])
  {}

  lemma {:induction false} GrowsIff(attempts: seq<Attempt>, i: nat, n: nat)
    requires i <= n <= |attempts|
    ensures |Emitted(attempts, n).0| > |Emitted(attempts, i).0| <==> WritesFrom(attempts, i, n)
    ensures |Emitted(attempts, n).0| >= |Emitted(attempts, i).0|
    decreases n
  {
    if i < n {
      GrowsIff(attempts, i, n - 1);
      SucceedsIff(attempts, n - 1);
      WritesFromOneMore(attempts, i, n);
    }
  }

  /** More than what the first `i + 1` attempts write is written exactly when one of the two happens. */
  lemma MoreIsWrittenIff(d: Delivery, i: nat)
    requires i < |d.attempts|
    ensures CompletedThenMore(d, i) <==>
      (d.attempts[i] == CompletionUnconfirmed(true) && !Emitted(d.attempts, i).1
       && |Emission(d)| > |Emitted(d.attempts, i + 1).0|)
  {
    SucceedsIff(d.attempts, i);
    SucceedsIff(d.attempts, |d.attempts|);
    GrowsIff(d.attempts, i + 1, |d.attempts|);
  }

  lemma {:induction false} EmittedIsPrefix(attempts: seq<Attempt>, m: nat, n: nat)
    requires m <= n <= |attempts|
    ensures Emitted(attempts, m).0 <= Emitted(attempts, n).0
    decreases n
  {
    if m < n {
      EmittedIsPrefix(attempts, m, n - 1);
    }
  }

  /** How often a kind is written. */
  function CountOf(kinds: seq<Kind>, k: Kind): nat {
    if kinds == [] then 0 else CountOf(kinds[..|kinds| - 1], k) + if kinds[|kinds| - 1] == k then 1 else 0
  }

  lemma {:induction false} CountConcat(a: seq<Kind>, b: seq<Kind>, k: Kind)
    ensures CountOf(a + b, k) == CountOf(a, k) + CountOf(b, k)
  {
    if b == [] {
      assert a + b == a;
    } else {
      InitOfConcat(a, b);
      CountConcat(a, b[..|b| - 1], k);
    }
  }

  /** Where a COMPLETED comes from: it ends the writes of an attempt that finished, or does not know it did. */
  lemma {:induction false} CompletedEndsAttempt(attempts: seq<Attempt>, n: nat, j: nat) returns (i: nat)
    requires n <= |attempts| && j < |Emitted(attempts, n).0| && !Emitted(attempts, n).0[j].Started?
    ensures i < n && !Emitted(attempts, i).1 && j == |Emitted(attempts, i + 1).0| - 1
    ensures attempts[i] == CompletionUnconfirmed(true) || Emitted(attempts, i + 1).1
  {
    var before := Emitted(attempts, n - 1);
    if before.1 {
      i := CompletedEndsAttempt(attempts, n - 1, j);
    } else {
      if j < |before.0| {
        i := CompletedEndsAttempt(attempts, n - 1, j);
      } else {
        i := n - 1;
      }
    }
  }

  lemma EmissionExtends(d: Delivery, i: nat)
    requires i <= |d.attempts|
    ensures Emitted(d.attempts, i).0 <= Emission(d)
    ensures Emitted(d.attempts, i).1 ==> Emission(d) == Emitted(d.attempts, i).0
  {
    EmittedIsPrefix(d.attempts, i, |d.attempts|);
    if Emitted(d.attempts, i).1 {
      EmittedAfterSuccess(d.attempts, i, |d.attempts|);
    }
  }

  lemma TerminalBeforeEndBreaksShape(kinds: seq<Kind>, init: seq<Kind>)
    requires init <= kinds && init != [] && !init[|init| - 1].Started? && |kinds| > |init|
    ensures !Shaped(kinds)
  {
    assert kinds[|init| - 1] == init[|init| - 1];
  }

  lemma LastIsCompleted(attempts: seq<Attempt>, i: nat)
    requires i < |attempts| && attempts[i] == CompletionUnconfirmed(true) && !Emitted(attempts, i).1
    ensures var kinds := Emitted(attempts, i + 1).0; kinds != [] && kinds[|kinds| - 1] == Completed
  {}

  lemma UnknowingCompletionBreaksShape(d: Delivery, i: nat)
    requires CompletedThenMore(d, i)
    ensures !Shaped(Emission(d))
  {
    MoreIsWrittenIff(d, i);
    EmissionExtends(d, i + 1);
    LastIsCompleted(d.attempts, i);
    TerminalBeforeEndBreaksShape(Emission(d), Emitted(d.attempts, i + 1).0);
  }

  lemma EarlyIsEmitted(d: Delivery, j: nat)
    requires j < |Emission(d)| - 1
    ensures j < |Emitted(d.attempts, |d.attempts|).0| && Emitted(d.attempts, |d.attempts|).0[j] == Emission(d)[j]
  {}

  lemma EarlyCompletionIsUnknowing(d: Delivery, j: nat) returns (i: nat)
    requires j < |Emission(d)| - 1 && !Emission(d)[j].Started?
    ensures CompletedThenMore(d, i)
  {
    EarlyIsEmitted(d, j);
    i := CompletedEndsAttempt(d.attempts, |d.attempts|, j);
    EmissionExtends(d, i + 1);
    MoreIsWrittenIff(d, i);
  }

  /** Such a delivery: the first attempt's completion is written and goes unconfirmed, and the second finishes. */
  lemma UnconfirmedCompletionRepeats(d: Delivery)
    requires d.attempts == [CompletionUnconfirmed(true), Finishes, FailsEarly]
    ensures Complete(d) && Emission(d) == [Started, Completed, Started, Completed] && !Shaped(Emission(d))
  {
    assert Emitted(d.attempts, 0) == ([], false);
    assert [] + Writes(d.attempts[0]) == [Started, Completed];
    assert Emitted(d.attempts, 1) == ([Started, Completed], false);
    assert [Started, Completed] + Writes(d.attempts[1]) == [Started, Completed, Started, Completed];
    assert Emitted(d.attempts, 2) == ([Started, Completed, Started, Completed], true);
    assert Emitted(d.attempts, 3) == Emitted(d.attempts, 2);
    assert !Emission(d)[1].Started?;
  }

  // ---------------------------------------------------------------- how often each kind is written

  /** A made attempt writes its STARTED unless it fails before it, or the send does. */
  predicate WritesStarted(a: Attempt) { a != FailsEarly && a != StartUnconfirmed(false) }

  predicate WritesCompleted(a: Attempt) { a == Finishes || a == CompletionUnconfirmed(true) }

  ghost function StartedBy(attempts: seq<Attempt>, n: nat): set<nat>
    requires n <= |attempts|
  {
    set i: nat | i < n && NoneFinishes(attempts, i) && WritesStarted(attempts[i])
  }

  ghost function CompletedBy(attempts: seq<Attempt>, n: nat): set<nat>
    requires n <= |attempts|
  {
    set i: nat | i < n && NoneFinishes(attempts, i) && WritesCompleted(attempts[i])
  }

  lemma CountsOfOne(k: Kind, l: Kind)
    ensures CountOf([k], l) == if k == l then 1 else 0
    ensures CountOf([Started, Completed], l) == CountOf([Started], l) + CountOf([Completed], l)
  {
    assert [k][..0] == [] && [Started] + [Completed] == [Started, Completed];
    CountConcat([Started], [Completed], l);
  }

  lemma WritesCounts(a: Attempt)
    ensures CountOf(Writes(a), Started) == if WritesStarted(a) then 1 else 0
    ensures CountOf(Writes(a), Completed) == if WritesCompleted(a) then 1 else 0
    ensures CountOf(Writes(a), Failed) == 0
  {
    forall k: Kind, l: Kind ensures CountOf([k], l) == if k == l then 1 else 0 {
      CountsOfOne(k, l);
    }
    forall l: Kind ensures CountOf([Started, Completed], l) == CountOf([Started], l) + CountOf([Completed], l) {
      CountsOfOne(l, l);
    }
    assert [Started] + [] == [Started] && [Started] + [Completed] == [Started, Completed];
  }

  lemma ByOneMore(attempts: seq<Attempt>, n: nat)
    requires n < |attempts|
    ensures StartedBy(attempts, n + 1) ==
      StartedBy(attempts, n) + if NoneFinishes(attempts, n) && WritesStarted(attempts[n]) then {n} else {}
    ensures CompletedBy(attempts, n + 1) ==
      CompletedBy(attempts, n) + if NoneFinishes(attempts, n) && WritesCompleted(attempts[n]) then {n} else {}
  {}

  lemma EmittedOneMore(attempts: seq<Attempt>, n: nat)
    requires n < |attempts|
    ensures Emitted(attempts, n + 1).0 ==
      if NoneFinishes(attempts, n) then Emitted(attempts, n).0 + Writes(attempts[n]) else Emitted(attempts, n).0
  {
    SucceedsIff(attempts, n);
  }

  lemma CountsOneMore(attempts: seq<Attempt>, n: nat)
    requires n < |attempts|
    ensures |StartedBy(attempts, n + 1)| ==
      |StartedBy(attempts, n)| + if NoneFinishes(attempts, n) && WritesStarted(attempts[n]) then 1 else 0
    ensures |CompletedBy(attempts, n + 1)| ==
      |CompletedBy(attempts, n)| + if NoneFinishes(attempts, n) && WritesCompleted(attempts[n]) then 1 else 0
  {
    ByOneMore(attempts, n);
  }

  ghost predicate Counts(kinds: seq<Kind>, started: nat, completed: nat) {
    CountOf(kinds, Started) == started && CountOf(kinds, Completed) == completed && CountOf(kinds, Failed) == 0
  }

  lemma CountsGoOn(kinds: seq<Kind>, a: Attempt, started: nat, completed: nat)
    requires Counts(kinds, started, completed)
    ensures Counts(kinds + Writes(a), started + (if WritesStarted(a) then 1 else 0), completed + if WritesCompleted(a) then 1 else 0)
  {
    WritesCounts(a);
    CountConcat(kinds, Writes(a), Started);
    CountConcat(kinds, Writes(a), Completed);
    CountConcat(kinds, Writes(a), Failed);
  }

  lemma CountsStep(attempts: seq<Attempt>, n: nat, kinds: seq<Kind>) returns (more: seq<Kind>)
    requires n < |attempts| && kinds == Emitted(attempts, n).0
    requires Counts(kinds, |StartedBy(attempts, n)|, |CompletedBy(attempts, n)|)
    ensures more == Emitted(attempts, n + 1).0
    ensures Counts(more, |StartedBy(attempts, n + 1)|, |CompletedBy(attempts, n + 1)|)
  {
    EmittedOneMore(attempts, n);
    CountsOneMore(attempts, n);
    if NoneFinishes(attempts, n) {
      CountsGoOn(kinds, attempts[n], |StartedBy(attempts, n)|, |CompletedBy(attempts, n)|);
      more := kinds + Writes(attempts[n]);
    } else {
      more := kinds;
    }
  }

  lemma {:induction false} EmittedCounts(attempts: seq<Attempt>, n: nat) returns (kinds: seq<Kind>)
    requires n <= |attempts|
    ensures kinds == Emitted(attempts, n).0 && Counts(kinds, |StartedBy(attempts, n)|, |CompletedBy(attempts, n)|)
  {
    if n == 0 {
      kinds := [];
    } else {
      kinds := EmittedCounts(attempts, n - 1);
      kinds := CountsStep(attempts, n - 1, kinds);
    }
  }

  lemma OneKind(b: bool, k: Kind, l: Kind)
    ensures CountOf(OneIf(b, k), l) == if b && k == l then 1 else 0
  {
    CountsOfOne(k, l);
  }

  /** A command writes one STARTED for each made attempt that gets so far, one COMPLETED for each that completes,
      known to it or not, and FAILED, last, exactly when none finishes and that send gets through. */
  lemma EmissionCounts(d: Delivery)
    ensures CountOf(Emission(d), Started) == |StartedBy(d.attempts, |d.attempts|)|
    ensures CountOf(Emission(d), Completed) == |CompletedBy(d.attempts, |d.attempts|)|
    ensures CountOf(Emission(d), Failed) == if NoneFinishes(d.attempts, |d.attempts|) && d.failureWritten then 1 else 0
  {
    var all := Emitted(d.attempts, |d.attempts|);
    var failed := !all.1 && d.failureWritten;
    var kinds := EmittedCounts(d.attempts, |d.attempts|);
    SucceedsIff(d.attempts, |d.attempts|);
    forall k: Kind ensures CountOf(Emission(d), k) == CountOf(all.0, k) + if failed && k == Failed then 1 else 0 {
      CountConcat(all.0, OneIf(failed, Failed), k);
      OneKind(failed, Failed, k);
    }
  }

  lemma {:induction false} AtMostEach(attempts: seq<Attempt>, n: nat)
    requires n <= |attempts|
    ensures |StartedBy(attempts, n)| <= n
  {
    if n > 0 {
      AtMostEach(attempts, n - 1);
      CountsOneMore(attempts, n - 1);
    }
  }

  /** Main result: what a command emits is STARTED^k, with k within the retry budget, and then at most one of
      COMPLETED and FAILED, unless an attempt writes its completion without learning of it and a later one writes
      again, or all fail and the PROCESSING_FAILED is written; then, and only then, it is not. */
  lemma EmissionIsShapedIff(d: Delivery)
    ensures Shaped(Emission(d)) <==> forall i :: 0 <= i < |d.attempts| ==> !CompletedThenMore(d, i)
    ensures CountOf(Emission(d), Started) <= |d.attempts|
  {
    EmissionCounts(d);
    AtMostEach(d.attempts, |d.attempts|);
    if i :| 0 <= i < |d.attempts| && CompletedThenMore(d, i) {
      UnknowingCompletionBreaksShape(d, i);
    } else if !Shaped(Emission(d)) {
      var j :| 0 <= j < |Emission(d)| - 1 && !Emission(d)[j].Started?;
      var i := EarlyCompletionIsUnknowing(d, j);
    }
  }

}
