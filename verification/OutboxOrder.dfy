/** When the log without repeats is in the rows' creation order, and what a consumer that skips repeats sees. */
module OutboxOrder {
  import opened Sequences
  import opened Wrappers
  import opened OutboxRows
  import opened OutboxPublisher

  /** The numbers from `a` on, `n` of them. */
  function Range(a: nat, n: nat): seq<nat> { seq(n, i requires 0 <= i < n => a + i) }

  function Below(n: nat): (r: set<nat>)
    ensures forall i: nat :: i in r <==> i < n
  {
    if n == 0 then {} else Below(n - 1) + {n - 1}
  }

  // ---------------------------------------------------------------- one publisher

  /** No batch is claimed while another is open. */
  ghost predicate Solo(steps: seq<Step>) {
    steps == [] ||
    (Solo(steps[..|steps| - 1]) && (steps[|steps| - 1].Claim? ==> Run(steps[..|steps| - 1]).open == map[]))
  }

  ghost predicate Continues(b: Batch, m: nat, t: nat, size: nat) {
    b.claimed == Range(m, |b.claimed|) && m + |b.claimed| <= size && b.sent <= |b.claimed| && m + b.sent <= t
  }

  /** The first `m` rows are published, the first `t` have been sent, and an open batch continues from `m`. */
  ghost predicate InOrder(w: World, m: nat, t: nat) {
    && w.published == Below(m)
    && t <= |w.outbox| && m <= t
    && Dedup(w.origins) == Range(0, t)
    && (forall p :: p in w.open ==> Continues(w.open[p], m, t, |w.outbox|))
    && (forall p, q :: p in w.open && q in w.open ==> p == q)
  }

  lemma {:induction false} FirstFreeIsRange(size: nat, m: nat, limit: nat, from: nat)
    requires m <= size
    ensures var c, start := FirstFree(size, Below(m), limit, from), if from < m then m else from;
      c == Range(start, |c|) && (c != [] ==> start + |c| <= size)
    decreases size - from
  {
    if from >= size || limit == 0 {
    } else if from < m {
      FirstFreeIsRange(size, m, limit, from + 1);
    } else {
      FirstFreeIsRange(size, m, limit - 1, from + 1);
    }
  }

  lemma RangeOneMore(n: nat)
    ensures Range(0, n + 1) == Range(0, n) + [n]
  {}

  lemma SendsNext(origins: seq<nat>, t: nat, x: nat)
    requires Dedup(origins) == Range(0, t) && x <= t
    ensures Dedup(origins + [x]) == Range(0, if x == t then t + 1 else t)
  {
    DedupAre(origins);
    DedupOneMore(origins, x);
    RangeOneMore(t);
    if x < t {
      assert Range(0, t)[x] == x;
    }
  }

  lemma SentOfRange(b: Batch, m: nat)
    requires b.sent == |b.claimed| && b.claimed == Range(m, |b.claimed|)
    ensures Below(m) + SentRows(b) == Below(m + |b.claimed|)
  {
    forall i | m <= i < m + |b.claimed| ensures i in SentRows(b) {
      assert b.claimed[i - m] == i;
    }
  }

  lemma SendKeepsOrder(w: World, p: nat, delivered: bool, confirmed: bool, m: nat, t: nat)
    returns (t': nat)
    requires InOrder(w, m, t) && MaySend(w, p)
    ensures InOrder(DoSend(w, p, delivered, confirmed), m, t')
  {
    var i := NextRow(w, p);
    assert Continues(w.open[p], m, t, |w.outbox|);
    SendsNext(w.origins, t, i);
    t' := if |DoSend(w, p, delivered, confirmed).origins| > |w.origins| && i == t then t + 1 else t;
  }

  lemma NextKeepsOrder(w: World, s: Step, m: nat, t: nat) returns (m': nat, t': nat)
    requires InOrder(w, m, t) && (s.Claim? ==> w.open == map[])
    ensures InOrder(Next(w, s), m', t')
  {
    m', t' := m, t;
    match s
    case Send(p, delivered, confirmed) =>
      if MaySend(w, p) {
        t' := SendKeepsOrder(w, p, delivered, confirmed, m, t);
      }
    case Claim(p, limit) =>
      assert Locked(w) == {};
      assert w.published + {} == Below(m);
      FirstFreeIsRange(|w.outbox|, m, limit, 0);
    case Commit(p, succeeds) =>
      if succeeds && p in w.open && w.open[p].sent == |w.open[p].claimed| {
        assert Continues(w.open[p], m, t, |w.outbox|);
        SentOfRange(w.open[p], m);
        m' := m + |w.open[p].claimed|;
      }
    case Insert(row) =>
    case Abort(p) =>
  }

  lemma {:induction false} SoloKeepsOrder(steps: seq<Step>) returns (m: nat, t: nat)
    requires Solo(steps)
    ensures InOrder(Run(steps), m, t)
  {
    if steps == [] {
      m, t := 0, 0;
      assert Range(0, 0) == [];
    } else {
      m, t := SoloKeepsOrder(steps[..|steps| - 1]);
      m, t := NextKeepsOrder(Run(steps[..|steps| - 1]), steps[|steps| - 1], m, t);
    }
  }

  // ---------------------------------------------------------------- the log, and one key of it

  function MessagesOf(rows: seq<OutboxRow>): seq<Message>
    requires Sendable(rows)
  {
    seq(|rows|, i requires 0 <= i < |rows| => MessageFor(rows[i]))
  }

  /** One partition's share: the messages of one topic and key, in order. */
  function ForKey(log: seq<Message>, topic: Topic, key: string): seq<Message> {
    if log == [] then [] else
    var last := log[|log| - 1];
    ForKey(log[..|log| - 1], topic, key) + if last.topic == topic && last.key == key then [last] else []
  }

  lemma ForKeyOneMore(log: seq<Message>, m: Message, topic: Topic, key: string)
    ensures ForKey(log + [m], topic, key) == ForKey(log, topic, key) + if m.topic == topic && m.key == key then [m] else []
  {
    Snoc(log, m);
  }

  lemma {:induction false} ForKeyAre(log: seq<Message>, topic: Topic, key: string)
    ensures forall m :: m in ForKey(log, topic, key) <==> m in log && m.topic == topic && m.key == key
  {
    if log != [] {
      var init, last := log[..|log| - 1], log[|log| - 1];
      ForKeyAre(init, topic, key);
      InitLast(log);
      InConcat(init, [last]);
      InConcat(ForKey(init, topic, key), if last.topic == topic && last.key == key then [last] else []);
    }
  }

  lemma DedupForKeyStep(init: seq<Message>, last: Message, topic: Topic, key: string)
    requires Dedup(ForKey(init, topic, key)) == ForKey(Dedup(init), topic, key)
    ensures Dedup(ForKey(init + [last], topic, key)) == ForKey(Dedup(init + [last]), topic, key)
  {
    var some := ForKey(init, topic, key);
    ForKeyOneMore(init, last, topic, key);
    DedupOneMore(init, last);
    ForKeyAre(init, topic, key);
    if last.topic == topic && last.key == key {
      DedupOneMore(some, last);
    } else {
      assert some + [] == some;
    }
    if last in init {
      assert Dedup(init) + [] == Dedup(init);
    } else {
      ForKeyOneMore(Dedup(init), last, topic, key);
    }
  }

  /** Removing repeats and picking a key commute. */
  lemma {:induction false} DedupForKey(log: seq<Message>, topic: Topic, key: string)
    ensures Dedup(ForKey(log, topic, key)) == ForKey(Dedup(log), topic, key)
  {
    if log != [] {
      DedupForKey(log[..|log| - 1], topic, key);
      DedupForKeyStep(log[..|log| - 1], log[|log| - 1], topic, key);
      InitLast(log);
    }
  }

  /** `log[k]` is the message of row `origins[k]`. */
  ghost predicate CopiesOf(outbox: seq<OutboxRow>, log: seq<Message>, origins: seq<nat>) {
    && |log| == |origins|
    && forall k :: 0 <= k < |log| ==>
         origins[k] < |outbox| && TopicForEventType(outbox[origins[k]].eventType).Some? && log[k] == MessageFor(outbox[origins[k]])
  }

  ghost predicate UniqueRows(outbox: seq<OutboxRow>) {
    forall i, j :: 0 <= i < j < |outbox| ==> outbox[i].eventId != outbox[j].eventId
  }

  lemma RepeatsAgree(outbox: seq<OutboxRow>, log: seq<Message>, origins: seq<nat>, m: Message, i: nat)
    requires UniqueRows(outbox) && CopiesOf(outbox, log, origins) && CopiesOf(outbox, [m], [i])
    ensures m in log <==> i in origins
  {
    assert [m][0] == m && [i][0] == i;
    if m in log {
      var k :| 0 <= k < |log| && log[k] == m;
      assert origins[k] == i;
    }
    if i in origins {
      var k :| 0 <= k < |origins| && origins[k] == i;
      assert log[k] == m;
    }
  }

  lemma CopiesOneMore(outbox: seq<OutboxRow>, log: seq<Message>, origins: seq<nat>, m: Message, i: nat)
    requires CopiesOf(outbox, log, origins) && CopiesOf(outbox, [m], [i])
    ensures CopiesOf(outbox, log + [m], origins + [i])
  {
    assert [m][0] == m && [i][0] == i;
  }

  /** Messages repeat exactly where the rows behind them do, so removing repeats keeps them in step. */
  lemma {:induction false} DedupInStep(outbox: seq<OutboxRow>, log: seq<Message>, origins: seq<nat>)
    requires UniqueRows(outbox) && CopiesOf(outbox, log, origins)
    ensures CopiesOf(outbox, Dedup(log), Dedup(origins))
  {
    if log != [] {
      var l, o := log[..|log| - 1], origins[..|origins| - 1];
      var m, i := log[|log| - 1], origins[|origins| - 1];
      DedupInStep(outbox, l, o);
      RepeatsAgree(outbox, l, o, m, i);
      if m !in l {
        CopiesOneMore(outbox, Dedup(l), Dedup(o), m, i);
      } else {
        assert Dedup(l) + [] == Dedup(l) && Dedup(o) + [] == Dedup(o);
      }
    }
  }

  lemma CopiesOfRange(outbox: seq<OutboxRow>, log: seq<Message>, t: nat)
    requires t <= |outbox| && CopiesOf(outbox, log, Range(0, t))
    ensures Sendable(outbox[..t]) && log == MessagesOf(outbox[..t])
  {
    forall k | 0 <= k < t
      ensures TopicForEventType(outbox[..t][k].eventType).Some? && log[k] == MessageFor(outbox[..t][k])
    {
      assert Range(0, t)[k] == k;
    }
  }

  /** Main result for one publisher. The log with repeats removed is the messages of the first `t` outbox rows
      in creation order, the published rows are the first `m` of them, and the same holds within every
      partition key. */
  lemma SinglePublisherKeepsOrder(steps: seq<Step>) returns (m: nat, t: nat)
    requires Solo(steps)
    ensures var w := Run(steps);
      && m <= t <= |w.outbox| && Sendable(w.outbox[..t])
      && Dedup(w.log) == MessagesOf(w.outbox[..t])
      && w.published == Below(m)
      && forall topic, key :: Dedup(ForKey(w.log, topic, key)) == ForKey(MessagesOf(w.outbox[..t]), topic, key)
  {
    var w := Run(steps);
    m, t := SoloKeepsOrder(steps);
    EveryRunKeepsInv(steps);
    DedupInStep(w.outbox, w.log, w.origins);
    CopiesOfRange(w.outbox, Dedup(w.log), t);
    forall topic, key ensures Dedup(ForKey(w.log, topic, key)) == ForKey(MessagesOf(w.outbox[..t]), topic, key) {
      DedupForKey(w.log, topic, key);
    }
  }

  // ---------------------------------------------------------------- any number of publishers, one key

  predicate IsFor(row: OutboxRow, topic: Topic, key: string) {
    TopicForEventType(row.eventType) == Some(topic) && row.aggregateId == key
  }

  /** The messages of a topic and key's rows, in creation order. */
  function KeyMessages(rows: seq<OutboxRow>, topic: Topic, key: string): seq<Message> {
    if rows == [] then [] else
    var last := rows[|rows| - 1];
    KeyMessages(rows[..|rows| - 1], topic, key) + if IsFor(last, topic, key) then [MessageFor(last)] else []
  }

  /** The partition's log without repeats follows its rows' creation order, with no gap. */
  ghost predicate InKeyOrder(w: World, topic: Topic, key: string) {
    Dedup(ForKey(w.log, topic, key)) <= KeyMessages(w.outbox, topic, key)
  }

  ghost predicate Distinct<T>(s: seq<T>) { forall i, j :: 0 <= i < j < |s| ==> s[i] != s[j] }

  lemma KeyMessagesOneMore(rows: seq<OutboxRow>, row: OutboxRow, topic: Topic, key: string)
    ensures KeyMessages(rows + [row], topic, key) ==
      KeyMessages(rows, topic, key) + if IsFor(row, topic, key) then [MessageFor(row)] else []
  {
    Snoc(rows, row);
  }

  /** The message is that of one of the partition's rows. */
  ghost predicate HasRow(rows: seq<OutboxRow>, topic: Topic, key: string, m: Message) {
    exists i :: 0 <= i < |rows| && IsFor(rows[i], topic, key) && m == MessageFor(rows[i])
  }

  lemma HasRowOneMore(rows: seq<OutboxRow>, row: OutboxRow, topic: Topic, key: string, m: Message)
    ensures HasRow(rows + [row], topic, key, m) <==> HasRow(rows, topic, key, m) || (IsFor(row, topic, key) && m == MessageFor(row))
  {
    var more := rows + [row];
    assert more[|rows|] == row;
    if HasRow(rows, topic, key, m) {
      var i :| 0 <= i < |rows| && IsFor(rows[i], topic, key) && m == MessageFor(rows[i]);
      assert more[i] == rows[i];
    }
  }

  lemma {:induction false} KeyMessagesAre(rows: seq<OutboxRow>, topic: Topic, key: string)
    ensures forall m :: m in KeyMessages(rows, topic, key) <==> HasRow(rows, topic, key, m)
  {
    if rows != [] {
      var init, last := rows[..|rows| - 1], rows[|rows| - 1];
      KeyMessagesAre(init, topic, key);
      InConcat(KeyMessages(init, topic, key), if IsFor(last, topic, key) then [MessageFor(last)] else []);
      InitLast(rows);
      forall m ensures m in KeyMessages(rows, topic, key) <==> HasRow(rows, topic, key, m) {
        HasRowOneMore(init, last, topic, key, m);
      }
    }
  }

  lemma DistinctOneMore<T>(s: seq<T>, x: T)
    requires Distinct(s) && x !in s
    ensures Distinct(s + [x])
  {
    forall i, j | 0 <= i < j < |s + [x]| ensures (s + [x])[i] != (s + [x])[j] {
      assert (s + [x])[i] == s[i] && s[i] in s;
    }
  }

  lemma {:induction false} KeyMessagesDiffer(rows: seq<OutboxRow>, topic: Topic, key: string)
    requires UniqueRows(rows)
    ensures Distinct(KeyMessages(rows, topic, key))
  {
    if rows != [] {
      var init, last := rows[..|rows| - 1], rows[|rows| - 1];
      KeyMessagesDiffer(init, topic, key);
      KeyMessagesAre(init, topic, key);
      if IsFor(last, topic, key) {
        assert forall i :: 0 <= i < |init| ==> init[i] == rows[i] && init[i].eventId != last.eventId;
        DistinctOneMore(KeyMessages(init, topic, key), MessageFor(last));
      } else {
        assert KeyMessages(init, topic, key) + [] == KeyMessages(init, topic, key);
      }
    }
  }

  /** A row's message comes right after those of the rows before it. */
  lemma {:induction false} KeyMessageAt(rows: seq<OutboxRow>, i: nat, topic: Topic, key: string)
    requires i < |rows| && IsFor(rows[i], topic, key)
    ensures KeyMessages(rows[..i], topic, key) + [MessageFor(rows[i])] <= KeyMessages(rows, topic, key)
    decreases |rows|
  {
    if i < |rows| - 1 {
      KeyMessageAt(rows[..|rows| - 1], i, topic, key);
      TakeTake(rows, i, |rows| - 1);
    }
  }

  lemma SeenIff<T>(log: seq<T>, all: seq<T>, j: nat)
    requires Distinct(all) && Dedup(log) <= all && j < |all|
    ensures all[j] in log <==> j < |Dedup(log)|
  {
    DedupAre(log);
    if all[j] in log {
      var k :| 0 <= k < |Dedup(log)| && Dedup(log)[k] == all[j];
      assert all[k] == all[j];
    }
  }

  lemma OrderGoesOn<T>(log: seq<T>, all: seq<T>, before: seq<T>, x: T)
    requires Distinct(all) && Dedup(log) <= all && before + [x] <= all
    ensures Dedup(log + [x]) <= all <==> forall y :: y in before ==> y in log
  {
    var n, i := |Dedup(log)|, |before|;
    assert all[i] == x && forall j :: 0 <= j < i ==> all[j] == before[j];
    DedupOneMore(log, x);
    SeenIff(log, all, i);
    forall j | 0 <= j < i ensures before[j] in log <==> j < n {
      SeenIff(log, all, j);
    }
    if i <= n {
      assert i == n ==> Dedup(log) + [x] <= all;
    } else {
      assert before[n] !in log && (Dedup(log) + [x])[n] == x != all[n];
    }
  }

  /** One more entry keeps the order exactly when all that come before it have been seen. */
  lemma OrderGoesOnIff<T>(log: seq<T>, all: seq<T>, before: seq<T>, x: T)
    requires Distinct(all) && before + [x] <= all
    ensures Dedup(log + [x]) <= all <==> Dedup(log) <= all && forall y :: y in before ==> y in log
  {
    if Dedup(log) <= all {
      OrderGoesOn(log, all, before, x);
    } else {
      DedupOneMore(log, x);
    }
  }

  /** The step writes a message to the log. */
  predicate Delivers(w: World, s: Step) {
    && s.Send? && MaySend(w, s.publisher) && TopicForEventType(w.outbox[NextRow(w, s.publisher)].eventType).Some?
    && (s.delivered || s.confirmed)
  }

  /** If the step writes one for this partition, those of all earlier rows are in the log. */
  ghost predicate NoSkip(w: World, s: Step, topic: Topic, key: string) {
    Delivers(w, s) && IsFor(w.outbox[NextRow(w, s.publisher)], topic, key) ==>
      forall m :: m in KeyMessages(w.outbox[..NextRow(w, s.publisher)], topic, key) ==> m in w.log
  }

  lemma StepOnLog(w: World, s: Step)
    ensures Next(w, s).log == if Delivers(w, s) then w.log + [MessageFor(w.outbox[NextRow(w, s.publisher)])] else w.log
    ensures Next(w, s).outbox == if s.Insert? && FreshEvent(w.outbox, s.row) then w.outbox + [s.row] else w.outbox
  {}

  lemma LoggedAreKeyMessages(w: World, topic: Topic, key: string)
    requires Faithful(w)
    ensures forall m :: m in ForKey(w.log, topic, key) ==> m in KeyMessages(w.outbox, topic, key)
  {
    ForKeyAre(w.log, topic, key);
    KeyMessagesAre(w.outbox, topic, key);
    forall m | m in ForKey(w.log, topic, key) ensures m in KeyMessages(w.outbox, topic, key) {
      var k :| 0 <= k < |w.log| && w.log[k] == m;
      assert IsCopy(w, w.log[k], w.origins[k]) && IsFor(w.outbox[w.origins[k]], topic, key);
      assert HasRow(w.outbox, topic, key, m);
    }
  }

  lemma ShorterPrefix<T>(a: seq<T>, b: seq<T>, x: T)
    requires a <= b + [x] && x !in a
    ensures a <= b
  {
    assert (b + [x])[|b|] == x;
  }

  lemma NewRowIsUnseen(w: World, row: OutboxRow, topic: Topic, key: string)
    requires Inv(w) && FreshEvent(w.outbox, row) && IsFor(row, topic, key)
    ensures MessageFor(row) !in Dedup(ForKey(w.log, topic, key))
  {
    LoggedAreKeyMessages(w, topic, key);
    DedupAre(ForKey(w.log, topic, key));
    KeyMessagesAre(w.outbox, topic, key);
    assert !HasRow(w.outbox, topic, key, MessageFor(row));
  }

  lemma InsertKeepsKeyOrderIff(w: World, row: OutboxRow, topic: Topic, key: string)
    requires Inv(w) && FreshEvent(w.outbox, row)
    ensures InKeyOrder(Next(w, Insert(row)), topic, key) <==> InKeyOrder(w, topic, key)
  {
    var sent, all := Dedup(ForKey(w.log, topic, key)), KeyMessages(w.outbox, topic, key);
    KeyMessagesOneMore(w.outbox, row, topic, key);
    if IsFor(row, topic, key) {
      NewRowIsUnseen(w, row, topic, key);
      if sent <= all + [MessageFor(row)] {
        ShorterPrefix(sent, all, MessageFor(row));
      }
    } else {
      assert all + [] == all;
    }
  }

  lemma EarlierAreForKey(rows: seq<OutboxRow>, log: seq<Message>, topic: Topic, key: string)
    ensures (forall m :: m in KeyMessages(rows, topic, key) ==> m in log) <==>
      (forall m :: m in KeyMessages(rows, topic, key) ==> m in ForKey(log, topic, key))
  {
    KeyMessagesAre(rows, topic, key);
    ForKeyAre(log, topic, key);
  }

  lemma DeliverKeepsKeyOrderIff(w: World, s: Step, topic: Topic, key: string)
    requires Inv(w) && Delivers(w, s)
    ensures InKeyOrder(Next(w, s), topic, key) <==> InKeyOrder(w, topic, key) && NoSkip(w, s, topic, key)
  {
    var i := NextRow(w, s.publisher);
    var m, log, before := MessageFor(w.outbox[i]), ForKey(w.log, topic, key), KeyMessages(w.outbox[..i], topic, key);
    StepOnLog(w, s);
    ForKeyOneMore(w.log, m, topic, key);
    if IsFor(w.outbox[i], topic, key) {
      KeyMessagesDiffer(w.outbox, topic, key);
      KeyMessageAt(w.outbox, i, topic, key);
      EarlierAreForKey(w.outbox[..i], w.log, topic, key);
      OrderGoesOnIff(log, KeyMessages(w.outbox, topic, key), before, m);
    } else {
      assert log + [] == log;
    }
  }

  lemma StepKeepsKeyOrderIff(w: World, s: Step, topic: Topic, key: string)
    requires Inv(w)
    ensures InKeyOrder(Next(w, s), topic, key) <==> InKeyOrder(w, topic, key) && NoSkip(w, s, topic, key)
  {
    StepOnLog(w, s);
    if Delivers(w, s) {
      DeliverKeepsKeyOrderIff(w, s, topic, key);
    } else if s.Insert? && FreshEvent(w.outbox, s.row) {
      InsertKeepsKeyOrderIff(w, s.row, topic, key);
    }
  }

  /** No message of the run skips an earlier one of its partition. */
  ghost predicate NeverSkips(steps: seq<Step>, topic: Topic, key: string) {
    steps == [] ||
    (NeverSkips(steps[..|steps| - 1], topic, key) && NoSkip(Run(steps[..|steps| - 1]), steps[|steps| - 1], topic, key))
  }

  /** Main result for any number of publishers: a partition's log without repeats is the messages of its first rows
      in creation order exactly when no send, confirmed or not, ever comes before that of an earlier row. */
  lemma {:induction false} KeyOrderIff(steps: seq<Step>, topic: Topic, key: string)
    ensures InKeyOrder(Run(steps), topic, key) <==> NeverSkips(steps, topic, key)
  {
    if steps == [] {
      assert Dedup(ForKey([], topic, key)) == [];
    } else {
      KeyOrderIff(steps[..|steps| - 1], topic, key);
      EveryRunKeepsInv(steps[..|steps| - 1]);
      StepKeepsKeyOrderIff(Run(steps[..|steps| - 1]), steps[|steps| - 1], topic, key);
    }
  }

  lemma OneAtMost<T>(s: seq<T>, all: seq<T>)
    requires Distinct(s) && |all| <= 1 && forall x :: x in s ==> x in all
    ensures s <= all
  {
    if s != [] {
      assert s[0] in all && all == [s[0]];
      assert s[|s| - 1] in all;
    }
  }

  /** A partition with one row at most is always in order. */
  lemma OneRowIsInOrder(w: World, topic: Topic, key: string)
    requires Inv(w) && |KeyMessages(w.outbox, topic, key)| <= 1
    ensures InKeyOrder(w, topic, key)
  {
    LoggedAreKeyMessages(w, topic, key);
    DedupAre(ForKey(w.log, topic, key));
    OneAtMost(Dedup(ForKey(w.log, topic, key)), KeyMessages(w.outbox, topic, key));
  }

  lemma OriginIsLogged(w: World, j: nat)
    requires Faithful(w) && j in w.origins
    ensures IsCopy(w, MessageFor(w.outbox[j]), j) && MessageFor(w.outbox[j]) in w.log
  {
    var k :| 0 <= k < |w.origins| && w.origins[k] == j;
    assert IsCopy(w, w.log[k], w.origins[k]);
  }

  lemma SentIsLogged(w: World, t: nat, i: nat, topic: Topic, key: string)
    requires Inv(w) && Dedup(w.origins) == Range(0, t) && i <= t && i <= |w.outbox|
    ensures forall m :: m in KeyMessages(w.outbox[..i], topic, key) ==> m in w.log
  {
    KeyMessagesAre(w.outbox[..i], topic, key);
    DedupAre(w.origins);
    forall m | HasRow(w.outbox[..i], topic, key, m) ensures m in w.log {
      var j :| 0 <= j < i && IsFor(w.outbox[..i][j], topic, key) && m == MessageFor(w.outbox[..i][j]);
      assert Range(0, t)[j] == j;
      OriginIsLogged(w, j);
    }
  }

  /** One publisher at a time never skips. */
  lemma {:induction false} SoloNeverSkips(steps: seq<Step>, topic: Topic, key: string)
    requires Solo(steps)
    ensures NeverSkips(steps, topic, key)
  {
    if steps != [] {
      var init, last := steps[..|steps| - 1], steps[|steps| - 1];
      SoloNeverSkips(init, topic, key);
      var m, t := SoloKeepsOrder(init);
      EveryRunKeepsInv(init);
      if Delivers(Run(init), last) {
        assert Continues(Run(init).open[last.publisher], m, t, |Run(init).outbox|);
        SentIsLogged(Run(init), t, NextRow(Run(init), last.publisher), topic, key);
      }
    }
  }

  // ---------------------------------------------------------------- what a claim skips

  lemma ClaimStartsFree(w: World, limit: nat, t: nat)
    requires Claimed(w, limit) != []
    ensures Claimed(w, limit)[0] < |w.outbox|
    ensures Claimed(w, limit)[0] <= t <==> exists i: nat :: i <= t && Free(w, i)
  {
    var c := Claimed(w, limit);
    FirstFreeAre(|w.outbox|, w.published + Locked(w), limit, 0);
    ClaimIsFull(w, limit);
    assert c[0] in c && Free(w, c[0]);
    forall i: nat | Free(w, i) ensures c[0] <= i {
      assert i < c[0] ==> i in c;
    }
  }

  lemma SkipsBreakOrder(origins: seq<nat>, t: nat, x: nat)
    requires Dedup(origins) == Range(0, t) && x > t
    ensures forall u: nat :: Dedup(origins + [x]) != Range(0, u)
  {
    DedupAre(origins);
    DedupOneMore(origins, x);
    assert (Range(0, t) + [x])[t] == x;
    forall u: nat ensures Range(0, t) + [x] != Range(0, u) {
      assert u > t ==> Range(0, u)[t] == t;
    }
  }

  lemma FreshClaimSends(w: World, p: nat, limit: nat)
    requires p !in w.open && Sendable(w.outbox) && Claimed(w, limit) != [] && Claimed(w, limit)[0] < |w.outbox|
    ensures Next(Next(w, Claim(p, limit)), Send(p, true, true)).origins == w.origins + [Claimed(w, limit)[0]]
  {}

  /** While the first `t` rows have been sent in order, a new claim's first send keeps the order exactly when the
      claim starts at row `t` or before, that is, when one of those is free: the others are published or locked. */
  lemma FreshClaimKeepsOrderIff(w: World, p: nat, limit: nat, t: nat)
    requires Inv(w) && Dedup(w.origins) == Range(0, t) && p !in w.open && Sendable(w.outbox) && Claimed(w, limit) != []
    ensures var origins := Next(Next(w, Claim(p, limit)), Send(p, true, true)).origins;
      (exists u: nat :: Dedup(origins) == Range(0, u)) <==> Claimed(w, limit)[0] <= t
    ensures Claimed(w, limit)[0] <= t <==> exists i: nat :: i <= t && Free(w, i)
  {
    ClaimStartsFree(w, limit, t);
    FreshClaimSends(w, p, limit);
    if Claimed(w, limit)[0] <= t {
      SendsNext(w.origins, t, Claimed(w, limit)[0]);
    } else {
      SkipsBreakOrder(w.origins, t, Claimed(w, limit)[0]);
    }
  }

  /** Two publishers claim a row each, and the second sends and commits first. */
  function SecondFirst(w: World): World {
    var claimed := Next(Next(w, Claim(0, 1)), Claim(1, 1));
    var second := Next(Next(claimed, Send(1, true, true)), Commit(1, true));
    Next(Next(second, Send(0, true, true)), Commit(0, true))
  }

  lemma ClaimFirst(w: World)
    requires |w.outbox| == 2 && w.published == {} && w.open == map[]
    ensures Claimed(w, 1) == [0]
  {
    assert Locked(w) == {};
    assert FirstFree(2, w.published + Locked(w), 1, 0) == [0] + FirstFree(2, w.published + Locked(w), 0, 1);
  }

  lemma ClaimSecond(w: World)
    requires |w.outbox| == 2 && w.published == {} && w.open == map[0 := Batch([0], 0)]
    ensures Claimed(w, 1) == [1]
  {
    var taken := w.published + Locked(w);
    assert LockedBy(w.open, 0) by {
      assert 0 in w.open && 0 in w.open[0].claimed;
    }
    assert !LockedBy(w.open, 1);
    assert 0 in taken && 1 !in taken;
    assert FirstFree(2, taken, 1, 0) == FirstFree(2, taken, 1, 1) == [1] + FirstFree(2, taken, 0, 2);
  }

  lemma TwoClaims(w: World)
    requires |w.outbox| == 2 && w.published == {} && w.open == map[]
    ensures Next(Next(w, Claim(0, 1)), Claim(1, 1)) == w.(open := map[0 := Batch([0], 0), 1 := Batch([1], 0)])
  {
    ClaimFirst(w);
    assert Next(w, Claim(0, 1)) == w.(open := map[0 := Batch([0], 0)]);
    ClaimSecond(Next(w, Claim(0, 1)));
  }

  lemma SendAndCommit(w: World, p: nat, i: nat)
    requires p in w.open && w.open[p] == Batch([i], 0) && i < |w.outbox| && Sendable(w.outbox)
    ensures Next(Next(w, Send(p, true, true)), Commit(p, true)) ==
      w.(open := w.open - {p}, published := w.published + {i}, log := w.log + [MessageFor(w.outbox[i])], origins := w.origins + [i])
  {
    var b := Batch([i], 1);
    assert Next(w, Send(p, true, true)).open == w.open[p := b];
    assert SentRows(b) == {i} by {
      assert b.claimed[0] == i;
    }
    assert w.open[p := b] - {p} == w.open - {p};
  }

  lemma SecondComesFirst(w: World)
    requires |w.outbox| == 2 && w.published == {} && w.open == map[] && w.log == [] && w.origins == [] && Sendable(w.outbox)
    ensures SecondFirst(w) ==
      w.(published := {0, 1}, log := [MessageFor(w.outbox[1]), MessageFor(w.outbox[0])], origins := [1, 0])
  {
    TwoClaims(w);
    var claimed := Next(Next(w, Claim(0, 1)), Claim(1, 1));
    SendAndCommit(claimed, 1, 1);
    var second := Next(Next(claimed, Send(1, true, true)), Commit(1, true));
    assert second.open == map[0 := Batch([0], 0)];
    SendAndCommit(second, 0, 0);
    assert second.open - {0} == map[];
  }

  lemma SwappedPair(rows: seq<OutboxRow>, topic: Topic, key: string)
    requires |rows| == 2 && IsFor(rows[0], topic, key) && IsFor(rows[1], topic, key)
    ensures KeyMessages(rows, topic, key) == [MessageFor(rows[0]), MessageFor(rows[1])]
    ensures ForKey([MessageFor(rows[1]), MessageFor(rows[0])], topic, key) == [MessageFor(rows[1]), MessageFor(rows[0])]
  {
    var m0, m1 := MessageFor(rows[0]), MessageFor(rows[1]);
    ForKeyOneMore([], m1, topic, key);
    ForKeyOneMore([m1], m0, topic, key);
    assert [] + [m1] == [m1] && [m1] + [m0] == [m1, m0];
    assert rows[..1] == [rows[0]] && rows[..1][..0] == [];
    assert KeyMessages(rows[..1], topic, key) == [] + [m0];
  }

  lemma PairIsDistinct<T>(x: T, y: T)
    requires x != y
    ensures Dedup([x, y]) == [x, y]
  {
    DedupOneMore([], x);
    DedupOneMore([x], y);
    assert [] + [x] == [x] && [x] + [y] == [x, y];
  }

  /** Two rows of one partition, published by two publishers: their order is not kept. */
  lemma TwoPublishersReorder(w: World, topic: Topic, key: string)
    requires |w.outbox| == 2 && w.published == {} && w.open == map[] && w.log == [] && w.origins == []
    requires IsFor(w.outbox[0], topic, key) && IsFor(w.outbox[1], topic, key) && w.outbox[0].eventId != w.outbox[1].eventId
    ensures ForKey(SecondFirst(w).log, topic, key) == [MessageFor(w.outbox[1]), MessageFor(w.outbox[0])]
    ensures KeyMessages(w.outbox, topic, key) == [MessageFor(w.outbox[0]), MessageFor(w.outbox[1])]
    ensures !InKeyOrder(SecondFirst(w), topic, key)
  {
    SecondComesFirst(w);
    SwappedPair(w.outbox, topic, key);
    PairIsDistinct(MessageFor(w.outbox[1]), MessageFor(w.outbox[0]));
  }

  // ---------------------------------------------------------------- a consumer that skips repeats

  /** A consumer of one partition: where it reads next, the ids it has recorded, and what it has applied.
      `reached` is history: how far it has ever read. */
  datatype Consumer = Consumer(position: nat, marked: set<string>, applied: seq<Message>, reached: nat)

  /** Reading one message, where a crash may come between the record and the effect; or restarting from an
      earlier offset. */
  datatype Event = Take(completes: bool) | Rewind(to: nat)

  const Fresh: Consumer := Consumer(0, {}, [], 0)

  function Consume(log: seq<Message>, c: Consumer, e: Event): Consumer {
    match e
    case Rewind(to) => if to <= c.position then c.(position := to) else c
    case Take(completes) =>
      if c.position >= |log| then c else
      var m, reached := log[c.position], if c.reached <= c.position then c.position + 1 else c.reached;
      if m.envelope.eventId in c.marked then c.(position := c.position + 1, reached := reached)
      else Consumer(c.position + 1, c.marked + {m.envelope.eventId}, c.applied + if completes then [m] else [], reached)
  }

  function ConsumeAll(log: seq<Message>, events: seq<Event>): Consumer {
    if events == [] then Fresh else Consume(log, ConsumeAll(log, events[..|events| - 1]), events[|events| - 1])
  }

  /** `a` is what is left of `b` after dropping some entries. */
  predicate IsSubsequence<T(==)>(a: seq<T>, b: seq<T>) {
    a == [] ||
    (b != [] && (IsSubsequence(a, b[..|b| - 1]) ||
                 (a[|a| - 1] == b[|b| - 1] && IsSubsequence(a[..|a| - 1], b[..|b| - 1]))))
  }

  lemma SubsequenceOneMore<T>(a: seq<T>, b: seq<T>, x: T)
    requires IsSubsequence(a, b)
    ensures IsSubsequence(a, b + [x]) && IsSubsequence(a + [x], b + [x])
  {
    Snoc(a, x);
    Snoc(b, x);
  }

  /** No two different messages carry the same event id. */
  ghost predicate IdsIdentify(log: seq<Message>) {
    forall k, l :: 0 <= k < |log| && 0 <= l < |log| && log[k].envelope.eventId == log[l].envelope.eventId ==> log[k] == log[l]
  }

  ghost predicate CaughtUp(log: seq<Message>, c: Consumer) {
    && c.position <= c.reached <= |log|
    && (forall k :: 0 <= k < c.reached ==> log[k].envelope.eventId in c.marked)
    && (forall id :: id in c.marked ==> exists k :: 0 <= k < c.reached && log[k].envelope.eventId == id)
    && IsSubsequence(c.applied, Dedup(log[..c.reached]))
  }

  lemma TakeIsNew(log: seq<Message>, c: Consumer)
    requires IdsIdentify(log) && CaughtUp(log, c) && c.position < |log|
    ensures log[c.position].envelope.eventId !in c.marked ==> c.position == c.reached
    ensures c.position == c.reached ==>
      (log[c.position].envelope.eventId in c.marked <==> log[c.position] in log[..c.reached])
  {
    var m := log[c.position];
    if c.position == c.reached {
      if m.envelope.eventId in c.marked {
        var k :| 0 <= k < c.reached && log[k].envelope.eventId == m.envelope.eventId;
        assert log[..c.reached][k] == m;
      }
      if m in log[..c.reached] {
        var k :| 0 <= k < c.reached && log[..c.reached][k] == m;
        assert log[k] == m;
      }
    }
  }

  lemma NextApplied(before: seq<Message>, applied: seq<Message>, m: Message, applies: bool)
    requires IsSubsequence(applied, Dedup(before)) && (applies ==> m !in before)
    ensures IsSubsequence(applied + if applies then [m] else [], Dedup(before + [m]))
  {
    DedupOneMore(before, m);
    SubsequenceOneMore(applied, Dedup(before), m);
    assert applied + [] == applied && Dedup(before) + [] == Dedup(before);
  }

  lemma AppliedInOrder(log: seq<Message>, c: Consumer, completes: bool)
    requires IdsIdentify(log) && CaughtUp(log, c) && c.position == c.reached < |log|
    ensures var c' := Consume(log, c, Take(completes));
      IsSubsequence(c'.applied, Dedup(log[..c'.reached]))
  {
    var m, before := log[c.position], log[..c.position];
    TakeIsNew(log, c);
    TakeOneMore(log, c.position);
    NextApplied(before, c.applied, m, completes && m !in before);
    assert c.applied + [] == c.applied;
  }

  lemma ConsumeStaysCaughtUp(log: seq<Message>, c: Consumer, e: Event)
    requires IdsIdentify(log) && CaughtUp(log, c)
    ensures CaughtUp(log, Consume(log, c, e))
  {
    if e.Take? && c.position < |log| {
      TakeIsNew(log, c);
      if c.position == c.reached {
        AppliedInOrder(log, c, e.completes);
      }
    }
  }

  lemma {:induction false} ConsumerIsCaughtUp(log: seq<Message>, events: seq<Event>)
    requires IdsIdentify(log)
    ensures CaughtUp(log, ConsumeAll(log, events))
  {
    if events == [] {
    } else {
      ConsumerIsCaughtUp(log, events[..|events| - 1]);
      ConsumeStaysCaughtUp(log, ConsumeAll(log, events[..|events| - 1]), events[|events| - 1]);
    }
  }

  // ---------------------------------------------------------------- end to end

  lemma {:induction false} SubsequenceOfPrefix<T>(a: seq<T>, b: seq<T>, c: seq<T>)
    requires IsSubsequence(a, b) && b <= c
    ensures IsSubsequence(a, c)
    decreases |c|
  {
    if |b| == |c| {
      WholePrefix(b, c);
    } else {
      PrefixOfInit(b, c);
      SubsequenceOfPrefix(a, b, c[..|c| - 1]);
    }
  }

  lemma {:induction false} DedupOfPrefix<T>(s: seq<T>, n: nat)
    requires n <= |s|
    ensures Dedup(s[..n]) <= Dedup(s)
    decreases |s|
  {
    if n == |s| {
      TakeAll(s);
    } else {
      TakeTake(s, n, |s| - 1);
      DedupOfPrefix(s[..|s| - 1], n);
    }
  }

  lemma LogIdsIdentify(w: World)
    requires Faithful(w)
    ensures IdsIdentify(w.log)
  {
    forall k, l | 0 <= k < |w.log| && 0 <= l < |w.log| && w.log[k].envelope.eventId == w.log[l].envelope.eventId
      ensures w.log[k] == w.log[l]
    {
      assert IsCopy(w, w.log[k], w.origins[k]) && IsCopy(w, w.log[l], w.origins[l]);
    }
  }

  lemma PartitionIdsIdentify(w: World, topic: Topic, key: string)
    requires Inv(w)
    ensures IdsIdentify(ForKey(w.log, topic, key))
  {
    var log := ForKey(w.log, topic, key);
    LogIdsIdentify(w);
    ForKeyAre(w.log, topic, key);
    forall k, l | 0 <= k < |log| && 0 <= l < |log| && log[k].envelope.eventId == log[l].envelope.eventId ensures log[k] == log[l] {
      assert log[k] in w.log && log[l] in w.log;
    }
  }

  lemma TakeKeepsNoGap(log: seq<Message>, c: Consumer)
    requires IdsIdentify(log) && CaughtUp(log, c) && c.position == c.reached < |log|
    requires c.applied == Dedup(log[..c.position])
    ensures Consume(log, c, Take(true)).reached == c.position + 1
    ensures Consume(log, c, Take(true)).applied == Dedup(log[..c.position + 1])
  {
    var m, before := log[c.position], log[..c.position];
    TakeIsNew(log, c);
    TakeOneMore(log, c.position);
    DedupOneMore(before, m);
    assert c.applied + [] == c.applied;
  }

  lemma NoGapIsKept(log: seq<Message>, c: Consumer, e: Event)
    requires IdsIdentify(log) && CaughtUp(log, c) && e != Take(false)
    requires c.applied == Dedup(log[..c.reached])
    ensures Consume(log, c, e).reached <= |log| && Consume(log, c, e).applied == Dedup(log[..Consume(log, c, e).reached])
  {
    if e.Take? && c.position < |log| {
      TakeIsNew(log, c);
      if c.position == c.reached {
        TakeKeepsNoGap(log, c);
      }
    }
  }

  lemma {:induction false} CompleteConsumerHasNoGap(log: seq<Message>, events: seq<Event>)
    requires IdsIdentify(log)
    requires forall i :: 0 <= i < |events| ==> events[i] != Take(false)
    ensures ConsumeAll(log, events).reached <= |log|
    ensures ConsumeAll(log, events).applied == Dedup(log[..ConsumeAll(log, events).reached])
  {
    if events != [] {
      var before := ConsumeAll(log, events[..|events| - 1]);
      CompleteConsumerHasNoGap(log, events[..|events| - 1]);
      ConsumerIsCaughtUp(log, events[..|events| - 1]);
      NoGapIsKept(log, before, events[|events| - 1]);
    }
  }

  /** A partition that is in order, and a consumer of it that skips recorded ids, restarts where it likes, and may
      crash after recording: it applies messages of distinct rows, in the rows' creation order, each at most once;
      and if it never crashes there, the first such rows without a gap. */
  lemma ConsumerAppliesInOrder(steps: seq<Step>, topic: Topic, key: string, events: seq<Event>)
    requires InKeyOrder(Run(steps), topic, key)
    ensures var w := Run(steps);
      && IsSubsequence(ConsumeAll(ForKey(w.log, topic, key), events).applied, KeyMessages(w.outbox, topic, key))
      && ((forall i :: 0 <= i < |events| ==> events[i] != Take(false)) ==>
            ConsumeAll(ForKey(w.log, topic, key), events).applied <= KeyMessages(w.outbox, topic, key))
  {
    var w := Run(steps);
    var log := ForKey(w.log, topic, key);
    EveryRunKeepsInv(steps);
    PartitionIdsIdentify(w, topic, key);
    ConsumerIsCaughtUp(log, events);
    var c := ConsumeAll(log, events);
    DedupOfPrefix(log, c.reached);
    SubsequenceOfPrefix(c.applied, Dedup(log[..c.reached]), KeyMessages(w.outbox, topic, key));
    if forall i :: 0 <= i < |events| ==> events[i] != Take(false) {
      CompleteConsumerHasNoGap(log, events);
    }
  }

  lemma {:induction false} AppliedAreMarked(log: seq<Message>, events: seq<Event>)
    ensures forall m :: m in ConsumeAll(log, events).applied ==> m.envelope.eventId in ConsumeAll(log, events).marked
  {
    if events != [] {
      AppliedAreMarked(log, events[..|events| - 1]);
    }
  }

  /** Marked, but not applied. */
  ghost predicate Skipped(c: Consumer, m: Message) { m.envelope.eventId in c.marked && m !in c.applied }

  lemma {:induction false} SkippedStays(log: seq<Message>, events: seq<Event>, more: seq<Event>, m: Message)
    requires Skipped(ConsumeAll(log, events), m)
    ensures Skipped(ConsumeAll(log, events + more), m)
  {
    if more == [] {
      assert events + more == events;
    } else {
      InitOfConcat(events, more);
      SkippedStays(log, events, more[..|more| - 1], m);
    }
  }

  /** A crash between the record of a new message and its effect loses it: whatever is read again, and however
      often, it is never applied. */
  lemma CrashedMessageIsNeverApplied(log: seq<Message>, events: seq<Event>, more: seq<Event>)
    requires ConsumeAll(log, events).position < |log|
    requires log[ConsumeAll(log, events).position].envelope.eventId !in ConsumeAll(log, events).marked
    ensures log[ConsumeAll(log, events).position] !in ConsumeAll(log, (events + [Take(false)]) + more).applied
  {
    AppliedAreMarked(log, events);
    Snoc(events, Take(false));
    SkippedStays(log, events + [Take(false)], more, log[ConsumeAll(log, events).position]);
  }

  /** A restart from an earlier offset reads from there on. */
  lemma RewoundIsReadAgain(log: seq<Message>, events: seq<Event>, to: nat)
    requires to <= ConsumeAll(log, events).position
    ensures ConsumeAll(log, events + [Rewind(to)]) == ConsumeAll(log, events).(position := to)
  {
    Snoc(events, Rewind(to));
  }

  function Reads(n: nat): seq<Event> { seq(n, _ => Take(true)) }

  lemma {:induction false} ReadsReach(log: seq<Message>, n: nat)
    requires n <= |log|
    ensures ConsumeAll(log, Reads(n)).position == ConsumeAll(log, Reads(n)).reached == n
  {
    if n > 0 {
      ReadsReach(log, n - 1);
      assert Reads(n) == Reads(n - 1) + [Take(true)];
      Snoc(Reads(n - 1), Take(true));
    }
  }

  /** The consumer that just reads on applies the rows in creation order exactly when the partition is in order. */
  lemma ReaderAppliesInOrderIff(steps: seq<Step>, topic: Topic, key: string)
    ensures var w := Run(steps);
      var log := ForKey(w.log, topic, key);
      ConsumeAll(log, Reads(|log|)).applied <= KeyMessages(w.outbox, topic, key) <==> InKeyOrder(w, topic, key)
  {
    var log := ForKey(Run(steps).log, topic, key);
    EveryRunKeepsInv(steps);
    PartitionIdsIdentify(Run(steps), topic, key);
    ReadsReach(log, |log|);
    CompleteConsumerHasNoGap(log, Reads(|log|));
    TakeAll(log);
  }
}
