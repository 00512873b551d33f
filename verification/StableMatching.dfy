/** The tracker's matching of one frame is the only stable one, ties included, and what a frame makes of it. */
module StableMatching {
  import opened Wrappers
  import opened Geometry
  import opened StableSort
  import opened Tracking

  // ---------------------------------------------------------------- the order of the candidates

  /** Track by track, and for each track detection by detection. */
  ghost predicate Earlier(p: Pair, q: Pair) {
    p.track < q.track || (p.track == q.track && p.detection < q.detection)
  }

  ghost predicate InOrder(s: seq<Keyed<Pair>>) { forall i, j :: 0 <= i < j < |s| ==> Earlier(s[i].item, s[j].item) }

  lemma {:induction false} RowIsInOrder(c: Config, tracks: seq<Track>, dets: seq<Detection>, ti: nat, n: nat)
    requires ti < |tracks| && n <= |dets|
    ensures InOrder(CandidateRow(c, tracks, dets, ti, n))
  {
    if n > 0 {
      RowIsInOrder(c, tracks, dets, ti, n - 1);
      CandidateRowIsExact(c, tracks, dets, ti, n - 1);
      var row := CandidateRow(c, tracks, dets, ti, n - 1);
      forall i | 0 <= i < |row| ensures Earlier(row[i].item, Pair(ti, n - 1)) {
        assert row[i] in row;
      }
    }
  }

  lemma {:induction false} CandidatesAreInOrder(c: Config, tracks: seq<Track>, dets: seq<Detection>, m: nat)
    requires m <= |tracks|
    ensures InOrder(Candidates(c, tracks, dets, m))
  {
    if m > 0 {
      CandidatesAreInOrder(c, tracks, dets, m - 1);
      CandidatesAreExact(c, tracks, dets, m - 1);
      RowIsInOrder(c, tracks, dets, m - 1, |dets|);
      CandidateRowIsExact(c, tracks, dets, m - 1, |dets|);
      var before, row := Candidates(c, tracks, dets, m - 1), CandidateRow(c, tracks, dets, m - 1, |dets|);
      forall i, j | 0 <= i < |before| && 0 <= j < |row| ensures Earlier(before[i].item, row[j].item) {
        assert before[i] in before && row[j] in row;
      }
    }
  }

  /** The first wins over the second: a greater IoU, or an equal one and found earlier. */
  ghost predicate Wins(x: Keyed<Pair>, y: Keyed<Pair>) { x.key > y.key || (x.key == y.key && Earlier(x.item, y.item)) }

  ghost predicate Ranked(s: seq<Keyed<Pair>>) { forall i, j :: 0 <= i < j < |s| ==> Wins(s[i], s[j]) }

  ghost predicate FirstOf(x: Keyed<Pair>, s: seq<Keyed<Pair>>) { forall y :: y in s ==> Earlier(x.item, y.item) }

  lemma {:induction false} InsertAre(x: Keyed<Pair>, s: seq<Keyed<Pair>>)
    ensures forall y :: y in InsertDescending(x, s) <==> y == x || y in s
  {
    InsertKeepsEntries(x, s);
    forall y ensures y in InsertDescending(x, s) <==> y == x || y in s {
      assert y in InsertDescending(x, s) <==> y in multiset(InsertDescending(x, s));
    }
  }

  lemma {:induction false} InsertKeepsRanks(x: Keyed<Pair>, s: seq<Keyed<Pair>>)
    requires Ranked(s) && FirstOf(x, s)
    ensures Ranked(InsertDescending(x, s))
  {
    if s == [] {
    } else if s[0].key <= x.key {
      forall j | 0 <= j < |s| ensures Wins(x, s[j]) {
        assert s[j] in s;
        assert j > 0 ==> Wins(s[0], s[j]);
      }
    } else {
      var rest := InsertDescending(x, s[1..]);
      InsertKeepsRanks(x, s[1..]);
      InsertAre(x, s[1..]);
      forall j | 0 <= j < |rest| ensures Wins(s[0], rest[j]) {
        assert rest[j] in rest;
      }
    }
  }

  lemma SortAre(s: seq<Keyed<Pair>>)
    ensures forall y :: y in SortDescending(s) <==> y in s
  {
    SortIsStableSort(s);
    forall y ensures y in SortDescending(s) <==> y in s {
      assert y in SortDescending(s) <==> y in multiset(SortDescending(s));
    }
  }

  lemma {:induction false} SortRanks(s: seq<Keyed<Pair>>)
    requires InOrder(s)
    ensures Ranked(SortDescending(s))
  {
    if s != [] {
      SortRanks(s[1..]);
      SortAre(s[1..]);
      forall y | y in SortDescending(s[1..]) ensures Earlier(s[0].item, y.item) {
        var i :| 0 <= i < |s[1..]| && s[1..][i] == y;
        assert s[i + 1] == y;
      }
      InsertKeepsRanks(s[0], SortDescending(s[1..]));
    }
  }

  // ---------------------------------------------------------------- the only stable matching

  /** Track `t` and detection `d` may be matched: one class, and an IoU at the threshold or more. */
  ghost predicate MayMatch(c: Config, tracks: seq<Track>, dets: seq<Detection>, p: Pair) {
    && p.track < |tracks| && p.detection < |dets|
    && tracks[p.track].className == dets[p.detection].className
    && TrackerIou(tracks[p.track].box, dets[p.detection].box) >= c.iouThreshold
  }

  function Entry(tracks: seq<Track>, dets: seq<Detection>, p: Pair): Keyed<Pair>
    requires p.track < |tracks| && p.detection < |dets|
  {
    Keyed(TrackerIou(tracks[p.track].box, dets[p.detection].box), p)
  }

  /** The pair itself is matched, or one of its ends is, in a pair that wins over it. */
  ghost predicate Settled(c: Config, tracks: seq<Track>, dets: seq<Detection>, m: Matching, p: Pair)
    requires p.track < |tracks| && p.detection < |dets|
  {
    Matched(m, p) || exists q: Pair ::
      MayMatch(c, tracks, dets, q) && Matched(m, q) && (q.track == p.track || q.detection == p.detection)
      && Wins(Entry(tracks, dets, q), Entry(tracks, dets, p))
  }

  /** A one-to-one matching of pairs that may match, in which every other such pair loses an end to a better one. */
  ghost predicate Stable(c: Config, tracks: seq<Track>, dets: seq<Detection>, m: Matching) {
    && Injective(m)
    && (forall d :: d in m ==> MayMatch(c, tracks, dets, Pair(m[d], d)))
    && forall p: Pair :: MayMatch(c, tracks, dets, p) ==> Settled(c, tracks, dets, m, p)
  }

  /** The pairs that may match, best first. */
  ghost predicate BestFirst(c: Config, tracks: seq<Track>, dets: seq<Detection>, s: seq<Keyed<Pair>>) {
    && Ranked(s)
    && (forall i :: 0 <= i < |s| ==> MayMatch(c, tracks, dets, s[i].item) && s[i] == Entry(tracks, dets, s[i].item))
    && forall p: Pair :: MayMatch(c, tracks, dets, p) ==> exists i :: 0 <= i < |s| && s[i].item == p
  }

  lemma RankedCandidates(c: Config, tracks: seq<Track>, dets: seq<Detection>) returns (s: seq<Keyed<Pair>>)
    ensures s == SortDescending(Candidates(c, tracks, dets, |tracks|)) && Match(c, tracks, dets) == Greedy(s)
    ensures BestFirst(c, tracks, dets, s)
  {
    s := SortDescending(Candidates(c, tracks, dets, |tracks|));
    CandidatesAreInOrder(c, tracks, dets, |tracks|);
    SortRanks(Candidates(c, tracks, dets, |tracks|));
    SortedCandidatesAreExact(c, tracks, dets);
    forall i | 0 <= i < |s|
      ensures MayMatch(c, tracks, dets, s[i].item) && s[i] == Entry(tracks, dets, s[i].item)
    {
      assert s[i] in s;
    }
    forall p: Pair | MayMatch(c, tracks, dets, p) ensures exists i :: 0 <= i < |s| && s[i].item == p {
      assert IsCandidate(c, tracks, dets, Entry(tracks, dets, p));
      var i :| 0 <= i < |s| && s[i] == Entry(tracks, dets, p);
    }
  }

  lemma PairIsSettled(c: Config, tracks: seq<Track>, dets: seq<Detection>, s: seq<Keyed<Pair>>, m: Matching, k: nat)
    requires BestFirst(c, tracks, dets, s) && k < |s| && Served(s, m, k)
    ensures Settled(c, tracks, dets, m, s[k].item)
  {
    var j :| 0 <= j <= k && Matched(m, s[j].item) &&
      (s[j].item.track == s[k].item.track || s[j].item.detection == s[k].item.detection);
    if j < k {
      assert Wins(s[j], s[k]);
      assert MayMatch(c, tracks, dets, s[j].item);
    }
  }

  lemma MatchIsSettled(c: Config, tracks: seq<Track>, dets: seq<Detection>)
    ensures Stable(c, tracks, dets, Match(c, tracks, dets))
  {
    var s := RankedCandidates(c, tracks, dets);
    MatchUsesCandidates(c, tracks, dets);
    GreedyServes(s);
    forall p: Pair | MayMatch(c, tracks, dets, p) ensures Settled(c, tracks, dets, Greedy(s), p) {
      var k: nat :| k < |s| && s[k].item == p;
      PairIsSettled(c, tracks, dets, s, Greedy(s), k);
    }
  }

  /** A pair that a stable matching leaves out has lost an end to one further up. */
  lemma RivalIsEarlier(c: Config, tracks: seq<Track>, dets: seq<Detection>, n: Matching, s: seq<Keyed<Pair>>, k: nat) returns (j: nat)
    requires Stable(c, tracks, dets, n) && BestFirst(c, tracks, dets, s)
    requires k < |s| && !Matched(n, s[k].item)
    ensures j < k && Matched(n, s[j].item) && s[j].item != s[k].item
    ensures s[j].item.track == s[k].item.track || s[j].item.detection == s[k].item.detection
  {
    var p := s[k].item;
    assert Settled(c, tracks, dets, n, p);
    var q: Pair :| MayMatch(c, tracks, dets, q) && Matched(n, q) && (q.track == p.track || q.detection == p.detection)
      && Wins(Entry(tracks, dets, q), Entry(tracks, dets, p));
    j :| j < |s| && s[j].item == q;
    assert !Wins(s[k], s[j]);
  }

  lemma {:induction false} StableAgree(c: Config, tracks: seq<Track>, dets: seq<Detection>, m: Matching, n: Matching,
                                       s: seq<Keyed<Pair>>, k: nat)
    requires Stable(c, tracks, dets, m) && Stable(c, tracks, dets, n) && BestFirst(c, tracks, dets, s)
    requires k < |s| && Matched(m, s[k].item)
    ensures Matched(n, s[k].item)
    decreases k
  {
    if !Matched(n, s[k].item) {
      var j := RivalIsEarlier(c, tracks, dets, n, s, k);
      StableAgree(c, tracks, dets, n, m, s, j);
      assert false;
    }
  }

  lemma StableWithin(c: Config, tracks: seq<Track>, dets: seq<Detection>, m: Matching, n: Matching, d: nat)
    requires Stable(c, tracks, dets, m) && Stable(c, tracks, dets, n) && d in m
    ensures d in n && n[d] == m[d]
  {
    var s := RankedCandidates(c, tracks, dets);
    assert MayMatch(c, tracks, dets, Pair(m[d], d));
    var k: nat :| k < |s| && s[k].item == Pair(m[d], d);
    StableAgree(c, tracks, dets, m, n, s, k);
    assert Matched(n, Pair(m[d], d));
  }

  /** The frame's matching is the only stable one. */
  lemma StableIsMatch(c: Config, tracks: seq<Track>, dets: seq<Detection>, m: Matching)
    ensures Stable(c, tracks, dets, m) <==> m == Match(c, tracks, dets)
  {
    var n := Match(c, tracks, dets);
    MatchIsSettled(c, tracks, dets);
    if Stable(c, tracks, dets, m) {
      forall d | d in m ensures d in n && n[d] == m[d] {
        StableWithin(c, tracks, dets, m, n, d);
      }
      forall d | d in n ensures d in m {
        StableWithin(c, tracks, dets, n, m, d);
      }
    }
  }

  // ---------------------------------------------------------------- what a frame makes of it

  /** Track `i` is unmatched, and one more miss does not put it past the limit. */
  ghost predicate Survives(c: Config, tracks: seq<Track>, m: Matching, i: nat)
    requires i < |tracks|
  {
    (forall d :: d in m ==> m[d] != i) && tracks[i].misses + 1 <= c.maxMisses
  }

  /** The positions of those tracks, in order. */
  ghost predicate Keeps(c: Config, tracks: seq<Track>, m: Matching, n: nat, kept: seq<nat>) {
    && n <= |tracks|
    && (forall k :: 0 <= k < |kept| ==> kept[k] < n)
    && (forall k, l :: 0 <= k < l < |kept| ==> kept[k] < kept[l])
    && forall i: nat :: i < n ==> (i in kept <==> Survives(c, tracks, m, i))
  }

  /** The tracks at those positions, a miss older. */
  ghost predicate Older(tracks: seq<Track>, kept: seq<nat>, aged: seq<Track>) {
    && |aged| == |kept|
    && forall k :: 0 <= k < |kept| ==>
         kept[k] < |tracks| && aged[k] == tracks[kept[k]].(misses := tracks[kept[k]].misses + 1)
  }

  lemma KeepsOneMore(c: Config, tracks: seq<Track>, m: Matching, n: nat, rest: seq<nat>)
    requires Keeps(c, tracks, m, n, rest) && n < |tracks|
    ensures Keeps(c, tracks, m, n + 1, if Survives(c, tracks, m, n) then rest + [n] else rest)
  {
    var kept := if Survives(c, tracks, m, n) then rest + [n] else rest;
    forall i: nat | i <= n ensures i in kept <==> Survives(c, tracks, m, i) {
      assert n !in rest;
    }
  }

  lemma OlderOneMore(tracks: seq<Track>, rest: seq<nat>, aged: seq<Track>, n: nat)
    requires Older(tracks, rest, aged) && n < |tracks|
    ensures Older(tracks, rest + [n], aged + [tracks[n].(misses := tracks[n].misses + 1)])
  {}

  lemma OneMoreTrack(c: Config, tracks: seq<Track>, m: Matching, n: nat, rest: seq<nat>, before: seq<Track>)
    returns (kept: seq<nat>, aged: seq<Track>)
    requires n < |tracks| && Keeps(c, tracks, m, n, rest) && Older(tracks, rest, before)
    requires before == Aged(c, tracks, m, n)
    ensures Keeps(c, tracks, m, n + 1, kept) && Older(tracks, kept, aged)
    ensures aged == Aged(c, tracks, m, n + 1)
  {
    KeepsOneMore(c, tracks, m, n, rest);
    if Survives(c, tracks, m, n) {
      OlderOneMore(tracks, rest, before, n);
      kept, aged := rest + [n], before + [tracks[n].(misses := tracks[n].misses + 1)];
    } else {
      kept, aged := rest, before;
      assert before + [] == before;
    }
  }

  lemma {:induction false} AgedAreOlder(c: Config, tracks: seq<Track>, m: Matching, n: nat)
    returns (kept: seq<nat>, aged: seq<Track>)
    requires n <= |tracks|
    ensures aged == Aged(c, tracks, m, n)
    ensures Keeps(c, tracks, m, n, kept) && Older(tracks, kept, aged)
  {
    if n == 0 {
      kept, aged := [], [];
    } else {
      kept, aged := AgedAreOlder(c, tracks, m, n - 1);
      kept, aged := OneMoreTrack(c, tracks, m, n - 1, kept, aged);
    }
  }

  /** The unmatched ones among the first `n` detections. */
  function New(m: Matching, n: nat): set<nat> { set d: nat | d < n && d !in m }

  lemma {:induction false} UnmatchedCounts(m: Matching, n: nat)
    ensures Unmatched(m, n) == |New(m, n)|
  {
    if n > 0 {
      UnmatchedCounts(m, n - 1);
      assert New(m, n) == New(m, n - 1) + if n - 1 in m then {} else {n - 1};
    }
  }

  /** The track of detection `d` after the frame: its match, moved, or a new one; new ids follow the order of
      the detections. */
  ghost predicate TrackFor(s: State, dets: seq<Detection>, m: Matching, d: nat, t: Track)
    requires d < |dets| && InRange(m, s.tracks)
  {
    if d in m then t == s.tracks[m[d]].(box := dets[d].box, misses := 0)
    else t == Track(s.nextId + |New(m, d)|, dets[d].className, dets[d].box, 0)
  }

  /** One frame: the surviving tracks first, then every detection's track, whose id it is shown under. */
  lemma FrameMeans(c: Config, s: State, dets: seq<Detection>) returns (m: Matching, kept: seq<nat>)
    ensures Stable(c, s.tracks, dets, m) && InRange(m, s.tracks)
    ensures Keeps(c, s.tracks, m, |s.tracks|, kept)
    ensures var after, out := After(c, s, dets), Output(c, s, dets);
      && after.nextId == s.nextId + |New(m, |dets|)|
      && |after.tracks| == |kept| + |dets| && Older(s.tracks, kept, after.tracks[..|kept|])
      && |out| == |dets|
      && forall d: nat :: d < |dets| ==>
           TrackFor(s, dets, m, d, after.tracks[|kept| + d])
           && out[d] == dets[d].(trackId := Some(after.tracks[|kept| + d].id))
  {
    m := Match(c, s.tracks, dets);
    MatchIsSettled(c, s.tracks, dets);
    MatchIsUsable(c, s.tracks, dets);
    var aged;
    kept, aged := AgedAreOlder(c, s.tracks, m, |s.tracks|);
    PlacedAt(s, dets, m, |dets|);
    UnmatchedCounts(m, |dets|);
    var placed := Placed(s, dets, m, |dets|);
    assert (aged + placed)[..|aged|] == aged;
    forall d: nat | d < |dets| ensures TrackFor(s, dets, m, d, placed[d]) {
      UnmatchedCounts(m, d);
    }
  }
}
