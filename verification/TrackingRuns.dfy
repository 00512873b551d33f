/** What the tracker keeps over a whole run of frames. */
module TrackingRuns {
  import opened Sequences
  import opened Wrappers
  import opened Geometry
  import opened Tracking

  type Frame = seq<Detection>

  function Run(c: Config, frames: seq<Frame>): State {
    if frames == [] then Initial else After(c, Run(c, frames[..|frames| - 1]), frames[|frames| - 1])
  }

  function Outputs(c: Config, frames: seq<Frame>): seq<Frame> {
    if frames == [] then [] else
    var before := frames[..|frames| - 1];
    Outputs(c, before) + [Output(c, Run(c, before), frames[|frames| - 1])]
  }

  /** The allowance on misses; a negative limit behaves like 0. */
  function Patience(c: Config): nat { if c.maxMisses < 0 then 0 else c.maxMisses }

  ghost predicate Shows(outs: seq<Frame>, f: nat, d: nat, id: nat) {
    f < |outs| && d < |outs[f]| && outs[f][d].trackId == Some(id)
  }

  // ---------------------------------------------------------------- one frame

  lemma {:induction false} AgedAreOldTracks(c: Config, tracks: seq<Track>, m: Matching, n: nat)
    requires n <= |tracks|
    ensures forall t :: t in Aged(c, tracks, m, n) ==> exists i: nat ::
      i < n && i !in m.Values && t == tracks[i].(misses := tracks[i].misses + 1) && t.misses <= c.maxMisses
  {
    if n > 0 {
      AgedAreOldTracks(c, tracks, m, n - 1);
      var last := tracks[n - 1].(misses := tracks[n - 1].misses + 1);
      forall t | t in Aged(c, tracks, m, n) ensures exists i: nat ::
        i < n && i !in m.Values && t == tracks[i].(misses := tracks[i].misses + 1) && t.misses <= c.maxMisses
      {
        if t in Aged(c, tracks, m, n - 1) {
          var i: nat :| i < n - 1 && i !in m.Values && t == tracks[i].(misses := tracks[i].misses + 1) && t.misses <= c.maxMisses;
          assert i < n;
        } else {
          assert t == last;
        }
      }
    }
  }

  lemma {:induction false} UnmatchedIsMonotone(m: Matching, i: nat, n: nat)
    requires i <= n
    ensures Unmatched(m, i) <= Unmatched(m, n)
    ensures i < n && i !in m ==> Unmatched(m, i) < Unmatched(m, n)
    decreases n
  {
    if i < n {
      UnmatchedIsMonotone(m, i, n - 1);
    }
  }

  ghost predicate Distinct(tracks: seq<Track>) {
    forall i, j :: 0 <= i < j < |tracks| ==> tracks[i].id != tracks[j].id
  }

  ghost predicate Wellformed(c: Config, s: State) {
    && Distinct(s.tracks)
    && s.nextId >= 1
    && forall t :: t in s.tracks ==> 1 <= t.id < s.nextId && t.misses <= Patience(c)
  }

  /** The id detection `d` of a new frame gets. */
  function IdOf(s: State, dets: Frame, m: Matching, d: nat): nat
    requires d < |dets| && InRange(m, s.tracks)
  {
    TrackOf(s, dets, m, d).id
  }

  /** Detection `d` gets a live track's id exactly when it is matched, and otherwise one never used before. */
  lemma IdIsOldOrNew(c: Config, s: State, dets: Frame, m: Matching, d: nat)
    requires Wellformed(c, s) && Usable(c, s.tracks, dets, m) && d < |dets|
    ensures d in m ==> IdOf(s, dets, m, d) < s.nextId && s.tracks[m[d]].id == IdOf(s, dets, m, d)
    ensures d !in m ==> s.nextId <= IdOf(s, dets, m, d)
    ensures 1 <= IdOf(s, dets, m, d) < s.nextId + Unmatched(m, |dets|)
  {
    UnmatchedIsMonotone(m, d, |dets|);
    if d in m {
      assert s.tracks[m[d]] in s.tracks;
    }
  }

  lemma IdsAreDistinct(c: Config, s: State, dets: Frame, m: Matching, d: nat, e: nat)
    requires Wellformed(c, s) && Usable(c, s.tracks, dets, m) && d < e < |dets|
    ensures IdOf(s, dets, m, d) != IdOf(s, dets, m, e)
  {
    IdIsOldOrNew(c, s, dets, m, d);
    IdIsOldOrNew(c, s, dets, m, e);
    UnmatchedIsMonotone(m, d, e);
    if d in m && e in m {
      assert m[d] != m[e];
    }
  }

  /** A track after a frame is the place of one of its detections ... */
  ghost predicate Shown(s: State, dets: Frame, m: Matching, t: Track)
    requires InRange(m, s.tracks)
  {
    exists d: nat :: d < |dets| && t == TrackOf(s, dets, m, d)
  }

  /** ... or an old one, a miss older, whose id the frame does not show. */
  ghost predicate Missed(c: Config, s: State, dets: Frame, m: Matching, t: Track)
    requires InRange(m, s.tracks)
  {
    && 0 < t.misses <= c.maxMisses
    && t.(misses := t.misses - 1) in s.tracks
    && forall d: nat :: d < |dets| ==> IdOf(s, dets, m, d) != t.id
  }

  lemma AgedOrigin(c: Config, tracks: seq<Track>, m: Matching, t: Track) returns (i: nat)
    requires t in Aged(c, tracks, m, |tracks|)
    ensures i < |tracks| && i !in m.Values && 0 < t.misses <= c.maxMisses
    ensures t.(misses := t.misses - 1) == tracks[i] && tracks[i] in tracks
  {
    AgedAreOldTracks(c, tracks, m, |tracks|);
    i :| i < |tracks| && i !in m.Values && t == tracks[i].(misses := tracks[i].misses + 1) && t.misses <= c.maxMisses;
  }

  lemma UnmatchedIsNotShown(c: Config, s: State, dets: Frame, m: Matching, i: nat, d: nat)
    requires Wellformed(c, s) && Usable(c, s.tracks, dets, m)
    requires i < |s.tracks| && i !in m.Values && d < |dets|
    ensures IdOf(s, dets, m, d) != s.tracks[i].id
  {
    IdIsOldOrNew(c, s, dets, m, d);
    assert s.tracks[i] in s.tracks;
    if d in m {
      assert m[d] in m.Values;
      assert m[d] != i;
    }
  }

  lemma AgedIsMissed(c: Config, s: State, dets: Frame, m: Matching, t: Track)
    requires Wellformed(c, s) && Usable(c, s.tracks, dets, m)
    requires t in Aged(c, s.tracks, m, |s.tracks|)
    ensures Missed(c, s, dets, m, t)
  {
    var i := AgedOrigin(c, s.tracks, m, t);
    forall d: nat | d < |dets| ensures IdOf(s, dets, m, d) != t.id {
      UnmatchedIsNotShown(c, s, dets, m, i, d);
    }
  }

  lemma SurvivorIsShownOrMissed(c: Config, s: State, dets: Frame, m: Matching, t: Track)
    requires Wellformed(c, s) && Usable(c, s.tracks, dets, m)
    requires t in StateAfter(c, s, dets, m).tracks
    ensures Shown(s, dets, m, t) || Missed(c, s, dets, m, t)
  {
    if t in Aged(c, s.tracks, m, |s.tracks|) {
      AgedIsMissed(c, s, dets, m, t);
    } else {
      PlacedAt(s, dets, m, |dets|);
      var d: nat :| d < |dets| && Placed(s, dets, m, |dets|)[d] == t;
    }
  }

  lemma AgedIdIsOld(c: Config, tracks: seq<Track>, m: Matching, n: nat, i: nat)
    requires Distinct(tracks) && n < |tracks| && i < |Aged(c, tracks, m, n)|
    ensures Aged(c, tracks, m, n)[i].id != tracks[n].id
  {
    AgedAreOldTracks(c, tracks, m, n);
    assert Aged(c, tracks, m, n)[i] in Aged(c, tracks, m, n);
  }

  lemma {:induction false} AgedIsDistinct(c: Config, tracks: seq<Track>, m: Matching, n: nat)
    requires Distinct(tracks) && n <= |tracks|
    ensures Distinct(Aged(c, tracks, m, n))
  {
    if n > 0 {
      AgedIsDistinct(c, tracks, m, n - 1);
      var before := Aged(c, tracks, m, n - 1);
      forall i | 0 <= i < |before| ensures before[i].id != tracks[n - 1].id {
        AgedIdIsOld(c, tracks, m, n - 1, i);
      }
    }
  }

  lemma SurvivorsAreDistinct(c: Config, s: State, dets: Frame, m: Matching)
    requires Wellformed(c, s) && Usable(c, s.tracks, dets, m)
    ensures Distinct(StateAfter(c, s, dets, m).tracks)
  {
    var aged, placed := Aged(c, s.tracks, m, |s.tracks|), Placed(s, dets, m, |dets|);
    AgedIsDistinct(c, s.tracks, m, |s.tracks|);
    PlacedAt(s, dets, m, |dets|);
    forall i, j | 0 <= i < |aged| && 0 <= j < |placed| ensures aged[i].id != placed[j].id {
      AgedIsMissed(c, s, dets, m, aged[i]);
      assert placed[j].id == IdOf(s, dets, m, j);
    }
    forall i, j | 0 <= i < j < |placed| ensures placed[i].id != placed[j].id {
      IdsAreDistinct(c, s, dets, m, i, j);
    }
  }

  lemma WellformedIsKept(c: Config, s: State, dets: Frame, m: Matching)
    requires Wellformed(c, s) && Usable(c, s.tracks, dets, m)
    ensures Wellformed(c, StateAfter(c, s, dets, m))
  {
    var s' := StateAfter(c, s, dets, m);
    SurvivorsAreDistinct(c, s, dets, m);
    UnmatchedIsMonotone(m, 0, |dets|);
    forall t | t in s'.tracks ensures 1 <= t.id < s'.nextId && t.misses <= Patience(c) {
      SurvivorIsShownOrMissed(c, s, dets, m, t);
      if Missed(c, s, dets, m, t) {
        assert t.(misses := t.misses - 1) in s.tracks;
      } else {
        var d: nat :| d < |dets| && t == TrackOf(s, dets, m, d);
        IdIsOldOrNew(c, s, dets, m, d);
      }
    }
  }

  // ---------------------------------------------------------------- history

  ghost predicate ShowsAs(outs: seq<Frame>, f: nat, d: nat, t: Track) {
    Shows(outs, f, d, t.id) && outs[f][d].box == t.box && outs[f][d].className == t.className
  }

  ghost predicate SeenAt(outs: seq<Frame>, f: nat, t: Track) { exists d: nat :: ShowsAs(outs, f, d, t) }

  /** Track `t` was last shown `t.misses` frames before the latest one, as it is now. */
  ghost predicate LastShown(outs: seq<Frame>, t: Track) {
    && t.misses < |outs|
    && SeenAt(outs, |outs| - 1 - t.misses, t)
    && forall f: nat, d: nat :: Shows(outs, f, d, t.id) ==> f <= |outs| - 1 - t.misses
  }

  /** Two detections shown under one id, with no other between them. */
  ghost predicate Consecutive(outs: seq<Frame>, id: nat, f: nat, d: nat, g: nat, e: nat) {
    && f < g && Shows(outs, f, d, id) && Shows(outs, g, e, id)
    && forall h: nat, x: nat :: Shows(outs, h, x, id) ==> h <= f || g <= h
  }

  ghost predicate Linked(c: Config, a: Detection, b: Detection, gap: int) {
    && a.className == b.className
    && TrackerIou(a.box, b.box) >= c.iouThreshold
    && gap <= Patience(c) + 1
  }

  ghost predicate IdsWithin(outs: seq<Frame>, limit: nat) {
    forall f: nat, d: nat, id: nat :: Shows(outs, f, d, id) ==> 1 <= id < limit
  }

  ghost predicate OncePerFrame(outs: seq<Frame>) {
    forall f: nat, d: nat, e: nat, id: nat :: Shows(outs, f, d, id) && Shows(outs, f, e, id) ==> d == e
  }

  ghost predicate AllLinked(c: Config, outs: seq<Frame>) {
    forall id: nat, f: nat, d: nat, g: nat, e: nat :: Consecutive(outs, id, f, d, g, e) ==>
      Linked(c, outs[f][d], outs[g][e], g - f)
  }

  ghost predicate Faithful(c: Config, outs: seq<Frame>, s: State) {
    && Wellformed(c, s)
    && (forall t :: t in s.tracks ==> LastShown(outs, t))
    && IdsWithin(outs, s.nextId)
    && OncePerFrame(outs)
    && AllLinked(c, outs)
  }

  /** The new frame `o` shows exactly the ids of `dets` under `m`. */
  ghost predicate Depicts(s: State, dets: Frame, m: Matching, o: Frame)
    requires InRange(m, s.tracks)
  {
    |o| == |dets| && forall d: nat :: d < |dets| ==> o[d] == dets[d].(trackId := Some(IdOf(s, dets, m, d)))
  }

  lemma ShowsSplits(outs: seq<Frame>, o: Frame, f: nat, d: nat, id: nat)
    ensures Shows(outs + [o], f, d, id) <==>
      Shows(outs, f, d, id) || (f == |outs| && d < |o| && o[d].trackId == Some(id))
  {}

  lemma LastShownIsKept(c: Config, outs: seq<Frame>, s: State, dets: Frame, m: Matching, o: Frame, t: Track)
    requires Faithful(c, outs, s) && Usable(c, s.tracks, dets, m) && Depicts(s, dets, m, o)
    requires t in StateAfter(c, s, dets, m).tracks
    ensures LastShown(outs + [o], t)
  {
    var outs' := outs + [o];
    SurvivorIsShownOrMissed(c, s, dets, m, t);
    if Missed(c, s, dets, m, t) {
      var u := t.(misses := t.misses - 1);
      assert u in s.tracks && LastShown(outs, u);
      var f := |outs| - 1 - u.misses;
      var d: nat :| ShowsAs(outs, f, d, u);
      assert ShowsAs(outs', f, d, t);
      forall g: nat, e: nat | Shows(outs', g, e, t.id) ensures g <= f {
        ShowsSplits(outs, o, g, e, t.id);
        assert Shows(outs, g, e, u.id);
      }
    } else {
      var d: nat :| d < |dets| && t == TrackOf(s, dets, m, d);
      assert ShowsAs(outs', |outs|, d, t);
      assert |outs'| - 1 - t.misses == |outs|;
    }
  }

  lemma NewLinkIsSound(c: Config, outs: seq<Frame>, s: State, dets: Frame, m: Matching, o: Frame,
                       id: nat, f: nat, d: nat, e: nat)
    requires Faithful(c, outs, s) && Usable(c, s.tracks, dets, m) && Depicts(s, dets, m, o)
    requires Consecutive(outs + [o], id, f, d, |outs|, e)
    ensures Linked(c, outs[f][d], o[e], |outs| - f)
  {
    assert Shows(outs, f, d, id);
    assert IdOf(s, dets, m, e) == id;
    IdIsOldOrNew(c, s, dets, m, e);
    var t := s.tracks[m[e]];
    assert t in s.tracks && LastShown(outs, t);
    var last := |outs| - 1 - t.misses;
    var x: nat :| ShowsAs(outs, last, x, t);
    ShowsSplits(outs, o, last, x, id);
    assert last == f;
    assert Shows(outs, f, x, id);
    assert x == d;
  }

  lemma LinksAreKept(c: Config, outs: seq<Frame>, s: State, dets: Frame, m: Matching, o: Frame)
    requires Faithful(c, outs, s) && Usable(c, s.tracks, dets, m) && Depicts(s, dets, m, o)
    ensures AllLinked(c, outs + [o])
  {
    var outs' := outs + [o];
    forall id: nat, f: nat, d: nat, g: nat, e: nat | Consecutive(outs', id, f, d, g, e)
      ensures Linked(c, outs'[f][d], outs'[g][e], g - f)
    {
      if g < |outs| {
        forall h: nat, x: nat | Shows(outs, h, x, id) ensures h <= f || g <= h {
          ShowsSplits(outs, o, h, x, id);
        }
        assert Consecutive(outs, id, f, d, g, e);
      } else {
        NewLinkIsSound(c, outs, s, dets, m, o, id, f, d, e);
      }
    }
  }

  lemma IdsAreKept(c: Config, outs: seq<Frame>, s: State, dets: Frame, m: Matching, o: Frame)
    requires Faithful(c, outs, s) && Usable(c, s.tracks, dets, m) && Depicts(s, dets, m, o)
    ensures IdsWithin(outs + [o], StateAfter(c, s, dets, m).nextId)
    ensures OncePerFrame(outs + [o])
  {
    forall f: nat, d: nat, id: nat | Shows(outs + [o], f, d, id)
      ensures 1 <= id < StateAfter(c, s, dets, m).nextId
    {
      ShowsSplits(outs, o, f, d, id);
      if !Shows(outs, f, d, id) {
        IdIsOldOrNew(c, s, dets, m, d);
      }
    }
    forall f: nat, d: nat, e: nat, id: nat | Shows(outs + [o], f, d, id) && Shows(outs + [o], f, e, id)
      ensures d == e
    {
      ShowsSplits(outs, o, f, d, id);
      ShowsSplits(outs, o, f, e, id);
      if f == |outs| && d < e {
        IdsAreDistinct(c, s, dets, m, d, e);
      } else if f == |outs| && e < d {
        IdsAreDistinct(c, s, dets, m, e, d);
      }
    }
  }

  lemma FaithfulIsKept(c: Config, outs: seq<Frame>, s: State, dets: Frame, m: Matching, o: Frame)
    requires Faithful(c, outs, s) && Usable(c, s.tracks, dets, m) && Depicts(s, dets, m, o)
    ensures Faithful(c, outs + [o], StateAfter(c, s, dets, m))
  {
    WellformedIsKept(c, s, dets, m);
    forall t | t in StateAfter(c, s, dets, m).tracks ensures LastShown(outs + [o], t) {
      LastShownIsKept(c, outs, s, dets, m, o, t);
    }
    IdsAreKept(c, outs, s, dets, m, o);
    LinksAreKept(c, outs, s, dets, m, o);
  }

  /** Splits a run at its last frame, through that frame's matching. */
  lemma LastFrame(c: Config, frames: seq<Frame>) returns (before: seq<Frame>, s: State, dets: Frame, m: Matching, o: Frame)
    requires frames != []
    ensures before == frames[..|frames| - 1] && dets == frames[|frames| - 1] && s == Run(c, before)
    ensures Usable(c, s.tracks, dets, m) && Depicts(s, dets, m, o)
    ensures Run(c, frames) == StateAfter(c, s, dets, m)
    ensures Outputs(c, frames) == Outputs(c, before) + [o]
  {
    before, dets := frames[..|frames| - 1], frames[|frames| - 1];
    s := Run(c, before);
    m := Match(c, s.tracks, dets);
    o := Output(c, s, dets);
    MatchIsUsable(c, s.tracks, dets);
    PlacedAt(s, dets, m, |dets|);
  }

  /** Main invariant: over any frames, ids are unique within a frame, consecutive showings of an id agree on
      the class, overlap at the threshold or more, and are at most `maxMisses + 1` frames apart. */
  lemma {:induction false} RunIsFaithful(c: Config, frames: seq<Frame>)
    ensures |Outputs(c, frames)| == |frames|
    ensures Faithful(c, Outputs(c, frames), Run(c, frames))
  {
    if frames != [] {
      var before, s, dets, m, o := LastFrame(c, frames);
      RunIsFaithful(c, before);
      FaithfulIsKept(c, Outputs(c, before), s, dets, m, o);
    }
  }

  /** A track id keeps one class for the whole run. */
  lemma {:induction false} IdKeepsItsClass(c: Config, outs: seq<Frame>, s: State, id: nat, f: nat, d: nat, g: nat, e: nat)
    requires Faithful(c, outs, s)
    requires f <= g && Shows(outs, f, d, id) && Shows(outs, g, e, id)
    ensures outs[f][d].className == outs[g][e].className
    decreases g - f
  {
    if f == g {
    } else if h: nat, x: nat :| f < h < g && Shows(outs, h, x, id) {
      IdKeepsItsClass(c, outs, s, id, f, d, h, x);
      IdKeepsItsClass(c, outs, s, id, h, x, g, e);
    } else {
      assert Consecutive(outs, id, f, d, g, e);
    }
  }

  // ---------------------------------------------------------------- fate of a track

  ghost predicate Alive(s: State, id: nat) { exists t :: t in s.tracks && t.id == id }

  lemma {:induction false} AgedIsExact(c: Config, tracks: seq<Track>, m: Matching, n: nat, i: nat)
    requires i < n <= |tracks| && i !in m.Values && tracks[i].misses + 1 <= c.maxMisses
    ensures tracks[i].(misses := tracks[i].misses + 1) in Aged(c, tracks, m, n)
  {
    if i < n - 1 {
      AgedIsExact(c, tracks, m, n - 1, i);
    }
  }

  lemma UnmatchedWithinLimitSurvives(c: Config, s: State, dets: Frame, m: Matching, i: nat)
    requires InRange(m, s.tracks) && i < |s.tracks|
    requires i !in m.Values && s.tracks[i].misses + 1 <= c.maxMisses
    ensures s.tracks[i].(misses := s.tracks[i].misses + 1) in StateAfter(c, s, dets, m).tracks
    ensures Alive(StateAfter(c, s, dets, m), s.tracks[i].id)
  {
    var t := s.tracks[i].(misses := s.tracks[i].misses + 1);
    AgedIsExact(c, s.tracks, m, |s.tracks|, i);
    assert t in StateAfter(c, s, dets, m).tracks;
  }

  lemma UnmatchedPastLimitIsDropped(c: Config, s: State, dets: Frame, m: Matching, i: nat)
    requires Wellformed(c, s) && Usable(c, s.tracks, dets, m) && i < |s.tracks|
    requires i !in m.Values && s.tracks[i].misses + 1 > c.maxMisses
    ensures !Alive(StateAfter(c, s, dets, m), s.tracks[i].id)
  {
    var id := s.tracks[i].id;
    assert s.tracks[i] in s.tracks;
    forall u | u in StateAfter(c, s, dets, m).tracks ensures u.id != id {
      SurvivorIsShownOrMissed(c, s, dets, m, u);
      if Missed(c, s, dets, m, u) {
        assert u.(misses := u.misses - 1) in s.tracks;
      } else {
        var d: nat :| d < |dets| && u == TrackOf(s, dets, m, d);
        IdIsOldOrNew(c, s, dets, m, d);
        if d in m {
          assert m[d] in m.Values;
        }
      }
    }
  }

  /** What becomes of live track `i`: matched, it moves to its detection; unmatched, it lives on with one more
      miss exactly while that stays within the limit. Every detection's track is live afterwards. */
  lemma TrackFate(c: Config, s: State, dets: Frame, m: Matching, i: nat)
    requires Wellformed(c, s) && Usable(c, s.tracks, dets, m) && i < |s.tracks|
    ensures var t := s.tracks[i];
      && (forall d :: d in m && m[d] == i ==> t.(box := dets[d].box, misses := 0) in StateAfter(c, s, dets, m).tracks)
      && (i !in m.Values ==>
          (Alive(StateAfter(c, s, dets, m), t.id) <==> t.misses + 1 <= c.maxMisses) &&
          (t.misses + 1 <= c.maxMisses ==> t.(misses := t.misses + 1) in StateAfter(c, s, dets, m).tracks))
    ensures forall d: nat :: d < |dets| ==> TrackOf(s, dets, m, d) in StateAfter(c, s, dets, m).tracks
  {
    var t, s' := s.tracks[i], StateAfter(c, s, dets, m);
    PlacedAt(s, dets, m, |dets|);
    forall d: nat | d < |dets| ensures TrackOf(s, dets, m, d) in s'.tracks {
      assert Placed(s, dets, m, |dets|)[d] in Placed(s, dets, m, |dets|);
    }
    if i !in m.Values {
      if t.misses + 1 <= c.maxMisses {
        UnmatchedWithinLimitSurvives(c, s, dets, m, i);
      } else {
        UnmatchedPastLimitIsDropped(c, s, dets, m, i);
      }
    }
  }

  // ---------------------------------------------------------------- every id is shown

  lemma {:induction false} UnmatchedIsOnto(m: Matching, n: nat, k: nat)
    requires k < Unmatched(m, n)
    ensures exists d: nat :: d < n && d !in m && Unmatched(m, d) == k
  {
    if k < Unmatched(m, n - 1) {
      UnmatchedIsOnto(m, n - 1, k);
      var d: nat :| d < n - 1 && d !in m && Unmatched(m, d) == k;
      assert d < n;
    } else {
      assert n - 1 !in m && Unmatched(m, n - 1) == k;
    }
  }

  /** Every id ever handed out was shown in some frame. */
  lemma {:induction false} EveryIdIsShown(c: Config, frames: seq<Frame>, id: nat)
    requires 1 <= id < Run(c, frames).nextId
    ensures exists f: nat, d: nat :: Shows(Outputs(c, frames), f, d, id)
  {
    if frames != [] {
      var before, s, dets, m, o := LastFrame(c, frames);
      var outs := Outputs(c, before);
      if id < s.nextId {
        EveryIdIsShown(c, before, id);
        var f: nat, d: nat :| Shows(outs, f, d, id);
        ShowsSplits(outs, o, f, d, id);
      } else {
        UnmatchedIsOnto(m, |dets|, id - s.nextId);
        var d: nat :| d < |dets| && d !in m && Unmatched(m, d) == id - s.nextId;
        assert IdOf(s, dets, m, d) == id;
        assert Shows(outs + [o], |outs|, d, id);
      }
    }
  }

  // ---------------------------------------------------------------- no reuse

  lemma DroppedIsNotShown(c: Config, s: State, dets: Frame, m: Matching, id: nat)
    requires Wellformed(c, s) && Usable(c, s.tracks, dets, m)
    requires id < s.nextId && !Alive(s, id)
    ensures forall d: nat :: d < |dets| ==> IdOf(s, dets, m, d) != id
    ensures id < StateAfter(c, s, dets, m).nextId && !Alive(StateAfter(c, s, dets, m), id)
  {
    forall d: nat | d < |dets| ensures IdOf(s, dets, m, d) != id {
      IdIsOldOrNew(c, s, dets, m, d);
      if d in m {
        assert s.tracks[m[d]] in s.tracks;
      }
    }
    forall t | t in StateAfter(c, s, dets, m).tracks ensures t.id != id {
      SurvivorIsShownOrMissed(c, s, dets, m, t);
      if Missed(c, s, dets, m, t) {
        assert t.(misses := t.misses - 1) in s.tracks;
      } else {
        var d: nat :| d < |dets| && t == TrackOf(s, dets, m, d);
        assert IdOf(s, dets, m, d) == t.id;
      }
    }
  }

  ghost predicate Gone(outs: seq<Frame>, s: State, n: nat, id: nat) {
    id < s.nextId && !Alive(s, id) && forall f: nat, d: nat :: n <= f ==> !Shows(outs, f, d, id)
  }

  lemma GoneIsKept(c: Config, outs: seq<Frame>, s: State, dets: Frame, m: Matching, o: Frame, n: nat, id: nat)
    requires Wellformed(c, s) && Usable(c, s.tracks, dets, m) && Depicts(s, dets, m, o)
    requires Gone(outs, s, n, id)
    ensures Gone(outs + [o], StateAfter(c, s, dets, m), n, id)
  {
    DroppedIsNotShown(c, s, dets, m, id);
    forall f: nat, d: nat | n <= f ensures !Shows(outs + [o], f, d, id) {
      ShowsSplits(outs, o, f, d, id);
      assert !Shows(outs, f, d, id);
    }
  }

  lemma NothingShownYet(c: Config, frames: seq<Frame>, id: nat)
    requires id < Run(c, frames).nextId && !Alive(Run(c, frames), id)
    ensures Gone(Outputs(c, frames), Run(c, frames), |frames|, id)
  {
    RunIsFaithful(c, frames);
  }

  lemma GoneInNextFrame(c: Config, frames: seq<Frame>, n: nat, id: nat)
    requires frames != []
    requires Gone(Outputs(c, frames[..|frames| - 1]), Run(c, frames[..|frames| - 1]), n, id)
    ensures Gone(Outputs(c, frames), Run(c, frames), n, id)
  {
    var before, s, dets, m, o := LastFrame(c, frames);
    RunIsFaithful(c, before);
    GoneIsKept(c, Outputs(c, before), s, dets, m, o, n, id);
  }

  /** Once a track is dropped, no later frame shows its id. */
  lemma {:induction false} DroppedStaysDropped(c: Config, before: seq<Frame>, frames: seq<Frame>, id: nat)
    requires before <= frames
    requires id < Run(c, before).nextId && !Alive(Run(c, before), id)
    ensures Gone(Outputs(c, frames), Run(c, frames), |before|, id)
    decreases |frames|
  {
    if |before| == |frames| {
      WholePrefix(before, frames);
      NothingShownYet(c, before, id);
    } else {
      PrefixOfInit(before, frames);
      DroppedStaysDropped(c, before, frames[..|frames| - 1], id);
      GoneInNextFrame(c, frames, |before|, id);
    }
  }

  // ---------------------------------------------------------------- bounded memory

  function CountUpTo(tracks: seq<Track>, k: nat): nat {
    if tracks == [] then 0 else
    CountUpTo(tracks[..|tracks| - 1], k) + if tracks[|tracks| - 1].misses <= k then 1 else 0
  }

  /** How many detections the last `w` frames hold. */
  function Window(frames: seq<Frame>, w: nat): nat {
    if frames == [] || w == 0 then 0 else |frames[|frames| - 1]| + Window(frames[..|frames| - 1], w - 1)
  }

  lemma {:induction false} CountConcat(a: seq<Track>, b: seq<Track>, k: nat)
    ensures CountUpTo(a + b, k) == CountUpTo(a, k) + CountUpTo(b, k)
    ensures CountUpTo(b, k) <= |b|
  {
    if b == [] {
      assert a + b == a;
    } else {
      CountConcat(a, b[..|b| - 1], k);
      InitOfConcat(a, b);
    }
  }

  lemma CountTake(tracks: seq<Track>, n: nat, k: nat)
    requires 0 < n <= |tracks|
    ensures CountUpTo(tracks[..n], k) == CountUpTo(tracks[..n - 1], k) + if tracks[n - 1].misses <= k then 1 else 0
  {
    TakeOneMore(tracks, n - 1);
  }

  lemma CountAgedStep(c: Config, tracks: seq<Track>, m: Matching, n: nat, k: nat)
    requires 0 < n <= |tracks|
    ensures CountUpTo(Aged(c, tracks, m, n), k) <=
      CountUpTo(Aged(c, tracks, m, n - 1), k) + if tracks[n - 1].misses + 1 <= k then 1 else 0
  {
    var a, t := Aged(c, tracks, m, n - 1), tracks[n - 1].(misses := tracks[n - 1].misses + 1);
    assert a + [] == a;
  }

  lemma {:induction false} CountAged(c: Config, tracks: seq<Track>, m: Matching, n: nat, k: nat)
    requires n <= |tracks|
    ensures CountUpTo(Aged(c, tracks, m, n), k) <= if k == 0 then 0 else CountUpTo(tracks[..n], k - 1)
  {
    if n > 0 {
      CountAged(c, tracks, m, n - 1, k);
      CountAgedStep(c, tracks, m, n, k);
      if k > 0 {
        CountTake(tracks, n, k - 1);
      }
    }
  }

  lemma CountAfterFrame(c: Config, s: State, dets: Frame, m: Matching, k: nat)
    requires InRange(m, s.tracks)
    ensures CountUpTo(StateAfter(c, s, dets, m).tracks, k) <= |dets| + if k == 0 then 0 else CountUpTo(s.tracks, k - 1)
  {
    PlacedAt(s, dets, m, |dets|);
    CountConcat(Aged(c, s.tracks, m, |s.tracks|), Placed(s, dets, m, |dets|), k);
    CountAged(c, s.tracks, m, |s.tracks|, k);
    TakeAll(s.tracks);
  }

  lemma CountInNextFrame(c: Config, frames: seq<Frame>, k: nat)
    requires frames != []
    ensures CountUpTo(Run(c, frames).tracks, k) <=
      |frames[|frames| - 1]| + if k == 0 then 0 else CountUpTo(Run(c, frames[..|frames| - 1]).tracks, k - 1)
  {
    var before, s, dets, m, o := LastFrame(c, frames);
    CountAfterFrame(c, s, dets, m, k);
  }

  lemma {:induction false} CountIsBounded(c: Config, frames: seq<Frame>, k: nat)
    ensures CountUpTo(Run(c, frames).tracks, k) <= Window(frames, k + 1)
    decreases |frames|
  {
    if frames != [] {
      CountInNextFrame(c, frames, k);
      if k > 0 {
        CountIsBounded(c, frames[..|frames| - 1], k - 1);
      }
    }
  }

  lemma {:induction false} CountEverything(tracks: seq<Track>, k: nat)
    requires forall t :: t in tracks ==> t.misses <= k
    ensures CountUpTo(tracks, k) == |tracks|
  {
    if tracks != [] {
      CountEverything(tracks[..|tracks| - 1], k);
    }
  }

  /** Live tracks never outnumber the detections of the last `maxMisses + 1` frames. */
  lemma LiveTracksAreBounded(c: Config, frames: seq<Frame>)
    ensures |Run(c, frames).tracks| <= Window(frames, Patience(c) + 1)
  {
    RunIsFaithful(c, frames);
    CountEverything(Run(c, frames).tracks, Patience(c));
    CountIsBounded(c, frames, Patience(c));
  }
}
