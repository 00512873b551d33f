/** The in-house multi-object tracker: greedy per-class IoU matching, highest first, with ageing. */
module Tracking {
  import opened Sequences
  import opened Wrappers
  import opened Geometry
  import opened StableSort

  datatype Track = Track(id: nat, className: string, box: BoundingBox, misses: nat)

  datatype Config = Config(iouThreshold: real, maxMisses: int)

  datatype State = State(tracks: seq<Track>, nextId: nat)

  datatype Pair = Pair(track: nat, detection: nat)

  /** Detection index -> track index. */
  type Matching = map<nat, nat>

  const Initial: State := State([], 1)

  // ---------------------------------------------------------------- candidate pairs

  predicate Compatible(c: Config, t: Track, d: Detection) {
    d.className == t.className && TrackerIou(t.box, d.box) >= c.iouThreshold
  }

  /** The candidates of track `ti` among the first `n` detections. */
  function CandidateRow(c: Config, tracks: seq<Track>, dets: seq<Detection>, ti: nat, n: nat): seq<Keyed<Pair>>
    requires ti < |tracks| && n <= |dets|
  {
    if n == 0 then [] else
    CandidateRow(c, tracks, dets, ti, n - 1) +
    if Compatible(c, tracks[ti], dets[n - 1])
    then [Keyed(TrackerIou(tracks[ti].box, dets[n - 1].box), Pair(ti, n - 1))] else []
  }

  /** The candidates of the first `m` tracks, track by track. */
  function Candidates(c: Config, tracks: seq<Track>, dets: seq<Detection>, m: nat): seq<Keyed<Pair>>
    requires m <= |tracks|
  {
    if m == 0 then [] else
    Candidates(c, tracks, dets, m - 1) + CandidateRow(c, tracks, dets, m - 1, |dets|)
  }

  ghost predicate IsCandidate(c: Config, tracks: seq<Track>, dets: seq<Detection>, k: Keyed<Pair>) {
    && k.item.track < |tracks| && k.item.detection < |dets|
    && Compatible(c, tracks[k.item.track], dets[k.item.detection])
    && k.key == TrackerIou(tracks[k.item.track].box, dets[k.item.detection].box)
  }

  lemma {:induction false} CandidateRowIsExact(c: Config, tracks: seq<Track>, dets: seq<Detection>, ti: nat, n: nat)
    requires ti < |tracks| && n <= |dets|
    ensures forall k :: k in CandidateRow(c, tracks, dets, ti, n) <==>
      IsCandidate(c, tracks, dets, k) && k.item.track == ti && k.item.detection < n
  {
    if n > 0 {
      CandidateRowIsExact(c, tracks, dets, ti, n - 1);
    }
  }

  lemma {:induction false} CandidatesAreExact(c: Config, tracks: seq<Track>, dets: seq<Detection>, m: nat)
    requires m <= |tracks|
    ensures forall k :: k in Candidates(c, tracks, dets, m) <==> IsCandidate(c, tracks, dets, k) && k.item.track < m
  {
    if m > 0 {
      CandidatesAreExact(c, tracks, dets, m - 1);
      CandidateRowIsExact(c, tracks, dets, m - 1, |dets|);
      var before, row := Candidates(c, tracks, dets, m - 1), CandidateRow(c, tracks, dets, m - 1, |dets|);
      assert Candidates(c, tracks, dets, m) == before + row;
      InConcat(before, row);
    }
  }

  // ---------------------------------------------------------------- greedy matching

  function Take(m: Matching, p: Pair): Matching {
    if p.track in m.Values || p.detection in m then m else m[p.detection := p.track]
  }

  lemma TakenTracks(m: Matching, p: Pair)
    requires p.detection !in m
    ensures m[p.detection := p.track].Values == m.Values + {p.track}
  {
    var m' := m[p.detection := p.track];
    assert m'[p.detection] == p.track;
    forall v | v in m.Values ensures v in m'.Values {
      var d :| d in m && m[d] == v;
      assert m'[d] == v;
    }
  }

  function Greedy(s: seq<Keyed<Pair>>): Matching {
    if s == [] then map[] else Take(Greedy(s[..|s| - 1]), s[|s| - 1].item)
  }

  function Match(c: Config, tracks: seq<Track>, dets: seq<Detection>): Matching {
    Greedy(SortDescending(Candidates(c, tracks, dets, |tracks|)))
  }

  ghost predicate Matched(m: Matching, p: Pair) { p.detection in m && m[p.detection] == p.track }

  ghost predicate Injective(m: Matching) {
    forall d, e :: d in m && e in m && m[d] == m[e] ==> d == e
  }

  /** Some pair taken no later than position `k` shares a track or a detection with `s[k]`. */
  ghost predicate Served(s: seq<Keyed<Pair>>, m: Matching, k: nat)
    requires k < |s|
  {
    exists j :: 0 <= j <= k && Matched(m, s[j].item) &&
      (s[j].item.track == s[k].item.track || s[j].item.detection == s[k].item.detection)
  }

  lemma {:induction false} GreedyServes(s: seq<Keyed<Pair>>)
    ensures Injective(Greedy(s))
    ensures forall d :: d in Greedy(s) ==> exists j :: 0 <= j < |s| && s[j].item == Pair(Greedy(s)[d], d)
    ensures forall k :: 0 <= k < |s| ==> Served(s, Greedy(s), k)
  {
    if s != [] {
      var n := |s| - 1;
      var r, p := s[..n], s[n].item;
      var m, m' := Greedy(r), Greedy(s);
      GreedyServes(r);
      forall d | d in m' ensures exists j :: 0 <= j < |s| && s[j].item == Pair(m'[d], d) {
        if d in m && m[d] == m'[d] {
          var j :| 0 <= j < |r| && r[j].item == Pair(m[d], d);
          assert s[j] == r[j];
        } else {
          assert s[n].item == Pair(m'[d], d);
        }
      }
      forall k | 0 <= k < |s| ensures Served(s, m', k) {
        if k < n {
          assert Served(r, m, k);
          var j :| 0 <= j <= k && Matched(m, r[j].item) &&
            (r[j].item.track == r[k].item.track || r[j].item.detection == r[k].item.detection);
          assert Matched(m', s[j].item);
        } else if p.detection in m {
          var j :| 0 <= j < |r| && r[j].item == Pair(m[p.detection], p.detection);
          assert Matched(m', s[j].item);
        } else if p.track in m.Values {
          var d :| d in m && m[d] == p.track;
          var j :| 0 <= j < |r| && r[j].item == Pair(m[d], d);
          assert Matched(m', s[j].item);
        } else {
          assert Matched(m', s[n].item);
        }
      }
    }
  }

  /** One of the two ends of (ti, di) is matched with an IoU at least theirs. */
  ghost predicate EndIsServed(tracks: seq<Track>, dets: seq<Detection>, m: Matching, ti: nat, di: nat)
    requires ti < |tracks| && di < |dets|
  {
    exists p: Pair :: Matched(m, p) && (p.track == ti || p.detection == di) &&
      p.track < |tracks| && p.detection < |dets| &&
      TrackerIou(tracks[p.track].box, dets[p.detection].box) >= TrackerIou(tracks[ti].box, dets[di].box)
  }

  lemma SortedCandidatesAreExact(c: Config, tracks: seq<Track>, dets: seq<Detection>)
    ensures var s := SortDescending(Candidates(c, tracks, dets, |tracks|));
      Descending(s) && forall k :: k in s <==> IsCandidate(c, tracks, dets, k)
  {
    var cands := Candidates(c, tracks, dets, |tracks|);
    var s := SortDescending(cands);
    CandidatesAreExact(c, tracks, dets, |tracks|);
    SortIsStableSort(cands);
    forall k ensures k in s <==> k in cands {
      assert k in s <==> k in multiset(s);
    }
  }

  lemma MatchUsesCandidates(c: Config, tracks: seq<Track>, dets: seq<Detection>)
    ensures var m := Match(c, tracks, dets);
      && Injective(m)
      && (forall d :: d in m ==> d < |dets| && m[d] < |tracks| && Compatible(c, tracks[m[d]], dets[d]))
  {
    var s := SortDescending(Candidates(c, tracks, dets, |tracks|));
    SortedCandidatesAreExact(c, tracks, dets);
    GreedyServes(s);
    forall d | d in Match(c, tracks, dets)
      ensures d < |dets| && Match(c, tracks, dets)[d] < |tracks|
      ensures Compatible(c, tracks[Match(c, tracks, dets)[d]], dets[d])
    {
      var j :| 0 <= j < |s| && s[j].item == Pair(Greedy(s)[d], d);
      assert s[j] in s;
    }
  }

  lemma ServedEnd(c: Config, tracks: seq<Track>, dets: seq<Detection>, s: seq<Keyed<Pair>>, m: Matching, k: nat)
    requires k < |s| && Descending(s) && Served(s, m, k)
    requires forall i :: 0 <= i < |s| ==> IsCandidate(c, tracks, dets, s[i])
    requires s[k].item.track < |tracks| && s[k].item.detection < |dets|
    ensures EndIsServed(tracks, dets, m, s[k].item.track, s[k].item.detection)
  {
    var j :| 0 <= j <= k && Matched(m, s[j].item) &&
      (s[j].item.track == s[k].item.track || s[j].item.detection == s[k].item.detection);
    assert IsCandidate(c, tracks, dets, s[j]);
    assert j == k || s[j].key >= s[k].key;
  }

  lemma CompatiblePairIsServed(c: Config, tracks: seq<Track>, dets: seq<Detection>, ti: nat, di: nat)
    requires ti < |tracks| && di < |dets| && Compatible(c, tracks[ti], dets[di])
    ensures EndIsServed(tracks, dets, Match(c, tracks, dets), ti, di)
  {
    var s := SortDescending(Candidates(c, tracks, dets, |tracks|));
    var m := Match(c, tracks, dets);
    SortedCandidatesAreExact(c, tracks, dets);
    GreedyServes(s);
    var key := Keyed(TrackerIou(tracks[ti].box, dets[di].box), Pair(ti, di));
    assert IsCandidate(c, tracks, dets, key);
    var k := IndexIn(s, key);
    forall i | 0 <= i < |s| ensures IsCandidate(c, tracks, dets, s[i]) {
      assert s[i] in s;
    }
    ServedEnd(c, tracks, dets, s, m, k);
  }

  /** The frame's matching is a class-respecting partial injection at or above the threshold, and no
      compatible track and detection are both worse off than they would be with each other. */
  lemma MatchIsStable(c: Config, tracks: seq<Track>, dets: seq<Detection>)
    ensures var m := Match(c, tracks, dets);
      && Injective(m)
      && (forall d :: d in m ==> d < |dets| && m[d] < |tracks| && Compatible(c, tracks[m[d]], dets[d]))
      && (forall ti: nat, di: nat :: ti < |tracks| && di < |dets| && Compatible(c, tracks[ti], dets[di]) ==>
          EndIsServed(tracks, dets, m, ti, di))
  {
    MatchUsesCandidates(c, tracks, dets);
    forall ti: nat, di: nat | ti < |tracks| && di < |dets| && Compatible(c, tracks[ti], dets[di])
      ensures EndIsServed(tracks, dets, Match(c, tracks, dets), ti, di)
    {
      CompatiblePairIsServed(c, tracks, dets, ti, di);
    }
  }

  // ---------------------------------------------------------------- one frame

  /** Unmatched tracks among the first `n`, one miss older, without those past the limit. */
  function Aged(c: Config, tracks: seq<Track>, m: Matching, n: nat): seq<Track>
    requires n <= |tracks|
  {
    if n == 0 then [] else
    Aged(c, tracks, m, n - 1) +
    if n - 1 in m.Values || tracks[n - 1].misses + 1 > c.maxMisses then []
    else [tracks[n - 1].(misses := tracks[n - 1].misses + 1)]
  }

  /** How many of the first `n` detections are unmatched. */
  function Unmatched(m: Matching, n: nat): nat {
    if n == 0 then 0 else Unmatched(m, n - 1) + if n - 1 in m then 0 else 1
  }

  ghost predicate InRange(m: Matching, tracks: seq<Track>) {
    forall d :: d in m ==> m[d] < |tracks|
  }

  /** What the later stages of a frame rely on about its matching. */
  ghost predicate Usable(c: Config, tracks: seq<Track>, dets: seq<Detection>, m: Matching) {
    && InRange(m, tracks)
    && Injective(m)
    && forall d :: d in m ==> d < |dets| && Compatible(c, tracks[m[d]], dets[d])
  }

  /** The track detection `i` ends up on: its match, moved, or a new one with the next unused id. */
  function TrackOf(s: State, dets: seq<Detection>, m: Matching, i: nat): Track
    requires i < |dets| && InRange(m, s.tracks)
  {
    if i in m then s.tracks[m[i]].(box := dets[i].box, misses := 0)
    else Track(s.nextId + Unmatched(m, i), dets[i].className, dets[i].box, 0)
  }

  function Placed(s: State, dets: seq<Detection>, m: Matching, n: nat): seq<Track>
    requires n <= |dets| && InRange(m, s.tracks)
  {
    if n == 0 then [] else Placed(s, dets, m, n - 1) + [TrackOf(s, dets, m, n - 1)]
  }

  function Labelled(s: State, dets: seq<Detection>, m: Matching, n: nat): seq<Detection>
    requires n <= |dets| && InRange(m, s.tracks)
  {
    if n == 0 then [] else
    Labelled(s, dets, m, n - 1) + [dets[n - 1].(trackId := Some(TrackOf(s, dets, m, n - 1).id))]
  }

  lemma {:induction false} PlacedAt(s: State, dets: seq<Detection>, m: Matching, n: nat)
    requires n <= |dets| && InRange(m, s.tracks)
    ensures |Placed(s, dets, m, n)| == |Labelled(s, dets, m, n)| == n
    ensures forall i :: 0 <= i < n ==> Placed(s, dets, m, n)[i] == TrackOf(s, dets, m, i)
    ensures forall i :: 0 <= i < n ==> Labelled(s, dets, m, n)[i] == dets[i].(trackId := Some(TrackOf(s, dets, m, i).id))
  {
    if n > 0 {
      PlacedAt(s, dets, m, n - 1);
    }
  }

  lemma MatchIsUsable(c: Config, tracks: seq<Track>, dets: seq<Detection>)
    ensures Usable(c, tracks, dets, Match(c, tracks, dets))
  {
    MatchUsesCandidates(c, tracks, dets);
  }

  function StateAfter(c: Config, s: State, dets: seq<Detection>, m: Matching): State
    requires InRange(m, s.tracks)
  {
    State(Aged(c, s.tracks, m, |s.tracks|) + Placed(s, dets, m, |dets|), s.nextId + Unmatched(m, |dets|))
  }

  function After(c: Config, s: State, dets: seq<Detection>): State {
    MatchIsUsable(c, s.tracks, dets);
    StateAfter(c, s, dets, Match(c, s.tracks, dets))
  }

  function Output(c: Config, s: State, dets: seq<Detection>): seq<Detection> {
    MatchIsUsable(c, s.tracks, dets);
    Labelled(s, dets, Match(c, s.tracks, dets), |dets|)
  }

  method CollectCandidates(c: Config, tracks: seq<Track>, dets: seq<Detection>) returns (pairs: seq<Keyed<Pair>>)
    ensures pairs == Candidates(c, tracks, dets, |tracks|)
  {
    pairs := [];
    for ti := 0 to |tracks|
      invariant pairs == Candidates(c, tracks, dets, ti)
    {
      ghost var before := pairs;
      for di := 0 to |dets|
        invariant pairs == before + CandidateRow(c, tracks, dets, ti, di)
      {
        if dets[di].className != tracks[ti].className {
          continue;
        }
        var iou := TrackerIou(tracks[ti].box, dets[di].box);
        if iou >= c.iouThreshold {
          pairs := pairs + [Keyed(iou, Pair(ti, di))];
        }
      }
    }
  }

  method MatchGreedily(pairs: seq<Keyed<Pair>>) returns (matchedTracks: set<nat>, detectionToTrack: Matching)
    ensures detectionToTrack == Greedy(pairs)
    ensures matchedTracks == detectionToTrack.Values
  {
    matchedTracks, detectionToTrack := {}, map[];
    for i := 0 to |pairs|
      invariant detectionToTrack == Greedy(pairs[..i])
      invariant matchedTracks == detectionToTrack.Values
    {
      TakeTake(pairs, i, i + 1);
      var p := pairs[i].item;
      if p.track in matchedTracks || p.detection in detectionToTrack {
        continue;
      }
      TakenTracks(detectionToTrack, p);
      matchedTracks := matchedTracks + {p.track};
      detectionToTrack := detectionToTrack[p.detection := p.track];
    }
    TakeAll(pairs);
  }

  method AgeUnmatched(c: Config, tracks: seq<Track>, ghost m: Matching, matchedTracks: set<nat>)
    returns (surviving: seq<Track>)
    requires matchedTracks == m.Values
    ensures surviving == Aged(c, tracks, m, |tracks|)
  {
    surviving := [];
    for ti := 0 to |tracks|
      invariant surviving == Aged(c, tracks, m, ti)
    {
      if ti in matchedTracks {
        continue;
      }
      var track := tracks[ti].(misses := tracks[ti].misses + 1);
      if track.misses <= c.maxMisses {
        surviving := surviving + [track];
      }
    }
  }

  /** The stateful tracker; one per mission, one `Update` per frame. */
  class Tracker {
    const config: Config
    var tracks: seq<Track>
    var nextTrackId: nat

    ghost function Abstract(): State reads this { State(tracks, nextTrackId) }

    constructor (config: Config)
      ensures this.config == config && Abstract() == Initial
    {
      this.config := config;
      tracks, nextTrackId := [], 1;
    }

    method Update(detections: seq<Detection>) returns (results: seq<Detection>)
      modifies this
      ensures Abstract() == After(config, old(Abstract()), detections)
      ensures results == Output(config, old(Abstract()), detections)
    {
      ghost var s := Abstract();
      var candidatePairs := CollectCandidates(config, tracks, detections);
      candidatePairs := SortDescending(candidatePairs);
      var matchedTracks, detectionToTrack := MatchGreedily(candidatePairs);
      MatchIsUsable(config, s.tracks, detections);

      var surviving := AgeUnmatched(config, tracks, detectionToTrack, matchedTracks);
      results := [];
      ghost var aged := surviving;
      for di := 0 to |detections|
        invariant tracks == s.tracks && nextTrackId == s.nextId + Unmatched(detectionToTrack, di)
        invariant surviving == aged + Placed(s, detections, detectionToTrack, di)
        invariant results == Labelled(s, detections, detectionToTrack, di)
      {
        var track: Track;
        if di in detectionToTrack {
          track := tracks[detectionToTrack[di]].(box := detections[di].box, misses := 0);
        } else {
          track := Track(nextTrackId, detections[di].className, detections[di].box, 0);
          nextTrackId := nextTrackId + 1;
        }
        surviving := surviving + [track];
        results := results + [detections[di].(trackId := Some(track.id))];
      }
      tracks := surviving;
    }
  }

  // The three read-only stages of `Update`.
}
