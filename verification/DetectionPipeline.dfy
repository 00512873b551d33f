/** One mission's video: detect, filter, track, and collect one event per retained detection. */
module DetectionPipeline {
  import opened Sequences
  import opened Wrappers
  import opened Geometry
  import opened Tracking
  import opened TrackingRuns

  const DEFAULT_CONFIG := Config(0.3, 5)

  datatype Event = Event(frameIndex: nat, timestampMs: real, trackId: nat, className: string,
                         confidence: real, box: BoundingBox)

  datatype Report = Report(frameCount: nat, events: seq<Event>, trackCount: nat)

  // ---------------------------------------------------------------- filtering

  predicate Retained(d: Detection, threshold: real, allowed: set<string>) {
    d.confidence >= threshold && d.className in allowed
  }

  function FilterDetections(dets: seq<Detection>, threshold: real, allowed: set<string>): seq<Detection> {
    if dets == [] then [] else
    var last := |dets| - 1;
    FilterDetections(dets[..last], threshold, allowed) + if Retained(dets[last], threshold, allowed) then [dets[last]] else []
  }

  /** `positions` names, in increasing order, exactly the retained entries of `dets`. */
  ghost predicate Picks(dets: seq<Detection>, threshold: real, allowed: set<string>, positions: seq<nat>) {
    && (forall i :: 0 <= i < |positions| ==> positions[i] < |dets|)
    && (forall i, j :: 0 <= i < j < |positions| ==> positions[i] < positions[j])
    && (forall p: nat :: p < |dets| ==> (p in positions <==> dets[p].confidence >= threshold && dets[p].className in allowed))
  }

  /** `out` is what those positions hold. */
  ghost predicate Selects(dets: seq<Detection>, positions: seq<nat>, out: seq<Detection>) {
    && |out| == |positions|
    && forall i :: 0 <= i < |positions| ==> positions[i] < |dets| && out[i] == dets[positions[i]]
  }

  lemma PicksExtends(dets: seq<Detection>, d: Detection, threshold: real, allowed: set<string>, rest: seq<nat>)
    requires Picks(dets, threshold, allowed, rest)
    ensures Picks(dets + [d], threshold, allowed, if Retained(d, threshold, allowed) then rest + [|dets|] else rest)
  {
    var positions := if Retained(d, threshold, allowed) then rest + [|dets|] else rest;
    var more := dets + [d];
    forall p: nat | p <= |dets|
      ensures p in positions <==> more[p].confidence >= threshold && more[p].className in allowed
    {
      assert |dets| !in rest;
      if p < |dets| {
        assert p in positions <==> p in rest;
      }
    }
  }

  /** Filtering keeps exactly the retained detections, unchanged and in order. */
  lemma {:induction false} FilterKeepsRetained(dets: seq<Detection>, threshold: real, allowed: set<string>)
    returns (positions: seq<nat>)
    ensures Picks(dets, threshold, allowed, positions)
    ensures Selects(dets, positions, FilterDetections(dets, threshold, allowed))
  {
    if dets == [] {
      positions := [];
    } else {
      var before, d := dets[..|dets| - 1], dets[|dets| - 1];
      var rest := FilterKeepsRetained(before, threshold, allowed);
      PicksExtends(before, d, threshold, allowed, rest);
      InitLast(dets);
      positions := if Retained(d, threshold, allowed) then rest + [|before|] else rest;
    }
  }

  function FilterFrames(raw: seq<Frame>, threshold: real, allowed: set<string>): seq<Frame> {
    if raw == [] then [] else
    FilterFrames(raw[..|raw| - 1], threshold, allowed) + [FilterDetections(raw[|raw| - 1], threshold, allowed)]
  }

  lemma {:induction false} FilterFramesAt(raw: seq<Frame>, threshold: real, allowed: set<string>)
    ensures |FilterFrames(raw, threshold, allowed)| == |raw|
    ensures forall f :: 0 <= f < |raw| ==>
      FilterFrames(raw, threshold, allowed)[f] == FilterDetections(raw[f], threshold, allowed)
  {
    if raw != [] {
      FilterFramesAt(raw[..|raw| - 1], threshold, allowed);
    }
  }

  // ---------------------------------------------------------------- events

  function TimestampMs(frameIndex: nat, fps: real): real {
    if fps > 0.0 then frameIndex as real / fps * 1000.0 else 0.0
  }

  /** The pipeline asserts that the tracker has set this. */
  function IdIn(d: Detection): nat { if d.trackId.Some? then d.trackId.value else 0 }

  function EventOf(frameIndex: nat, fps: real, d: Detection): Event {
    Event(frameIndex, TimestampMs(frameIndex, fps), IdIn(d), d.className, d.confidence, d.box)
  }

  function FrameEvents(frameIndex: nat, fps: real, out: Frame, n: nat): seq<Event>
    requires n <= |out|
  {
    if n == 0 then [] else FrameEvents(frameIndex, fps, out, n - 1) + [EventOf(frameIndex, fps, out[n - 1])]
  }

  function AllEvents(outs: seq<Frame>, fps: real): seq<Event> {
    if outs == [] then [] else
    AllEvents(outs[..|outs| - 1], fps) + FrameEvents(|outs| - 1, fps, outs[|outs| - 1], |outs[|outs| - 1]|)
  }

  function TrackIds(out: Frame, n: nat): set<nat>
    requires n <= |out|
  {
    if n == 0 then {} else TrackIds(out, n - 1) + {IdIn(out[n - 1])}
  }

  function AllTrackIds(outs: seq<Frame>): set<nat> {
    if outs == [] then {} else AllTrackIds(outs[..|outs| - 1]) + TrackIds(outs[|outs| - 1], |outs[|outs| - 1]|)
  }

  ghost predicate EverShown(outs: seq<Frame>, id: nat) { exists f: nat, d: nat :: Shows(outs, f, d, id) }

  ghost predicate Reported(events: seq<Event>, id: nat) { exists e :: e in events && e.trackId == id }

  ghost predicate EveryDetectionHasId(outs: seq<Frame>) {
    forall f, d :: 0 <= f < |outs| && 0 <= d < |outs[f]| ==> outs[f][d].trackId.Some?
  }

  lemma {:induction false} FrameEventsAt(frameIndex: nat, fps: real, out: Frame, n: nat)
    requires n <= |out|
    ensures |FrameEvents(frameIndex, fps, out, n)| == n
    ensures forall i :: 0 <= i < n ==> FrameEvents(frameIndex, fps, out, n)[i] == EventOf(frameIndex, fps, out[i])
  {
    if n > 0 {
      FrameEventsAt(frameIndex, fps, out, n - 1);
    }
  }

  lemma {:induction false} TrackIdsAre(out: Frame, n: nat)
    requires n <= |out|
    ensures forall id :: id in TrackIds(out, n) <==> exists d :: 0 <= d < n && IdIn(out[d]) == id
  {
    if n > 0 {
      TrackIdsAre(out, n - 1);
    }
  }

  lemma {:induction false} AllTrackIdsAre(outs: seq<Frame>, id: nat)
    requires EveryDetectionHasId(outs)
    ensures id in AllTrackIds(outs) <==> EverShown(outs, id)
  {
    if outs != [] {
      var init, last := outs[..|outs| - 1], outs[|outs| - 1];
      InitLast(outs);
      AllTrackIdsAre(init, id);
      TrackIdsAre(last, |last|);
      if id in AllTrackIds(init) {
        var f: nat, d: nat :| Shows(init, f, d, id);
        ShowsSplits(init, last, f, d, id);
      } else if id in TrackIds(last, |last|) {
        var d :| 0 <= d < |last| && IdIn(last[d]) == id;
        assert Shows(outs, |init|, d, id);
      } else {
        forall f: nat, d: nat ensures !Shows(outs, f, d, id) {
          ShowsSplits(init, last, f, d, id);
        }
      }
    }
  }

  /** Events `k` and `l`, in this order, are in frame order, and in one frame carry different ids. */
  ghost predicate Ordered(e: Event, g: Event) {
    e.frameIndex < g.frameIndex || (e.frameIndex == g.frameIndex && e.trackId != g.trackId)
  }

  /** The frame's time in milliseconds at `fps` frames a second; 0 when the rate is unknown. */
  ghost predicate TimedAt(ms: real, frameIndex: nat, fps: real) {
    if fps > 0.0 then ms * fps == 1000.0 * frameIndex as real else ms == 0.0
  }

  lemma TimestampIs(frameIndex: nat, fps: real)
    ensures TimedAt(TimestampMs(frameIndex, fps), frameIndex, fps)
  {
    if fps > 0.0 {
      var seconds := frameIndex as real / fps;
      assert seconds * fps == frameIndex as real;
      assert seconds * 1000.0 * fps == 1000.0 * (seconds * fps);
    }
  }

  /** An event reports a retained detection of its own frame. */
  ghost predicate Sound(e: Event, fps: real, raw: seq<Frame>, threshold: real, allowed: set<string>) {
    && e.frameIndex < |raw|
    && TimedAt(e.timestampMs, e.frameIndex, fps)
    && exists d :: d in raw[e.frameIndex] && d.confidence >= threshold && d.className in allowed &&
         d.className == e.className && d.confidence == e.confidence && d.box == e.box
  }

  lemma {:induction false} EventsAreOrdered(outs: seq<Frame>, fps: real)
    requires OncePerFrame(outs) && EveryDetectionHasId(outs)
    ensures forall e :: e in AllEvents(outs, fps) ==> e.frameIndex < |outs|
    ensures forall k, l :: 0 <= k < l < |AllEvents(outs, fps)| ==>
      Ordered(AllEvents(outs, fps)[k], AllEvents(outs, fps)[l])
  {
    if outs != [] {
      var init, last := outs[..|outs| - 1], outs[|outs| - 1];
      InitLast(outs);
      forall f: nat, d: nat, e: nat, id: nat | Shows(init, f, d, id) && Shows(init, f, e, id) ensures d == e {
        assert Shows(outs, f, d, id) && Shows(outs, f, e, id);
      }
      EventsAreOrdered(init, fps);
      var a, b := AllEvents(init, fps), FrameEvents(|init|, fps, last, |last|);
      FrameEventsAt(|init|, fps, last, |last|);
      forall k, l | 0 <= k < l < |a + b| ensures Ordered((a + b)[k], (a + b)[l]) {
        if k < |a| {
          assert a[k] in a;
        } else {
          var d, e := k - |a|, l - |a|;
          assert Shows(outs, |init|, d, last[d].trackId.value);
          assert Shows(outs, |init|, e, last[e].trackId.value);
        }
      }
    }
  }

  /** Each frame's output repeats its input but for the track ids, which are all set. */
  ghost predicate Tracked(frames: seq<Frame>, outs: seq<Frame>) {
    && |frames| == |outs|
    && (forall f :: 0 <= f < |frames| ==> |outs[f]| == |frames[f]|)
    && (forall f, d :: 0 <= f < |frames| && 0 <= d < |frames[f]| ==>
        outs[f][d].trackId.Some? && outs[f][d] == frames[f][d].(trackId := outs[f][d].trackId))
  }

  lemma {:induction false} OutputsAreTracked(c: Config, frames: seq<Frame>)
    ensures Tracked(frames, Outputs(c, frames))
  {
    if frames != [] {
      var before, s, dets, m, o := LastFrame(c, frames);
      OutputsAreTracked(c, before);
      InitLast(frames);
    }
  }

  lemma {:induction false} EventComesFrom(outs: seq<Frame>, fps: real, e: Event) returns (f: nat, d: nat)
    requires e in AllEvents(outs, fps)
    ensures f < |outs| && d < |outs[f]| && e == EventOf(f, fps, outs[f][d])
  {
    var init, last := outs[..|outs| - 1], outs[|outs| - 1];
    if e in AllEvents(init, fps) {
      f, d := EventComesFrom(init, fps, e);
    } else {
      FrameEventsAt(|init|, fps, last, |last|);
      f := |init|;
      d :| 0 <= d < |last| && FrameEvents(|init|, fps, last, |last|)[d] == e;
    }
  }

  ghost predicate Accurate(r: Report, raw: seq<Frame>, fps: real, threshold: real, allowed: set<string>) {
    && r.frameCount == |raw|
    && (forall k, l :: 0 <= k < l < |r.events| ==> Ordered(r.events[k], r.events[l]))
    && (forall e :: e in r.events ==> Sound(e, fps, raw, threshold, allowed))
    && (forall id: nat :: Reported(r.events, id) <==> 1 <= id <= r.trackCount)
  }

  function Expected(raw: seq<Frame>, fps: real, threshold: real, allowed: set<string>): Report {
    var frames := FilterFrames(raw, threshold, allowed);
    Report(|raw|, AllEvents(Outputs(DEFAULT_CONFIG, frames), fps), |AllTrackIds(Outputs(DEFAULT_CONFIG, frames))|)
  }

  // ---------------------------------------------------------------- the report

  lemma {:induction false} SetUpTo(ids: set<nat>, n: nat)
    requires forall id :: id in ids <==> 1 <= id <= n
    ensures |ids| == n
  {
    if n > 0 {
      SetUpTo(ids - {n}, n - 1);
    } else {
      assert ids == {};
    }
  }

  lemma {:induction false} EventsShowIds(outs: seq<Frame>, fps: real, id: nat)
    requires EveryDetectionHasId(outs)
    ensures Reported(AllEvents(outs, fps), id) <==> EverShown(outs, id)
  {
    if outs != [] {
      var init, last := outs[..|outs| - 1], outs[|outs| - 1];
      InitLast(outs);
      EventsShowIds(init, fps, id);
      FrameEventsAt(|init|, fps, last, |last|);
      var added := FrameEvents(|init|, fps, last, |last|);
      if e :| e in AllEvents(outs, fps) && e.trackId == id {
        if e in AllEvents(init, fps) {
          var f: nat, d: nat :| Shows(init, f, d, id);
          ShowsSplits(init, last, f, d, id);
        } else {
          var d :| 0 <= d < |last| && added[d] == e;
          assert Shows(outs, |init|, d, id);
        }
      }
      if f: nat, d: nat :| Shows(outs, f, d, id) {
        ShowsSplits(init, last, f, d, id);
        if Shows(init, f, d, id) {
          var e :| e in AllEvents(init, fps) && e.trackId == id;
          assert e in AllEvents(outs, fps);
        } else {
          assert added[d] in AllEvents(outs, fps);
        }
      }
    }
  }

  lemma IdIsShownIff(c: Config, frames: seq<Frame>, id: nat)
    ensures EverShown(Outputs(c, frames), id) <==> 1 <= id < Run(c, frames).nextId
  {
    RunIsFaithful(c, frames);
    if 1 <= id < Run(c, frames).nextId {
      EveryIdIsShown(c, frames, id);
    }
  }

  /** The ids shown are exactly 1, 2, ... up to the number of tracks ever created. */
  lemma IdsAreContiguous(c: Config, frames: seq<Frame>)
    ensures |AllTrackIds(Outputs(c, frames))| == Run(c, frames).nextId - 1
    ensures forall id: nat :: EverShown(Outputs(c, frames), id) <==> 1 <= id < Run(c, frames).nextId
  {
    var outs, n := Outputs(c, frames), Run(c, frames).nextId;
    RunIsFaithful(c, frames);
    OutputsAreTracked(c, frames);
    forall id: nat
      ensures EverShown(outs, id) <==> 1 <= id < n
      ensures id in AllTrackIds(outs) <==> 1 <= id < n
    {
      IdIsShownIff(c, frames, id);
      AllTrackIdsAre(outs, id);
    }
    SetUpTo(AllTrackIds(outs), n - 1);
  }

  lemma EventIsSound(c: Config, raw: seq<Frame>, fps: real, threshold: real, allowed: set<string>, e: Event)
    requires e in AllEvents(Outputs(c, FilterFrames(raw, threshold, allowed)), fps)
    ensures Sound(e, fps, raw, threshold, allowed)
  {
    var frames := FilterFrames(raw, threshold, allowed);
    var outs := Outputs(c, frames);
    FilterFramesAt(raw, threshold, allowed);
    OutputsAreTracked(c, frames);
    var f, d := EventComesFrom(outs, fps, e);
    var positions := FilterKeepsRetained(raw[f], threshold, allowed);
    var source := raw[f][positions[d]];
    assert frames[f][d] == source;
    assert positions[d] in positions;
    assert source in raw[f] && source.confidence >= threshold && source.className in allowed;
    TimestampIs(f, fps);
  }

  /** How many detections the frames before `f` hold. */
  function Before(outs: seq<Frame>, f: nat): nat
    requires f <= |outs|
  {
    if f == 0 then 0 else Before(outs, f - 1) + |outs[f - 1]|
  }

  lemma {:induction false} BeforeInit(outs: seq<Frame>, last: Frame, f: nat)
    requires f <= |outs|
    ensures Before(outs + [last], f) == Before(outs, f)
  {
    if f > 0 {
      BeforeInit(outs, last, f - 1);
    }
  }

  ghost predicate IsEventOf(events: seq<Event>, outs: seq<Frame>, fps: real, f: nat, d: nat)
    requires f < |outs| && d < |outs[f]|
  {
    Before(outs, f) + d < |events| && events[Before(outs, f) + d] == EventOf(f, fps, outs[f][d])
  }

  /** The events are the frames' detections, frame by frame and in each frame in order. */
  lemma {:induction false} EventsAre(outs: seq<Frame>, fps: real)
    ensures |AllEvents(outs, fps)| == Before(outs, |outs|)
    ensures forall f: nat, d: nat :: f < |outs| && d < |outs[f]| ==> IsEventOf(AllEvents(outs, fps), outs, fps, f, d)
  {
    if outs != [] {
      var init, last := outs[..|outs| - 1], outs[|outs| - 1];
      EventsAre(init, fps);
      InitLast(outs);
      FrameEventsAt(|init|, fps, last, |last|);
      BeforeInit(init, last, |init|);
      forall f: nat, d: nat | f < |outs| && d < |outs[f]| ensures IsEventOf(AllEvents(outs, fps), outs, fps, f, d) {
        BeforeInit(init, last, f);
        if f < |init| {
          assert init[f] == outs[f];
          assert IsEventOf(AllEvents(init, fps), init, fps, f, d);
        }
      }
    }
  }

  /** Event `e` reports detection `d` of frame `f`, under its track id. */
  ghost predicate Reports(e: Event, f: nat, fps: real, d: Detection) {
    && e.frameIndex == f && TimedAt(e.timestampMs, f, fps)
    && d.trackId == Some(e.trackId)
    && e.className == d.className && e.confidence == d.confidence && e.box == d.box
  }

  ghost predicate SameButId(a: Detection, b: Detection) { b == a.(trackId := b.trackId) }

  ghost predicate ReportedAt(events: seq<Event>, k: nat, f: nat, fps: real, source: Detection, shown: Detection) {
    k < |events| && SameButId(source, shown) && Reports(events[k], f, fps, shown)
  }

  lemma DetectionIsReported(frames: seq<Frame>, outs: seq<Frame>, fps: real, f: nat, d: nat)
    requires Tracked(frames, outs) && f < |outs| && d < |outs[f]|
    ensures |AllEvents(outs, fps)| == Before(outs, |outs|)
    ensures ReportedAt(AllEvents(outs, fps), Before(outs, f) + d, f, fps, frames[f][d], outs[f][d])
  {
    EventsAre(outs, fps);
    TimestampIs(f, fps);
    assert IsEventOf(AllEvents(outs, fps), outs, fps, f, d);
  }

  /** The frame's output is what the positions of its raw detections hold, and is reported in order. */
  ghost predicate FrameReported(events: seq<Event>, outs: seq<Frame>, raw: Frame, positions: seq<nat>, f: nat, fps: real) {
    && f < |outs| && |outs[f]| == |positions|
    && forall d: nat :: d < |positions| ==>
         (positions[d] < |raw| && ReportedAt(events, Before(outs, f) + d, f, fps, raw[positions[d]], outs[f][d]))
  }

  lemma FrameIsReported(frames: seq<Frame>, outs: seq<Frame>, raw: Frame, positions: seq<nat>, fps: real, f: nat)
    requires Tracked(frames, outs) && f < |outs| && Selects(raw, positions, frames[f])
    ensures |AllEvents(outs, fps)| == Before(outs, |outs|)
    ensures FrameReported(AllEvents(outs, fps), outs, raw, positions, f, fps)
  {
    EventsAre(outs, fps);
    forall d: nat | d < |positions|
      ensures positions[d] < |raw| && ReportedAt(AllEvents(outs, fps), Before(outs, f) + d, f, fps, raw[positions[d]], outs[f][d])
    {
      DetectionIsReported(frames, outs, fps, f, d);
    }
  }

  /** No retained detection goes unreported, and none is reported twice: a frame's output is its retained
      detections in order, and the events are the outputs in order. */
  lemma EveryRetainedIsReported(raw: seq<Frame>, fps: real, threshold: real, allowed: set<string>, f: nat)
    returns (positions: seq<nat>, outs: seq<Frame>)
    requires f < |raw|
    ensures outs == Outputs(Config(0.3, 5), FilterFrames(raw, threshold, allowed)) && |outs| == |raw|
    ensures Picks(raw[f], threshold, allowed, positions)
    ensures var events := Expected(raw, fps, threshold, allowed).events;
      |events| == Before(outs, |outs|) && FrameReported(events, outs, raw[f], positions, f, fps)
  {
    var frames := FilterFrames(raw, threshold, allowed);
    outs := Outputs(DEFAULT_CONFIG, frames);
    FilterFramesAt(raw, threshold, allowed);
    OutputsAreTracked(DEFAULT_CONFIG, frames);
    positions := FilterKeepsRetained(raw[f], threshold, allowed);
    FrameIsReported(frames, outs, raw[f], positions, fps, f);
  }

  /** Two consecutive showings of a track id overlap by at least 0.3, agree on the class, and lie at most 6
      frames apart. */
  lemma ConsecutiveShowingsMatch(raw: seq<Frame>, threshold: real, allowed: set<string>, id: nat, f: nat, d: nat, g: nat, e: nat)
    requires Consecutive(Outputs(DEFAULT_CONFIG, FilterFrames(raw, threshold, allowed)), id, f, d, g, e)
    ensures var outs := Outputs(DEFAULT_CONFIG, FilterFrames(raw, threshold, allowed));
      && outs[f][d].className == outs[g][e].className
      && TrackerIou(outs[f][d].box, outs[g][e].box) >= 0.3
      && g - f <= 6
  {
    RunIsFaithful(DEFAULT_CONFIG, FilterFrames(raw, threshold, allowed));
  }

  /** The report of any video: events in frame order, distinct ids within a frame, every event a retained
      detection, and track ids exactly 1..trackCount, the number of tracks the tracker ever created. */
  lemma ReportIsAccurate(raw: seq<Frame>, fps: real, threshold: real, allowed: set<string>)
    ensures Accurate(Expected(raw, fps, threshold, allowed), raw, fps, threshold, allowed)
    ensures Expected(raw, fps, threshold, allowed).trackCount ==
      Run(Config(0.3, 5), FilterFrames(raw, threshold, allowed)).nextId - 1
  {
    var frames := FilterFrames(raw, threshold, allowed);
    var outs := Outputs(DEFAULT_CONFIG, frames);
    var r := Expected(raw, fps, threshold, allowed);
    RunIsFaithful(DEFAULT_CONFIG, frames);
    OutputsAreTracked(DEFAULT_CONFIG, frames);
    EventsAreOrdered(outs, fps);
    IdsAreContiguous(DEFAULT_CONFIG, frames);
    forall e | e in r.events ensures Sound(e, fps, raw, threshold, allowed) {
      EventIsSound(DEFAULT_CONFIG, raw, fps, threshold, allowed, e);
    }
    forall id: nat ensures Reported(r.events, id) <==> 1 <= id <= r.trackCount {
      EventsShowIds(outs, fps, id);
    }
  }

  lemma OneMoreOutput(outs: seq<Frame>, o: Frame, fps: real)
    ensures AllEvents(outs + [o], fps) == AllEvents(outs, fps) + FrameEvents(|outs|, fps, o, |o|)
    ensures AllTrackIds(outs + [o]) == AllTrackIds(outs) + TrackIds(o, |o|)
  {
    Snoc(outs, o);
  }

  lemma OneMoreFrame(c: Config, before: seq<Frame>, dets: Frame, fps: real)
    ensures Run(c, before + [dets]) == After(c, Run(c, before), dets)
    ensures var outs, o := Outputs(c, before), Output(c, Run(c, before), dets);
      && Outputs(c, before + [dets]) == outs + [o]
      && |outs| == |before|
      && AllEvents(outs + [o], fps) == AllEvents(outs, fps) + FrameEvents(|outs|, fps, o, |o|)
      && AllTrackIds(outs + [o]) == AllTrackIds(outs) + TrackIds(o, |o|)
  {
    Snoc(before, dets);
    RunIsFaithful(c, before);
    OneMoreOutput(Outputs(c, before), Output(c, Run(c, before), dets), fps);
  }

  /** The inner loop: one event per tracked detection. */
  method ReportFrame(frameIndex: nat, fps: real, tracked: Frame) returns (events: seq<Event>, ids: set<nat>)
    ensures events == FrameEvents(frameIndex, fps, tracked, |tracked|)
    ensures ids == TrackIds(tracked, |tracked|)
  {
    events, ids := [], {};
    for i := 0 to |tracked|
      invariant events == FrameEvents(frameIndex, fps, tracked, i)
      invariant ids == TrackIds(tracked, i)
    {
      ids := ids + {IdIn(tracked[i])};
      events := events + [EventOf(frameIndex, fps, tracked[i])];
    }
  }

  /** The frame loop. `raw[f]` is what the detector answered for frame `f`. */
  method RunDetectionPipeline(raw: seq<Frame>, fps: real, threshold: real, allowed: set<string>) returns (r: Report)
    ensures r == Expected(raw, fps, threshold, allowed)
    ensures Accurate(r, raw, fps, threshold, allowed)
  {
    var tracker := new Tracker(DEFAULT_CONFIG);
    var events: seq<Event> := [];
    var seenTrackIds: set<nat> := {};
    var frameCount: nat := 0;
    ghost var frames: seq<Frame> := [];
    while frameCount < |raw|
      invariant frameCount <= |raw| && fresh(tracker) && tracker.config == DEFAULT_CONFIG
      invariant frames == FilterFrames(raw[..frameCount], threshold, allowed) && |frames| == frameCount
      invariant tracker.Abstract() == Run(DEFAULT_CONFIG, frames)
      invariant events == AllEvents(Outputs(DEFAULT_CONFIG, frames), fps)
      invariant seenTrackIds == AllTrackIds(Outputs(DEFAULT_CONFIG, frames))
    {
      TakeTake(raw, frameCount, frameCount + 1);
      var filtered := FilterDetections(raw[frameCount], threshold, allowed);
      OneMoreFrame(DEFAULT_CONFIG, frames, filtered, fps);
      var tracked := tracker.Update(filtered);
      var newEvents, newIds := ReportFrame(frameCount, fps, tracked);
      frames := frames + [filtered];
      events := events + newEvents;
      seenTrackIds := seenTrackIds + newIds;
      frameCount := frameCount + 1;
    }
    TakeAll(raw);
    ReportIsAccurate(raw, fps, threshold, allowed);
    r := Report(frameCount, events, |seenTrackIds|);
  }
}
