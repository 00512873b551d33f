/** Boxes and detections of the vision service, and its two intersection-over-union functions. */
module Geometry {
  import opened Wrappers

  datatype BoundingBox = BoundingBox(x: real, y: real, width: real, height: real)

  /** `className` is the source's `label`; `trackId` is unset until the tracker assigns one. */
  datatype Detection = Detection(className: string, confidence: real, box: BoundingBox, trackId: Option<nat>)

  function Max(a: real, b: real): real { if a >= b then a else b }
  function Min(a: real, b: real): real { if a <= b then a else b }

  /** Length of the overlap of [p, p + u] and [q, q + v], never negative. */
  function Overlap(p: real, u: real, q: real, v: real): real {
    Max(0.0, Min(p + u, q + v) - Max(p, q))
  }

  function Intersection(a: BoundingBox, b: BoundingBox): real {
    Overlap(a.x, a.width, b.x, b.width) * Overlap(a.y, a.height, b.y, b.height)
  }

  function Area(b: BoundingBox): real { b.width * b.height }
  function ClampedArea(b: BoundingBox): real { Max(0.0, b.width) * Max(0.0, b.height) }

  function Ratio(p: real, q: real): real { if q > 0.0 then p / q else 0.0 }

  /** The tracker's `_iou`: a non-positive side counts as area 0. */
  function TrackerIou(a: BoundingBox, b: BoundingBox): real {
    Ratio(Intersection(a, b), ClampedArea(a) + ClampedArea(b) - Intersection(a, b))
  }

  /** The evaluator's `compute_iou`: areas are plain products of the sides. */
  function EvaluationIou(a: BoundingBox, b: BoundingBox): real {
    Ratio(Intersection(a, b), Area(a) + Area(b) - Intersection(a, b))
  }

  predicate PositiveArea(b: BoundingBox) { b.width > 0.0 && b.height > 0.0 }

  lemma MulMono(a: real, b: real, c: real, d: real)
    requires 0.0 <= a <= c && 0.0 <= b <= d
    ensures 0.0 <= a * b <= c * d
  {
    assert c * d - a * b == (c - a) * d + a * (d - b);
    assert (c - a) * d >= 0.0 && a * (d - b) >= 0.0;
  }

  lemma StrictMul(a: real, b: real, c: real, d: real)
    requires 0.0 <= a <= c && 0.0 <= b <= d && 0.0 < c && 0.0 < d
    requires a * b == c * d
    ensures a == c && b == d
  {
    assert (c - a) * d + a * (d - b) == 0.0;
    assert (c - a) * d >= 0.0 && a * (d - b) >= 0.0;
    assert (c - a) * d == 0.0;
  }

  lemma AreaIsPositive(b: BoundingBox)
    requires PositiveArea(b)
    ensures Area(b) == ClampedArea(b) > 0.0
  {}

  /** The overlap of two positive-area boxes is no larger than either of them. */
  lemma IntersectionBounds(a: BoundingBox, b: BoundingBox)
    requires PositiveArea(a) && PositiveArea(b)
    ensures 0.0 <= Intersection(a, b) <= Area(a)
    ensures Intersection(a, b) <= Area(b)
    ensures Intersection(a, b) == Intersection(b, a)
  {
    var w, h := Overlap(a.x, a.width, b.x, b.width), Overlap(a.y, a.height, b.y, b.height);
    MulMono(w, h, a.width, a.height);
    MulMono(w, h, b.width, b.height);
  }

  /** Two positive-area boxes fill each other exactly when they are the same box. */
  lemma FullOverlap(a: BoundingBox, b: BoundingBox)
    requires PositiveArea(a) && PositiveArea(b)
    ensures Intersection(a, b) + Intersection(a, b) == Area(a) + Area(b) <==> a == b
  {
    var w, h := Overlap(a.x, a.width, b.x, b.width), Overlap(a.y, a.height, b.y, b.height);
    IntersectionBounds(a, b);
    if Intersection(a, b) + Intersection(a, b) == Area(a) + Area(b) {
      StrictMul(w, h, a.width, a.height);
      StrictMul(w, h, b.width, b.height);
    }
  }

  lemma IouRange(i: real, s: real, t: real)
    requires 0.0 <= i <= s && i <= t && 0.0 < s && 0.0 < t
    ensures 0.0 <= Ratio(i, s + t - i) <= 1.0
    ensures Ratio(i, s + t - i) == 1.0 <==> i + i == s + t
  {}

  /** On positive-area boxes the two functions agree, are symmetric, lie in [0, 1], and are 1 exactly on
      equal boxes. */
  lemma IouLaws(a: BoundingBox, b: BoundingBox)
    requires PositiveArea(a) && PositiveArea(b)
    ensures EvaluationIou(a, b) == TrackerIou(a, b) == TrackerIou(b, a)
    ensures 0.0 <= EvaluationIou(a, b) <= 1.0
    ensures EvaluationIou(a, b) == 1.0 <==> a == b
  {
    IntersectionBounds(a, b);
    FullOverlap(a, b);
    AreaIsPositive(a);
    AreaIsPositive(b);
    IouRange(Intersection(a, b), Area(a), Area(b));
  }

  // ---------------------------------------------------------------- what the functions measure

  predicate Common(p: real, u: real, q: real, v: real, t: real) { p <= t <= p + u && q <= t <= q + v }

  /** The overlap is the length of the common stretch: the common points are those from `s` on for that length. */
  lemma OverlapIsLength(p: real, u: real, q: real, v: real) returns (s: real)
    requires u >= 0.0 && v >= 0.0
    ensures Overlap(p, u, q, v) >= 0.0
    ensures (exists t: real :: Common(p, u, q, v, t)) ==>
      forall t: real :: Common(p, u, q, v, t) <==> s <= t <= s + Overlap(p, u, q, v)
    ensures !(exists t: real :: Common(p, u, q, v, t)) ==> Overlap(p, u, q, v) == 0.0
  {
    s := Max(p, q);
    if s <= Min(p + u, q + v) {
      assert Common(p, u, q, v, s);
    }
  }

  /** The point lies strictly inside the box. */
  predicate Inside(b: BoundingBox, x: real, y: real) { b.x < x < b.x + b.width && b.y < y < b.y + b.height }

  lemma OverlapMidpoint(p: real, u: real, q: real, v: real) returns (t: real)
    requires Overlap(p, u, q, v) > 0.0
    ensures p < t < p + u && q < t < q + v
  {
    t := (Max(p, q) + Min(p + u, q + v)) / 2.0;
  }

  lemma PositiveProduct(a: real, b: real)
    requires a >= 0.0 && b >= 0.0
    ensures a * b >= 0.0 && (a * b > 0.0 <==> a > 0.0 && b > 0.0)
  {}

  /** Two boxes have a common area exactly when some point lies inside both. */
  lemma IntersectionIff(a: BoundingBox, b: BoundingBox)
    ensures Intersection(a, b) >= 0.0
    ensures Intersection(a, b) > 0.0 <==> exists x: real, y: real :: Inside(a, x, y) && Inside(b, x, y)
  {
    var w, h := Overlap(a.x, a.width, b.x, b.width), Overlap(a.y, a.height, b.y, b.height);
    PositiveProduct(w, h);
    if w > 0.0 && h > 0.0 {
      var x := OverlapMidpoint(a.x, a.width, b.x, b.width);
      var y := OverlapMidpoint(a.y, a.height, b.y, b.height);
      assert Inside(a, x, y) && Inside(b, x, y);
    }
    if x: real, y: real :| Inside(a, x, y) && Inside(b, x, y) {
      assert w > 0.0 && h > 0.0;
    }
  }

  lemma RatioTimes(p: real, q: real)
    requires q > 0.0
    ensures Ratio(p, q) * q == p
  {}

  lemma CoveredIsPositive(i: real, s: real, t: real)
    requires 0.0 <= i <= s && i <= t && 0.0 < s && 0.0 < t
    ensures 0.0 <= i <= s + t - i && 0.0 < s + t - i
  {}

  lemma EvaluationIouIsShare(a: BoundingBox, b: BoundingBox) returns (common: real, covered: real)
    requires PositiveArea(a) && PositiveArea(b)
    ensures common == Intersection(a, b) && covered == Area(a) + Area(b) - common
    ensures 0.0 <= common <= covered && covered > 0.0
    ensures EvaluationIou(a, b) * covered == common
  {
    common, covered := Intersection(a, b), Area(a) + Area(b) - Intersection(a, b);
    assert 0.0 <= common <= covered && covered > 0.0 by {
      IntersectionBounds(a, b);
      AreaIsPositive(a);
      AreaIsPositive(b);
      CoveredIsPositive(common, Area(a), Area(b));
    }
    RatioTimes(common, covered);
  }

  lemma AreasAre(a: BoundingBox, b: BoundingBox)
    ensures Intersection(a, b) == Overlap(a.x, a.width, b.x, b.width) * Overlap(a.y, a.height, b.y, b.height)
    ensures Area(a) == a.width * a.height
  {}

  /** On positive-area boxes both functions are the common area as a share of the area covered by either box. */
  lemma IouIsShare(a: BoundingBox, b: BoundingBox) returns (common: real, covered: real)
    requires PositiveArea(a) && PositiveArea(b)
    ensures common == Overlap(a.x, a.width, b.x, b.width) * Overlap(a.y, a.height, b.y, b.height)
    ensures covered == a.width * a.height + b.width * b.height - common
    ensures 0.0 <= common <= covered && covered > 0.0
    ensures TrackerIou(a, b) * covered == common && EvaluationIou(a, b) * covered == common
  {
    common, covered := EvaluationIouIsShare(a, b);
    IouLaws(a, b);
    AreasAre(a, b);
    AreasAre(b, a);
  }

  lemma RatioIsZeroIff(p: real, q: real)
    requires p >= 0.0 && q > 0.0
    ensures Ratio(p, q) == 0.0 <==> p == 0.0
  {
    RatioTimes(p, q);
  }

  /** It is 0 exactly when no point lies inside both. */
  lemma IouIsZeroIff(a: BoundingBox, b: BoundingBox)
    requires PositiveArea(a) && PositiveArea(b)
    ensures TrackerIou(a, b) == 0.0 <==> !(exists x: real, y: real :: Inside(a, x, y) && Inside(b, x, y))
    ensures EvaluationIou(a, b) == TrackerIou(a, b)
  {
    IntersectionBounds(a, b);
    AreaIsPositive(a);
    AreaIsPositive(b);
    RatioIsZeroIff(Intersection(a, b), Area(a) + Area(b) - Intersection(a, b));
    IntersectionIff(a, b);
  }

  predicate Within(b: BoundingBox, a: BoundingBox) {
    a.x <= b.x && b.x + b.width <= a.x + a.width && a.y <= b.y && b.y + b.height <= a.y + a.height
  }

  /** Of a box inside another it is the inner area's share of the outer. */
  lemma IouOfInnerBox(a: BoundingBox, b: BoundingBox)
    requires PositiveArea(a) && PositiveArea(b) && Within(b, a)
    ensures TrackerIou(a, b) * (a.width * a.height) == b.width * b.height
  {
    var common, covered := IouIsShare(a, b);
    assert Overlap(a.x, a.width, b.x, b.width) == b.width && Overlap(a.y, a.height, b.y, b.height) == b.height;
  }

  /** A box with a side that is not positive overlaps nothing, for either function. */
  lemma DegenerateIouIsZero(a: BoundingBox, b: BoundingBox)
    requires !PositiveArea(a) || !PositiveArea(b)
    ensures TrackerIou(a, b) == 0.0 && EvaluationIou(a, b) == 0.0
  {
    var w, h := Overlap(a.x, a.width, b.x, b.width), Overlap(a.y, a.height, b.y, b.height);
    assert w == 0.0 || h == 0.0;
    assert Intersection(a, b) == 0.0;
  }
}
