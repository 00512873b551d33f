/** Precision, recall and average precision of a ranked list of hits and misses. */
module AveragePrecision {
  import opened Evaluation

  datatype Score = Score(precision: real, recall: real, averagePrecision: real, support: nat)

  /** Precision and recall after the first `n` predictions. */
  function PrecisionAt(hits: seq<bool>, n: nat): real
    requires 0 < n <= |hits|
  {
    Hits(hits, n) as real / n as real
  }

  function RecallAt(hits: seq<bool>, support: nat, n: nat): real
    requires n <= |hits| && support > 0
  {
    Hits(hits, n) as real / support as real
  }

  /** The rectangle rule: each step in recall counts with the precision reached there. */
  function CurveArea(hits: seq<bool>, support: nat, n: nat): real
    requires n <= |hits| && support > 0
  {
    if n == 0 then 0.0 else
    CurveArea(hits, support, n - 1) +
    (RecallAt(hits, support, n) - RecallAt(hits, support, n - 1)) * PrecisionAt(hits, n)
  }

  function ScoreOf(hits: seq<bool>, support: nat): Score {
    if support == 0 || hits == [] then Score(0.0, 0.0, 0.0, support) else
    Score(PrecisionAt(hits, |hits|), RecallAt(hits, support, |hits|), CurveArea(hits, support, |hits|), support)
  }

  lemma {:induction false} HitsBound(hits: seq<bool>, n: nat)
    requires n <= |hits|
    ensures Hits(hits, n) <= n
    ensures Hits(hits, n) == n <==> forall i :: 0 <= i < n ==> hits[i]
  {
    if n > 0 {
      HitsBound(hits, n - 1);
    }
  }

  lemma {:induction false} HitsGrow(hits: seq<bool>, m: nat, n: nat)
    requires m <= n <= |hits|
    ensures Hits(hits, m) <= Hits(hits, n)
    decreases n
  {
    if m < n {
      HitsGrow(hits, m, n - 1);
    }
  }

  lemma DivBounds(a: nat, b: nat)
    requires b > 0
    ensures a <= b ==> 0.0 <= a as real / b as real <= 1.0
    ensures a as real / b as real == 1.0 <==> a == b
    ensures a as real / b as real >= 0.0
    ensures (a + 1) as real / b as real - a as real / b as real == 1.0 / b as real > 0.0
  {
    var q := a as real / b as real;
    assert q * b as real == a as real;
    var r := (a + 1) as real / b as real;
    assert r * b as real == (a + 1) as real;
    var u := 1.0 / b as real;
    assert u * b as real == 1.0;
    assert (r - q - u) * b as real == 0.0;
  }

  lemma PrecisionBounds(hits: seq<bool>, n: nat)
    requires 0 < n <= |hits|
    ensures 0.0 <= PrecisionAt(hits, n) <= 1.0
    ensures PrecisionAt(hits, n) == 1.0 <==> Hits(hits, n) == n
  {
    HitsBound(hits, n);
    DivBounds(Hits(hits, n), n);
  }

  lemma RecallStep(hits: seq<bool>, support: nat, n: nat)
    requires 0 < n <= |hits| && support > 0
    ensures RecallAt(hits, support, n) - RecallAt(hits, support, n - 1) ==
      if hits[n - 1] then 1.0 / support as real else 0.0
  {
    DivBounds(Hits(hits, n - 1), support);
  }

  /** A hit adds its precision times one share of the support; a miss adds nothing. */
  lemma AreaStep(hits: seq<bool>, support: nat, n: nat)
    requires 0 < n <= |hits| && support > 0
    ensures CurveArea(hits, support, n) == CurveArea(hits, support, n - 1) +
      (if hits[n - 1] then 1.0 / support as real else 0.0) * PrecisionAt(hits, n)
  {
    RecallStep(hits, support, n);
  }

  /** Every hit among the first `n` comes after hits only. */
  ghost predicate HitsFirst(hits: seq<bool>, n: nat)
    requires n <= |hits|
  {
    forall k :: 0 < k <= n && hits[k - 1] ==> Hits(hits, k) == k
  }

  lemma Share(u: real, p: real)
    requires 0.0 < u && 0.0 <= p <= 1.0
    ensures 0.0 <= u * p <= u
    ensures u * p == u <==> p == 1.0
  {
    assert u - u * p == u * (1.0 - p);
    assert u * (1.0 - p) >= 0.0;
    assert p < 1.0 ==> u * (1.0 - p) > 0.0;
  }

  lemma HitsFirstStep(hits: seq<bool>, n: nat)
    requires 0 < n <= |hits|
    ensures HitsFirst(hits, n) <==> HitsFirst(hits, n - 1) && (hits[n - 1] ==> Hits(hits, n) == n)
  {}

  lemma BoundsStep(area: real, recall: real, area': real, recall': real, share: real, precision: real, hit: bool)
    requires 0.0 <= area <= recall && 0.0 < share && 0.0 <= precision <= 1.0
    requires recall' - recall == if hit then share else 0.0
    requires area' == area + (if hit then share else 0.0) * precision
    ensures 0.0 <= area' <= recall'
    ensures area' == recall' <==> area == recall && (hit ==> precision == 1.0)
  {
    Share(share, precision);
  }

  /** 0 <= AP <= recall at every rank, with equality exactly when no hit comes after a miss. */
  lemma {:induction false} AreaWithinRecall(hits: seq<bool>, support: nat, n: nat)
    requires n <= |hits| && support > 0
    ensures 0.0 <= CurveArea(hits, support, n) <= RecallAt(hits, support, n)
    ensures CurveArea(hits, support, n) == RecallAt(hits, support, n) <==> HitsFirst(hits, n)
  {
    if n > 0 {
      AreaWithinRecall(hits, support, n - 1);
      AreaStep(hits, support, n);
      RecallStep(hits, support, n);
      PrecisionBounds(hits, n);
      DivBounds(0, support);
      HitsFirstStep(hits, n);
      BoundsStep(CurveArea(hits, support, n - 1), RecallAt(hits, support, n - 1),
                 CurveArea(hits, support, n), RecallAt(hits, support, n),
                 1.0 / support as real, PrecisionAt(hits, n), hits[n - 1]);
    }
  }

  lemma {:induction false} NextHit(hits: seq<bool>, m: nat) returns (k: nat)
    requires m <= |hits| && Hits(hits, m) < Hits(hits, |hits|)
    ensures m < k <= |hits| && hits[k - 1]
    decreases |hits| - m
  {
    if hits[m] {
      k := m + 1;
    } else {
      k := NextHit(hits, m + 1);
    }
  }

  /** All hits lead, and there are `support` of them: the first `support` predictions are the hits. */
  lemma LeadingHits(hits: seq<bool>, support: nat)
    requires support > 0 && Hits(hits, |hits|) <= support
    ensures Hits(hits, |hits|) == support && HitsFirst(hits, |hits|) <==>
      support <= |hits| && forall i :: 0 <= i < support ==> hits[i]
  {
    HitsBound(hits, |hits|);
    if Hits(hits, |hits|) == support && HitsFirst(hits, |hits|) {
      HitsBound(hits, support);
      if Hits(hits, support) < support {
        var k := NextHit(hits, support);
        HitsBound(hits, k - 1);
        HitsGrow(hits, k, |hits|);
      }
    } else if support <= |hits| && forall i :: 0 <= i < support ==> hits[i] {
      HitsBound(hits, support);
      HitsGrow(hits, support, |hits|);
      forall k | 0 < k <= |hits| && hits[k - 1] ensures Hits(hits, k) == k {
        if k <= support {
          HitsBound(hits, k);
        } else {
          HitsGrow(hits, support, k - 1);
          HitsGrow(hits, k, |hits|);
        }
      }
    }
  }

  /** 0 <= AP <= recall <= 1 and 0 <= precision <= 1, and AP is 1 exactly when the first `support` ranked
      predictions are all hits. */
  lemma ScoreBounds(hits: seq<bool>, support: nat)
    requires Hits(hits, |hits|) <= support
    ensures var s := ScoreOf(hits, support);
      && 0.0 <= s.averagePrecision <= s.recall <= 1.0
      && 0.0 <= s.precision <= 1.0
      && (support > 0 ==> (s.averagePrecision == 1.0 <==> support <= |hits| && forall i :: 0 <= i < support ==> hits[i]))
  {
    if support > 0 && hits != [] {
      AreaWithinRecall(hits, support, |hits|);
      PrecisionBounds(hits, |hits|);
      DivBounds(Hits(hits, |hits|), support);
      LeadingHits(hits, support);
    }
  }

  lemma AllHitsIsPerfect(hits: seq<bool>, support: nat)
    requires support > 0 && |hits| == support && forall i :: 0 <= i < support ==> hits[i]
    ensures ScoreOf(hits, support) == Score(1.0, 1.0, 1.0, support)
  {
    HitsBound(hits, support);
    DivBounds(support, support);
    ScoreBounds(hits, support);
  }

  // ---------------------------------------------------------------- what the numbers mean

  function HitsBefore(hits: seq<bool>, n: nat): set<nat>
    requires n <= |hits|
  {
    set i: nat | i < n && hits[i]
  }

  lemma {:induction false} HitsCount(hits: seq<bool>, n: nat)
    requires n <= |hits|
    ensures Hits(hits, n) == |HitsBefore(hits, n)|
  {
    if n > 0 {
      HitsCount(hits, n - 1);
      assert HitsBefore(hits, n) == HitsBefore(hits, n - 1) + if hits[n - 1] then {n - 1} else {};
    }
  }

  lemma DivTimes(a: nat, b: nat)
    requires b > 0
    ensures a as real / b as real * b as real == a as real
  {}

  /** Precision is the share of hits among what was ranked so far; recall is their share of the support. */
  lemma SharesOfHits(hits: seq<bool>, support: nat, n: nat)
    requires 0 < n <= |hits| && support > 0
    ensures PrecisionAt(hits, n) * n as real == |HitsBefore(hits, n)| as real
    ensures RecallAt(hits, support, n) * support as real == |HitsBefore(hits, n)| as real
  {
    HitsCount(hits, n);
    DivTimes(Hits(hits, n), n);
    DivTimes(Hits(hits, n), support);
  }

  /** The precisions reached at the hits, added up. */
  function PrecisionsAtHits(hits: seq<bool>, n: nat): real
    requires n <= |hits|
  {
    if n == 0 then 0.0 else PrecisionsAtHits(hits, n - 1) + if hits[n - 1] then PrecisionAt(hits, n) else 0.0
  }

  lemma MeanStep(area: real, area': real, sum: real, sum': real, precision: real, support: nat, hit: bool)
    requires support > 0 && area * support as real == sum
    requires area' == area + (if hit then 1.0 / support as real else 0.0) * precision
    requires sum' == sum + if hit then precision else 0.0
    ensures area' * support as real == sum'
  {
    var share := 1.0 / support as real;
    assert share * support as real == 1.0;
    assert share * precision * support as real == precision * (share * support as real);
  }

  /** The area under the curve is the mean, over the support, of the precisions reached at the hits. */
  lemma {:induction false} AreaIsMeanPrecision(hits: seq<bool>, support: nat, n: nat)
    requires n <= |hits| && support > 0
    ensures CurveArea(hits, support, n) * support as real == PrecisionsAtHits(hits, n)
  {
    if n > 0 {
      AreaIsMeanPrecision(hits, support, n - 1);
      AreaStep(hits, support, n);
      MeanStep(CurveArea(hits, support, n - 1), CurveArea(hits, support, n), PrecisionsAtHits(hits, n - 1),
               PrecisionsAtHits(hits, n), PrecisionAt(hits, n), support, hits[n - 1]);
    }
  }

  /** `x` is `k` out of `n`. */
  ghost predicate IsShare(x: real, k: nat, n: nat) { x * n as real == k as real }

  ghost predicate IsMeanAtHits(x: real, hits: seq<bool>, support: nat) { x * support as real == PrecisionsAtHits(hits, |hits|) }

  /** Without predictions every number is 0; otherwise precision and recall are the shares of the hits in the list and
      in the support, and AP is the mean precision at the hits. */
  ghost predicate Measures(precision: real, recall: real, averagePrecision: real, hits: seq<bool>, support: nat) {
    if hits == [] then precision == 0.0 && recall == 0.0 && averagePrecision == 0.0 else
    && IsShare(precision, |HitsBefore(hits, |hits|)|, |hits|)
    && IsShare(recall, |HitsBefore(hits, |hits|)|, support)
    && IsMeanAtHits(averagePrecision, hits, support)
  }

  lemma SharesInAll(hits: seq<bool>, support: nat) returns (precision: real, recall: real)
    requires support > 0 && hits != []
    ensures precision == PrecisionAt(hits, |hits|) && IsShare(precision, |HitsBefore(hits, |hits|)|, |hits|)
    ensures recall == RecallAt(hits, support, |hits|) && IsShare(recall, |HitsBefore(hits, |hits|)|, support)
  {
    SharesOfHits(hits, support, |hits|);
    precision, recall := PrecisionAt(hits, |hits|), RecallAt(hits, support, |hits|);
  }

  lemma AreaInAll(hits: seq<bool>, support: nat) returns (area: real)
    requires support > 0
    ensures area == CurveArea(hits, support, |hits|) && IsMeanAtHits(area, hits, support)
  {
    AreaIsMeanPrecision(hits, support, |hits|);
    area := CurveArea(hits, support, |hits|);
  }

  lemma CurveMeasures(hits: seq<bool>, support: nat)
    requires support > 0 && hits != []
    ensures Measures(PrecisionAt(hits, |hits|), RecallAt(hits, support, |hits|), CurveArea(hits, support, |hits|), hits, support)
  {
    var precision, recall := SharesInAll(hits, support);
    var area := AreaInAll(hits, support);
  }

  lemma ScoreMeans(hits: seq<bool>, support: nat)
    ensures var s := ScoreOf(hits, support);
      s.support == support &&
      if support == 0 then s.precision == 0.0 && s.recall == 0.0 && s.averagePrecision == 0.0
      else Measures(s.precision, s.recall, s.averagePrecision, hits, support)
  {
    if support > 0 && hits != [] {
      CurveMeasures(hits, support);
    }
  }
}
