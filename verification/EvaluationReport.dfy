/** The evaluation entry points: one score per class, the mean, and the flagged classes. */
module EvaluationReport {
  import opened Sequences
  import opened Geometry
  import opened StableSort
  import opened SortedNames
  import opened Evaluation
  import opened AveragePrecision

  const FLAG_RELATIVE_DROP := 0.2

  datatype ClassMetric = ClassMetric(className: string, precision: real, recall: real, averagePrecision: real, support: nat)

  datatype Report = Report(meanAveragePrecision: real, perClass: seq<ClassMetric>, flagged: seq<string>, notes: seq<string>)

  // ---------------------------------------------------------------- one class

  /** The class's predictions, keyed by confidence, in file order. */
  function ClassItems(predictions: Ranked, className: string): seq<Keyed<(string, Detection)>> {
    if predictions == [] then [] else
    var last := predictions[|predictions| - 1];
    ClassItems(predictions[..|predictions| - 1], className) +
    if last.1.className == className then [Keyed(last.1.confidence, last)] else []
  }

  function Unkeyed(s: seq<Keyed<(string, Detection)>>): Ranked {
    if s == [] then [] else Unkeyed(s[..|s| - 1]) + [s[|s| - 1].item]
  }

  function RankedFor(predictions: Ranked, className: string): Ranked {
    Unkeyed(SortDescending(ClassItems(predictions, className)))
  }

  function HitsFor(predictions: Ranked, truth: Dict, className: string, threshold: real): seq<bool> {
    ScanAll(RankedFor(predictions, className), truth, className, threshold).hits
  }

  function ScoreFor(predictions: Ranked, truth: Dict, className: string, threshold: real): Score {
    ScoreOf(HitsFor(predictions, truth, className, threshold), |Slots(truth, className)|)
  }

  lemma {:induction false} UnkeyedAt(s: seq<Keyed<(string, Detection)>>)
    ensures |Unkeyed(s)| == |s|
    ensures forall i :: 0 <= i < |s| ==> Unkeyed(s)[i] == s[i].item
  {
    if s != [] {
      UnkeyedAt(s[..|s| - 1]);
    }
  }

  /** The entries of one class, in order. */
  function OfClass(predictions: Ranked, className: string): Ranked {
    if predictions == [] then [] else
    var last := predictions[|predictions| - 1];
    OfClass(predictions[..|predictions| - 1], className) + if last.1.className == className then [last] else []
  }

  /** The entries of one confidence, in order. */
  function OfConfidence(items: Ranked, confidence: real): Ranked {
    if items == [] then [] else
    (if items[0].1.confidence == confidence then [items[0]] else []) + OfConfidence(items[1..], confidence)
  }

  /** Each key is the confidence of its item. */
  ghost predicate KeyedByConfidence(s: seq<Keyed<(string, Detection)>>) {
    forall i :: 0 <= i < |s| ==> s[i].key == s[i].item.1.confidence
  }

  lemma {:induction false} ItemsAreOfClass(predictions: Ranked, className: string)
    ensures KeyedByConfidence(ClassItems(predictions, className))
    ensures Unkeyed(ClassItems(predictions, className)) == OfClass(predictions, className)
  {
    if predictions != [] {
      var init, last := predictions[..|predictions| - 1], predictions[|predictions| - 1];
      ItemsAreOfClass(init, className);
      if last.1.className == className {
        Snoc(ClassItems(init, className), Keyed(last.1.confidence, last));
      } else {
        assert ClassItems(init, className) + [] == ClassItems(init, className);
        assert OfClass(init, className) + [] == OfClass(init, className);
      }
    }
  }

  lemma {:induction false} KeysStay(s: seq<Keyed<(string, Detection)>>, t: seq<Keyed<(string, Detection)>>)
    requires KeyedByConfidence(s) && multiset(t) == multiset(s)
    ensures KeyedByConfidence(t)
  {
    forall i | 0 <= i < |t| ensures t[i].key == t[i].item.1.confidence {
      assert t[i] in multiset(s);
    }
  }

  lemma {:induction false} ItemCount(s: seq<Keyed<(string, Detection)>>, x: (string, Detection))
    requires KeyedByConfidence(s)
    ensures multiset(Unkeyed(s))[x] == multiset(s)[Keyed(x.1.confidence, x)]
  {
    if s != [] {
      var init, last := s[..|s| - 1], s[|s| - 1];
      ItemCount(init, x);
      InitLast(s);
      assert multiset(s) == multiset(init) + multiset{last};
      assert multiset(Unkeyed(s)) == multiset(Unkeyed(init)) + multiset{last.item};
    }
  }

  lemma UnkeyedCons(x: Keyed<(string, Detection)>, s: seq<Keyed<(string, Detection)>>)
    ensures Unkeyed([x] + s) == [x.item] + Unkeyed(s)
  {
    UnkeyedAt([x] + s);
    UnkeyedAt(s);
  }

  lemma {:induction false} ConfidenceIsKey(s: seq<Keyed<(string, Detection)>>, confidence: real)
    requires KeyedByConfidence(s)
    ensures OfConfidence(Unkeyed(s), confidence) == Unkeyed(WithKey(s, confidence))
  {
    if s == [] {
    } else {
      UnkeyedCons(s[0], s[1..]);
      HeadTail(s);
      ConfidenceIsKey(s[1..], confidence);
      ConsTail(s[0].item, Unkeyed(s[1..]));
      if s[0].key == confidence {
        UnkeyedCons(s[0], WithKey(s[1..], confidence));
      } else {
        assert [] + WithKey(s[1..], confidence) == WithKey(s[1..], confidence);
      }
    }
  }

  /** A class's predictions are ranked by confidence, highest first, none lost or repeated, and in their original
      order where confidences are equal. */
  lemma RankedByConfidence(predictions: Ranked, className: string)
    ensures var ranked := RankedFor(predictions, className);
      && (forall i, j :: 0 <= i < j < |ranked| ==> ranked[i].1.confidence >= ranked[j].1.confidence)
      && multiset(ranked) == multiset(OfClass(predictions, className))
      && (forall c :: OfConfidence(ranked, c) == OfConfidence(OfClass(predictions, className), c))
  {
    var items := ClassItems(predictions, className);
    var sorted := SortDescending(items);
    SortIsStableSort(items);
    ItemsAreOfClass(predictions, className);
    KeysStay(items, sorted);
    UnkeyedAt(sorted);
    forall x ensures multiset(Unkeyed(sorted))[x] == multiset(Unkeyed(items))[x] {
      ItemCount(sorted, x);
      ItemCount(items, x);
    }
    assert multiset(Unkeyed(sorted)) == multiset(Unkeyed(items));
    forall c ensures OfConfidence(Unkeyed(sorted), c) == OfConfidence(OfClass(predictions, className), c) {
      ConfidenceIsKey(sorted, c);
      ConfidenceIsKey(items, c);
    }
  }

  lemma {:induction false} OfClassCounts(predictions: Ranked, className: string)
    ensures forall x :: multiset(OfClass(predictions, className))[x] == (if x.1.className == className then multiset(predictions)[x] else 0)
  {
    if predictions != [] {
      OfClassCounts(predictions[..|predictions| - 1], className);
      InitLast(predictions);
    }
  }

  /** All numbers of a class lie in [0, 1], AP never exceeds recall, and AP is 1 exactly when the first
      `support` ranked predictions are all true positives. */
  lemma ScoreForBounds(predictions: Ranked, truth: Dict, className: string, threshold: real)
    requires UniqueFiles(truth)
    ensures var s, h := ScoreFor(predictions, truth, className, threshold), HitsFor(predictions, truth, className, threshold);
      && 0.0 <= s.averagePrecision <= s.recall <= 1.0
      && 0.0 <= s.precision <= 1.0
      && s.support == |Slots(truth, className)|
      && (s.support > 0 ==> (s.averagePrecision == 1.0 <==> s.support <= |h| && forall i :: 0 <= i < s.support ==> h[i]))
  {
    HitsWithinSupport(RankedFor(predictions, className), truth, className, threshold);
    ScoreBounds(HitsFor(predictions, truth, className, threshold), |Slots(truth, className)|);
  }

  /** The greedy matching loop. */
  method MatchRanked(ranked: Ranked, truth: Dict, className: string, threshold: real)
    returns (matched: set<Slot>, hits: seq<bool>)
    ensures Scan(matched, hits) == ScanAll(ranked, truth, className, threshold)
  {
    matched, hits := {}, [];
    for k := 0 to |ranked|
      invariant Scan(matched, hits) == ScanAll(ranked[..k], truth, className, threshold)
    {
      TakeTake(ranked, k, k + 1);
      var (fileName, prediction) := ranked[k];
      var candidates := Get(truth, fileName);
      var bestIou, bestIndex := 0.0, -1;
      for i := 0 to |candidates|
        invariant Best(bestIou, bestIndex) == FindBest(prediction, fileName, candidates, className, matched, i)
      {
        if candidates[i].className != className || (fileName, i) in matched {
          continue;
        }
        var iou := EvaluationIou(prediction.box, candidates[i].box);
        if iou > bestIou {
          bestIou, bestIndex := iou, i;
        }
      }
      FindBestIsBest(prediction, fileName, candidates, className, matched, |candidates|);
      if bestIndex >= 0 && bestIou >= threshold {
        matched := matched + {(fileName, bestIndex)};
        hits := hits + [true];
      } else {
        hits := hits + [false];
      }
    }
    TakeAll(ranked);
  }

  ghost predicate ArePrecisions(precisions: seq<real>, hits: seq<bool>, k: nat)
    requires k <= |hits|
  {
    |precisions| == k && forall i :: 0 <= i < k ==> precisions[i] == PrecisionAt(hits, i + 1)
  }

  ghost predicate AreRecalls(recalls: seq<real>, hits: seq<bool>, support: nat, k: nat)
    requires k <= |hits| && support > 0
  {
    |recalls| == k && forall i :: 0 <= i < k ==> recalls[i] == RecallAt(hits, support, i + 1)
  }

  /** The first pass: cumulative counts, and precision and recall at each rank. */
  method CumulativeColumns(hits: seq<bool>, support: nat) returns (precisions: seq<real>, recalls: seq<real>)
    requires support > 0
    ensures ArePrecisions(precisions, hits, |hits|) && AreRecalls(recalls, hits, support, |hits|)
  {
    var cumulativeTp, cumulativeFp := 0, 0;
    precisions, recalls := [], [];
    for k := 0 to |hits|
      invariant cumulativeTp == Hits(hits, k) && cumulativeTp + cumulativeFp == k
      invariant ArePrecisions(precisions, hits, k) && AreRecalls(recalls, hits, support, k)
    {
      if hits[k] {
        cumulativeTp := cumulativeTp + 1;
      } else {
        cumulativeFp := cumulativeFp + 1;
      }
      precisions := precisions + [cumulativeTp as real / (cumulativeTp + cumulativeFp) as real];
      recalls := recalls + [cumulativeTp as real / support as real];
    }
  }

  function PreviousRecall(recalls: seq<real>, n: nat): real
    requires n <= |recalls|
  {
    if n == 0 then 0.0 else recalls[n - 1]
  }

  function ColumnArea(precisions: seq<real>, recalls: seq<real>, n: nat): real
    requires n <= |precisions| == |recalls|
  {
    if n == 0 then 0.0 else
    ColumnArea(precisions, recalls, n - 1) + (recalls[n - 1] - PreviousRecall(recalls, n - 1)) * precisions[n - 1]
  }

  lemma PreviousIsRecall(recalls: seq<real>, hits: seq<bool>, support: nat, n: nat)
    requires support > 0 && AreRecalls(recalls, hits, support, |hits|) && n <= |hits|
    ensures PreviousRecall(recalls, n) == RecallAt(hits, support, n)
  {}

  lemma ColumnAreaGrows(precisions: seq<real>, recalls: seq<real>, hits: seq<bool>, support: nat, n: nat)
    requires support > 0 && n < |hits|
    requires ArePrecisions(precisions, hits, |hits|) && AreRecalls(recalls, hits, support, |hits|)
    requires ColumnArea(precisions, recalls, n) == CurveArea(hits, support, n)
    ensures ColumnArea(precisions, recalls, n + 1) == CurveArea(hits, support, n + 1)
  {
    PreviousIsRecall(recalls, hits, support, n);
    assert recalls[n] == RecallAt(hits, support, n + 1) && precisions[n] == PrecisionAt(hits, n + 1);
  }

  lemma {:induction false} ColumnAreaIsCurveArea(precisions: seq<real>, recalls: seq<real>, hits: seq<bool>, support: nat, n: nat)
    requires support > 0 && n <= |hits|
    requires ArePrecisions(precisions, hits, |hits|) && AreRecalls(recalls, hits, support, |hits|)
    ensures ColumnArea(precisions, recalls, n) == CurveArea(hits, support, n)
  {
    if n > 0 {
      ColumnAreaIsCurveArea(precisions, recalls, hits, support, n - 1);
      ColumnAreaGrows(precisions, recalls, hits, support, n - 1);
    }
  }

  /** The second pass: the rectangle rule over those columns. */
  method AreaUnder(precisions: seq<real>, recalls: seq<real>) returns (area: real)
    requires |precisions| == |recalls|
    ensures area == ColumnArea(precisions, recalls, |recalls|)
  {
    area := 0.0;
    var previousRecall := 0.0;
    for k := 0 to |precisions|
      invariant area == ColumnArea(precisions, recalls, k) && previousRecall == PreviousRecall(recalls, k)
    {
      area := area + (recalls[k] - previousRecall) * precisions[k];
      previousRecall := recalls[k];
    }
  }

  /** The two passes over the cumulative counts. */
  method IntegrateCurve(hits: seq<bool>, support: nat) returns (precision: real, recall: real, area: real)
    requires support > 0 && hits != []
    ensures Score(precision, recall, area, support) == ScoreOf(hits, support)
  {
    var precisions, recalls := CumulativeColumns(hits, support);
    area := AreaUnder(precisions, recalls);
    ColumnAreaIsCurveArea(precisions, recalls, hits, support, |hits|);
    precision, recall := precisions[|hits| - 1], recalls[|hits| - 1];
  }

  method MatchAndScore(predictions: Ranked, truth: Dict, className: string, threshold: real) returns (score: Score)
    requires UniqueFiles(truth)
    ensures score == ScoreFor(predictions, truth, className, threshold)
    ensures 0.0 <= score.averagePrecision <= score.recall <= 1.0 && 0.0 <= score.precision <= 1.0
  {
    ScoreForBounds(predictions, truth, className, threshold);
    var support := |Slots(truth, className)|;
    var ranked := RankedFor(predictions, className);
    MatchesAreSlots(ranked, truth, className, threshold);
    if support == 0 || ranked == [] {
      return Score(0.0, 0.0, 0.0, support);
    }
    var matched, hits := MatchRanked(ranked, truth, className, threshold);
    var precision, recall, area := IntegrateCurve(hits, support);
    score := Score(precision, recall, area, support);
  }

  // ---------------------------------------------------------------- the report

  function Tagged(file: string, dets: seq<Detection>): Ranked {
    if dets == [] then [] else Tagged(file, dets[..|dets| - 1]) + [(file, dets[|dets| - 1])]
  }

  function Flatten(d: Dict): Ranked {
    if d == [] then [] else Flatten(d[..|d| - 1]) + Tagged(d[|d| - 1].0, d[|d| - 1].1)
  }

  function ClassNames(truth: Dict): set<string> {
    set item | item in Flatten(truth) :: item.1.className
  }

  function MetricFor(predictions: Ranked, truth: Dict, className: string, threshold: real): ClassMetric {
    var s := ScoreFor(predictions, truth, className, threshold);
    ClassMetric(className, s.precision, s.recall, s.averagePrecision, s.support)
  }

  function Metrics(predictions: Ranked, truth: Dict, classNames: seq<string>, threshold: real): seq<ClassMetric> {
    seq(|classNames|, i requires 0 <= i < |classNames| => MetricFor(predictions, truth, classNames[i], threshold))
  }

  function Scored(perClass: seq<ClassMetric>): seq<ClassMetric> {
    if perClass == [] then [] else
    var last := perClass[|perClass| - 1];
    Scored(perClass[..|perClass| - 1]) + if last.support > 0 then [last] else []
  }

  function TotalAp(scored: seq<ClassMetric>): real {
    if scored == [] then 0.0 else TotalAp(scored[..|scored| - 1]) + scored[|scored| - 1].averagePrecision
  }

  function MeanAp(scored: seq<ClassMetric>): real {
    if scored == [] then 0.0 else TotalAp(scored) / |scored| as real
  }

  function Below(scored: seq<ClassMetric>, ceiling: real): seq<string> {
    if scored == [] then [] else
    var last := scored[|scored| - 1];
    Below(scored[..|scored| - 1], ceiling) + if last.averagePrecision < ceiling then [last.className] else []
  }

  function FlagCeiling(mean: real): real { mean * (1.0 - FLAG_RELATIVE_DROP) }

  function ReportOf(perClass: seq<ClassMetric>, notes: seq<string>): Report {
    var scored := Scored(perClass);
    var mean := MeanAp(scored);
    Report(mean, perClass, Below(scored, FlagCeiling(mean)), notes)
  }

  function EvaluationOf(predictions: Dict, truth: Dict, notes: seq<string>, threshold: real): Report {
    ReportOf(Metrics(Flatten(predictions), truth, Sorted(ClassNames(truth)), threshold), notes)
  }

  ghost predicate UnitMetric(m: ClassMetric) {
    && 0.0 <= m.averagePrecision <= m.recall <= 1.0
    && 0.0 <= m.precision <= 1.0
  }

  lemma {:induction false} ScoredAre(perClass: seq<ClassMetric>)
    ensures forall m :: m in Scored(perClass) <==> m in perClass && m.support > 0
  {
    if perClass != [] {
      var init, last := perClass[..|perClass| - 1], perClass[|perClass| - 1];
      ScoredAre(init);
      InitLast(perClass);
      forall m ensures m in Scored(perClass) <==> m in perClass && m.support > 0 {
        assert m in perClass <==> m in init || m == last;
      }
    }
  }

  lemma {:induction false} TotalWithin(scored: seq<ClassMetric>, low: real, high: real)
    requires forall m :: m in scored ==> low <= m.averagePrecision <= high
    ensures low * |scored| as real <= TotalAp(scored) <= high * |scored| as real
  {
    if scored != [] {
      TotalWithin(scored[..|scored| - 1], low, high);
      assert low * |scored| as real == low * (|scored| - 1) as real + low;
      assert high * |scored| as real == high * (|scored| - 1) as real + high;
    }
  }

  lemma DivSandwich(t: real, n: real, low: real, high: real)
    requires n > 0.0
    ensures low * n <= t <= high * n ==> low <= t / n <= high
    ensures t < high * n ==> t / n < high
  {
    var q := t / n;
    assert q * n == t;
    assert low * n <= t ==> (q - low) * n >= 0.0;
    assert t <= high * n ==> (high - q) * n >= 0.0;
  }

  lemma MeanWithin(scored: seq<ClassMetric>, low: real, high: real)
    requires scored != [] && forall m :: m in scored ==> low <= m.averagePrecision <= high
    ensures low <= MeanAp(scored) <= high
  {
    TotalWithin(scored, low, high);
    DivSandwich(TotalAp(scored), |scored| as real, low, high);
  }

  ghost predicate Lags(scored: seq<ClassMetric>, c: string, ceiling: real) {
    exists m :: m in scored && m.className == c && m.averagePrecision < ceiling
  }

  lemma {:induction false} BelowAre(scored: seq<ClassMetric>, ceiling: real)
    ensures |Below(scored, ceiling)| <= |scored|
    ensures |Below(scored, ceiling)| == |scored| <==> forall m :: m in scored ==> m.averagePrecision < ceiling
    ensures forall c :: c in Below(scored, ceiling) <==> Lags(scored, c, ceiling)
  {
    if scored != [] {
      var init := scored[..|scored| - 1];
      BelowAre(init, ceiling);
      assert forall m :: m in scored <==> m in init || m == scored[|scored| - 1];
    }
  }

  lemma {:induction false} TotalStrictlyBelow(scored: seq<ClassMetric>, bound: real)
    requires scored != [] && forall m :: m in scored ==> m.averagePrecision < bound
    ensures TotalAp(scored) < bound * |scored| as real
  {
    var init := scored[..|scored| - 1];
    assert bound * |scored| as real == bound * |init| as real + bound;
    if init != [] {
      TotalStrictlyBelow(init, bound);
    }
  }

  lemma MeanStrictlyBelow(scored: seq<ClassMetric>, bound: real)
    requires scored != [] && forall m :: m in scored ==> m.averagePrecision < bound
    ensures MeanAp(scored) < bound
  {
    TotalStrictlyBelow(scored, bound);
    DivSandwich(TotalAp(scored), |scored| as real, bound, bound);
  }

  lemma NotAllLag(scored: seq<ClassMetric>)
    requires scored != [] && forall m :: m in scored ==> UnitMetric(m)
    ensures 0.0 <= MeanAp(scored) <= 1.0
    ensures |Below(scored, FlagCeiling(MeanAp(scored)))| < |scored|
  {
    var ceiling := FlagCeiling(MeanAp(scored));
    MeanWithin(scored, 0.0, 1.0);
    BelowAre(scored, ceiling);
    if |Below(scored, ceiling)| == |scored| {
      MeanStrictlyBelow(scored, ceiling);
      assert false;
    }
  }

  lemma {:induction false} TotalApIsSum(a: seq<ClassMetric>, b: seq<ClassMetric>)
    ensures TotalAp(a + b) == TotalAp(a) + TotalAp(b)
    ensures |b| == 1 ==> TotalAp(b) == b[0].averagePrecision
  {
    if b == [] {
      assert a + b == a;
    } else {
      InitOfConcat(a, b);
      TotalApIsSum(a, b[..|b| - 1]);
    }
  }

  ghost predicate IsMean(mean: real, scored: seq<ClassMetric>) {
    if scored == [] then mean == 0.0 else mean * |scored| as real == TotalAp(scored)
  }

  lemma MeanApIsMean(scored: seq<ClassMetric>)
    ensures IsMean(MeanAp(scored), scored)
  {}

  lemma CeilingIs(mean: real)
    ensures FlagCeiling(mean) == 0.8 * mean
  {}

  /** The mean is that of the scored classes, 0 if there are none, and a flag means a scored class with an AP more
      than a fifth below it. */
  lemma ReportMeans(perClass: seq<ClassMetric>, notes: seq<string>)
    ensures var r, scored := ReportOf(perClass, notes), Scored(perClass);
      && r.perClass == perClass && r.notes == notes
      && (forall m :: m in scored <==> m in perClass && m.support > 0)
      && IsMean(r.meanAveragePrecision, scored)
      && (forall c :: c in r.flagged <==> Lags(scored, c, 0.8 * r.meanAveragePrecision))
  {
    var mean := MeanAp(Scored(perClass));
    ScoredAre(perClass);
    MeanApIsMean(Scored(perClass));
    CeilingIs(mean);
    BelowAre(Scored(perClass), FlagCeiling(mean));
  }

  /** Whatever the metrics: the mean lies in [0, 1] and not every scored class is flagged. */
  lemma ReportIsSane(perClass: seq<ClassMetric>, notes: seq<string>)
    requires forall m :: m in perClass ==> UnitMetric(m)
    ensures var r := ReportOf(perClass, notes);
      && 0.0 <= r.meanAveragePrecision <= 1.0
      && (Scored(perClass) != [] ==> |r.flagged| < |Scored(perClass)|)
  {
    var scored := Scored(perClass);
    ScoredAre(perClass);
    if scored != [] {
      NotAllLag(scored);
    }
  }

  // ---------------------------------------------------------------- evaluate

  lemma {:induction false} TaggedAt(file: string, dets: seq<Detection>)
    ensures |Tagged(file, dets)| == |dets|
    ensures forall i :: 0 <= i < |dets| ==> Tagged(file, dets)[i] == (file, dets[i])
  {
    if dets != [] {
      TaggedAt(file, dets[..|dets| - 1]);
    }
  }

  /** How many detections the first `n` files hold. */
  function Before(d: Dict, n: nat): nat
    requires n <= |d|
  {
    if n == 0 then 0 else Before(d, n - 1) + |d[n - 1].1|
  }

  ghost predicate Lists(items: Ranked, d: Dict, i: nat, j: nat)
    requires i < |d| && j < |d[i].1|
  {
    Before(d, i) + j < |items| && items[Before(d, i) + j] == (d[i].0, d[i].1[j])
  }

  lemma {:induction false} BeforeInit(d: Dict, last: (string, seq<Detection>), n: nat)
    requires n <= |d|
    ensures Before(d + [last], n) == Before(d, n)
  {
    if n > 0 {
      BeforeInit(d, last, n - 1);
    }
  }

  /** All detections with their files, file by file and in each file in order. */
  lemma {:induction false} FlattenLists(d: Dict)
    ensures |Flatten(d)| == Before(d, |d|)
    ensures forall i: nat, j: nat :: i < |d| && j < |d[i].1| ==> Lists(Flatten(d), d, i, j)
  {
    if d != [] {
      var init, last := d[..|d| - 1], d[|d| - 1];
      FlattenLists(init);
      InitLast(d);
      TaggedAt(last.0, last.1);
      BeforeInit(init, last, |init|);
      forall i: nat, j: nat | i < |d| && j < |d[i].1| ensures Lists(Flatten(d), d, i, j) {
        BeforeInit(init, last, i);
        if i < |init| {
          assert init[i] == d[i];
          assert Lists(Flatten(init), init, i, j);
        }
      }
    }
  }

  lemma {:induction false} FlattenedComesFrom(d: Dict, item: (string, Detection)) returns (i: nat, j: nat)
    requires item in Flatten(d)
    ensures i < |d| && j < |d[i].1| && item == (d[i].0, d[i].1[j])
  {
    var init, last := d[..|d| - 1], d[|d| - 1];
    if item in Flatten(init) {
      i, j := FlattenedComesFrom(init, item);
    } else {
      TaggedAt(last.0, last.1);
      i := |init|;
      j :| 0 <= j < |last.1| && Tagged(last.0, last.1)[j] == item;
    }
  }

  ghost predicate HasClass(d: Dict, i: nat, j: nat, className: string) {
    i < |d| && j < |d[i].1| && d[i].1[j].className == className
  }

  /** The classes are those of the ground truth's detections. */
  lemma ClassesAre(truth: Dict, c: string)
    ensures c in ClassNames(truth) <==> exists i: nat, j: nat :: HasClass(truth, i, j, c)
  {
    if c in ClassNames(truth) {
      var item :| item in Flatten(truth) && item.1.className == c;
      var i, j := FlattenedComesFrom(truth, item);
      assert HasClass(truth, i, j, c);
    }
    if i: nat, j: nat :| HasClass(truth, i, j, c) {
      FlattenLists(truth);
      assert Lists(Flatten(truth), truth, i, j);
      assert Flatten(truth)[Before(truth, i) + j].1.className == c;
    }
  }

  lemma {:induction false} FlattenedIsSlot(truth: Dict, item: (string, Detection)) returns (i: nat)
    requires UniqueFiles(truth) && item in Flatten(truth)
    ensures i < |Get(truth, item.0)| && Get(truth, item.0)[i] == item.1
  {
    var init, last := truth[..|truth| - 1], truth[|truth| - 1];
    GetInit(truth, item.0);
    if item in Flatten(init) {
      i := FlattenedIsSlot(init, item);
    } else {
      TaggedAt(last.0, last.1);
      i :| 0 <= i < |last.1| && Tagged(last.0, last.1)[i] == item;
    }
  }

  lemma ClassHasSupport(truth: Dict, className: string)
    requires UniqueFiles(truth) && className in ClassNames(truth)
    ensures |Slots(truth, className)| > 0
  {
    var item :| item in Flatten(truth) && item.1.className == className;
    var i := FlattenedIsSlot(truth, item);
    SlotsAre(truth, className);
    assert IsSlot(truth, className, (item.0, i));
  }

  /** The report has one in-range entry per ground-truth class, in name order, each with positive support. */
  ghost predicate Complete(r: Report, truth: Dict) {
    && |r.perClass| == |ClassNames(truth)|
    && (forall i, j :: 0 <= i < j < |r.perClass| ==> Less(r.perClass[i].className, r.perClass[j].className))
    && (forall m :: m in r.perClass ==> UnitMetric(m) && m.className in ClassNames(truth))
    && (forall m :: m in r.perClass ==> 0 < m.support == |Slots(truth, m.className)|)
  }

  lemma MetricsAreComplete(predictions: Dict, truth: Dict, notes: seq<string>, threshold: real)
    requires UniqueFiles(truth)
    ensures Complete(EvaluationOf(predictions, truth, notes, threshold), truth)
  {
    var classNames := Sorted(ClassNames(truth));
    var perClass := Metrics(Flatten(predictions), truth, classNames, threshold);
    SortedIsAscending(ClassNames(truth));
    forall i | 0 <= i < |perClass|
      ensures UnitMetric(perClass[i]) && perClass[i].className in ClassNames(truth)
      ensures 0 < perClass[i].support == |Slots(truth, perClass[i].className)|
    {
      assert classNames[i] in classNames;
      ScoreForBounds(Flatten(predictions), truth, classNames[i], threshold);
      ClassHasSupport(truth, classNames[i]);
    }
  }

  lemma {:induction false} AllSupportedAreScored(perClass: seq<ClassMetric>)
    requires forall m :: m in perClass ==> m.support > 0
    ensures Scored(perClass) == perClass
  {
    if perClass != [] {
      AllSupportedAreScored(perClass[..|perClass| - 1]);
      InitLast(perClass);
    }
  }

  ghost predicate NamesAscend(metrics: seq<ClassMetric>) {
    forall i, j :: 0 <= i < j < |metrics| ==> Less(metrics[i].className, metrics[j].className)
  }

  lemma {:induction false} BelowAscends(scored: seq<ClassMetric>, ceiling: real)
    requires NamesAscend(scored)
    ensures forall c :: c in Below(scored, ceiling) ==> exists i :: 0 <= i < |scored| && scored[i].className == c
    ensures forall i, j :: 0 <= i < j < |Below(scored, ceiling)| ==> Less(Below(scored, ceiling)[i], Below(scored, ceiling)[j])
  {
    if scored != [] {
      var init, last := scored[..|scored| - 1], scored[|scored| - 1];
      var before := Below(init, ceiling);
      BelowAscends(init, ceiling);
      forall c | c in before ensures Less(c, last.className) && exists i :: 0 <= i < |scored| && scored[i].className == c {
        var i :| 0 <= i < |init| && init[i].className == c;
        assert scored[i].className == c;
      }
      forall i | 0 <= i < |before| ensures Less(before[i], last.className) {
        assert before[i] in before;
      }
    }
  }

  /** For any predictions, truth and threshold, the report meets the API's range checks, flags a class exactly when
      its AP is more than a fifth below the mean, in name order, and never flags every class. */
  lemma EvaluationIsSane(predictions: Dict, truth: Dict, notes: seq<string>, threshold: real)
    requires UniqueFiles(truth)
    ensures var r := EvaluationOf(predictions, truth, notes, threshold);
      && Complete(r, truth) && r.notes == notes
      && 0.0 <= r.meanAveragePrecision <= 1.0
      && IsMean(r.meanAveragePrecision, r.perClass)
      && (r.perClass != [] ==> |r.flagged| < |r.perClass|)
      && (forall c :: c in r.flagged <==> Lags(r.perClass, c, 0.8 * r.meanAveragePrecision))
      && (forall i, j :: 0 <= i < j < |r.flagged| ==> Less(r.flagged[i], r.flagged[j]))
  {
    var r := EvaluationOf(predictions, truth, notes, threshold);
    MetricsAreComplete(predictions, truth, notes, threshold);
    ReportIsSane(r.perClass, notes);
    ReportMeans(r.perClass, notes);
    AllSupportedAreScored(r.perClass);
    BelowAscends(r.perClass, FlagCeiling(r.meanAveragePrecision));
  }

  lemma HitsAreClaims(ranked: Ranked, truth: Dict, className: string, threshold: real) returns (claims: seq<int>, hits: seq<bool>)
    ensures Greedy(ranked, truth, className, threshold, claims)
    ensures |hits| == |claims| && forall k :: 0 <= k < |hits| ==> (hits[k] <==> claims[k] >= 0)
    ensures hits == ScanAll(ranked, truth, className, threshold).hits
  {
    claims := ScanIsGreedy(ranked, truth, className, threshold);
    hits := ScanAll(ranked, truth, className, threshold).hits;
  }

  /** Each entry of the report is its class's score: of the hits that the greedy matching finds along the ranking, the
      share in the ranking, the share in the class's ground truth, and the mean precision at the hits. */
  lemma EntriesMean(predictions: Dict, truth: Dict, notes: seq<string>, threshold: real, i: nat)
    returns (claims: seq<int>, hits: seq<bool>)
    requires UniqueFiles(truth) && i < |EvaluationOf(predictions, truth, notes, threshold).perClass|
    ensures var m := EvaluationOf(predictions, truth, notes, threshold).perClass[i];
      && Greedy(RankedFor(Flatten(predictions), m.className), truth, m.className, threshold, claims)
      && |hits| == |claims| && (forall k :: 0 <= k < |hits| ==> (hits[k] <==> claims[k] >= 0))
      && m.support == |Slots(truth, m.className)| > 0
      && Measures(m.precision, m.recall, m.averagePrecision, hits, m.support)
  {
    MetricsAreComplete(predictions, truth, notes, threshold);
    var m := EvaluationOf(predictions, truth, notes, threshold).perClass[i];
    claims, hits := HitsAreClaims(RankedFor(Flatten(predictions), m.className), truth, m.className, threshold);
    ScoreMeans(hits, |Slots(truth, m.className)|);
  }

  /** The loop over the classes. */
  method CollectMetrics(predictions: Ranked, truth: Dict, classNames: seq<string>, threshold: real)
    returns (perClass: seq<ClassMetric>)
    requires UniqueFiles(truth)
    ensures perClass == Metrics(predictions, truth, classNames, threshold)
  {
    perClass := [];
    for i := 0 to |classNames|
      invariant |perClass| == i
      invariant forall k :: 0 <= k < i ==> perClass[k] == MetricFor(predictions, truth, classNames[k], threshold)
    {
      var s := MatchAndScore(predictions, truth, classNames[i], threshold);
      perClass := perClass + [ClassMetric(classNames[i], s.precision, s.recall, s.averagePrecision, s.support)];
    }
  }

  method Evaluate(predictions: Dict, truth: Dict, notes: seq<string>, threshold: real) returns (r: Report)
    requires UniqueFiles(truth)
    ensures r == EvaluationOf(predictions, truth, notes, threshold)
    ensures Complete(r, truth) && 0.0 <= r.meanAveragePrecision <= 1.0
  {
    var perClass := CollectMetrics(Flatten(predictions), truth, Sorted(ClassNames(truth)), threshold);
    r := ReportOf(perClass, notes);
    EvaluationIsSane(predictions, truth, notes, threshold);
  }
}
