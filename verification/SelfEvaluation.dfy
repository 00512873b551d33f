/** Evaluating a ground truth against its own boxes. */
module SelfEvaluation {
  import opened Sequences
  import opened Geometry
  import opened StableSort
  import opened SortedNames
  import opened Evaluation
  import opened AveragePrecision
  import opened EvaluationReport

  /** What a prediction and a slot must share to be copies of each other. */
  type Copy = (string, BoundingBox)

  function CopyOf(item: (string, Detection)): Copy { (item.0, item.1.box) }

  // ---------------------------------------------------------------- bags of copies

  function Bag(s: seq<Keyed<(string, Detection)>>): multiset<Copy> {
    if s == [] then multiset{} else multiset{CopyOf(s[0].item)} + Bag(s[1..])
  }

  /** What slot `i` contributes while it is free. */
  function Offer(file: string, dets: seq<Detection>, className: string, matched: set<Slot>, i: nat): multiset<Copy>
    requires i < |dets|
  {
    if Eligible(file, dets, className, matched, i) then multiset{(file, dets[i].box)} else multiset{}
  }

  /** The class's still unmatched slots among the first `n` of a file. */
  function FileFree(file: string, dets: seq<Detection>, className: string, matched: set<Slot>, n: nat): multiset<Copy>
    requires n <= |dets|
  {
    if n == 0 then multiset{} else
    FileFree(file, dets, className, matched, n - 1) + Offer(file, dets, className, matched, n - 1)
  }

  function Free(truth: Dict, className: string, matched: set<Slot>): multiset<Copy> {
    if truth == [] then multiset{} else
    var last := truth[|truth| - 1];
    Free(truth[..|truth| - 1], className, matched) + FileFree(last.0, last.1, className, matched, |last.1|)
  }

  /** The predictions are the truth's boxes, class by class, with any confidences and in any order. */
  ghost predicate SameBoxes(predictions: Ranked, truth: Dict, className: string) {
    Bag(ClassItems(predictions, className)) == Free(truth, className, {})
  }

  lemma {:induction false} BagConcat(a: seq<Keyed<(string, Detection)>>, b: seq<Keyed<(string, Detection)>>)
    ensures Bag(a + b) == Bag(a) + Bag(b)
  {
    if a == [] {
      assert a + b == b;
    } else {
      BagConcat(a[1..], b);
      TailOfConcat(a, b);
    }
  }

  /** Taking out entry `j` takes it out of the sequence's multiset and out of its bag. */
  lemma TakeOut(b: seq<Keyed<(string, Detection)>>, j: nat) returns (rest: seq<Keyed<(string, Detection)>>)
    requires j < |b|
    ensures |rest| == |b| - 1
    ensures multiset(b) == multiset{b[j]} + multiset(rest)
    ensures Bag(b) == multiset{CopyOf(b[j].item)} + Bag(rest)
  {
    var front, back := b[..j], b[j + 1..];
    rest := front + back;
    assert b == front + ([b[j]] + back);
    BagConcat(front, [b[j]] + back);
    BagConcat(front, back);
  }

  lemma {:induction false} BagOfPermutation(a: seq<Keyed<(string, Detection)>>, b: seq<Keyed<(string, Detection)>>)
    requires multiset(a) == multiset(b)
    ensures Bag(a) == Bag(b)
    decreases |a|
  {
    assert |a| == |multiset(a)| == |multiset(b)| == |b|;
    if a != [] {
      assert a[0] in multiset(b);
      var j :| 0 <= j < |b| && b[j] == a[0];
      var rest := TakeOut(b, j);
      var rest' := TakeOut(a, 0);
      assert multiset(rest) == multiset(b) - multiset{a[0]};
      assert multiset(rest') == multiset(a) - multiset{a[0]};
      BagOfPermutation(rest', rest);
    }
  }

  // ---------------------------------------------------------------- taking a slot

  lemma OfferUnlessTaken(file: string, dets: seq<Detection>, className: string, matched: set<Slot>, i: nat, s: Slot)
    requires i < |dets|
    ensures Offer(file, dets, className, matched + {s}, i) ==
      if s == (file, i) then multiset{} else Offer(file, dets, className, matched, i)
  {}

  lemma AddToBoth<T>(a: multiset<T>, b: multiset<T>, x: multiset<T>, y: multiset<T>)
    requires a == b + x
    ensures a + y == (b + y) + x
  {}

  lemma AddTaken<T>(a: multiset<T>, b: multiset<T>, x: multiset<T>, y: multiset<T>)
    requires a == b && y == multiset{}
    ensures a + x == (b + y) + x
  {}

  /** The offers of entry `i` before and after slot `s` is taken. */
  ghost predicate OffersDiffer(file: string, dets: seq<Detection>, className: string, matched: set<Slot>, matched': set<Slot>, s: Slot) {
    forall i: nat :: i < |dets| ==>
      Offer(file, dets, className, matched', i) ==
      (if s == (file, i) then multiset{} else Offer(file, dets, className, matched, i))
  }

  lemma SameOffer(file: string, dets: seq<Detection>, className: string, matched: set<Slot>, matched': set<Slot>, i: nat, s: Slot)
    requires i < |dets| && s != (file, i) && OffersDiffer(file, dets, className, matched, matched', s)
    ensures Offer(file, dets, className, matched', i) == Offer(file, dets, className, matched, i)
  {}

  lemma {:induction false} FileFreeElsewhere(file: string, dets: seq<Detection>, className: string, matched: set<Slot>,
                                             matched': set<Slot>, n: nat, s: Slot)
    requires n <= |dets| && !(s.0 == file && s.1 < n) && OffersDiffer(file, dets, className, matched, matched', s)
    ensures FileFree(file, dets, className, matched, n) == FileFree(file, dets, className, matched', n)
  {
    if n > 0 {
      FileFreeElsewhere(file, dets, className, matched, matched', n - 1, s);
      SameOffer(file, dets, className, matched, matched', n - 1, s);
    }
  }

  lemma {:induction false} FileFreeTake(file: string, dets: seq<Detection>, className: string, matched: set<Slot>,
                                        matched': set<Slot>, n: nat, s: Slot)
    requires n <= |dets| && s.0 == file && s.1 < n && OffersDiffer(file, dets, className, matched, matched', s)
    ensures FileFree(file, dets, className, matched, n) ==
      FileFree(file, dets, className, matched', n) + Offer(file, dets, className, matched, s.1)
  {
    var free, free' := FileFree(file, dets, className, matched, n - 1), FileFree(file, dets, className, matched', n - 1);
    var offer, offer' := Offer(file, dets, className, matched, n - 1), Offer(file, dets, className, matched', n - 1);
    if s.1 == n - 1 {
      FileFreeElsewhere(file, dets, className, matched, matched', n - 1, s);
      assert s == (file, n - 1);
      AddTaken(free, free', offer, offer');
    } else {
      FileFreeTake(file, dets, className, matched, matched', n - 1, s);
      assert s != (file, n - 1);
      AddToBoth(free, free', Offer(file, dets, className, matched, s.1), offer);
    }
  }

  lemma TakingChangesOffers(file: string, dets: seq<Detection>, className: string, matched: set<Slot>, matched': set<Slot>, s: Slot)
    requires matched' == matched + {s}
    ensures OffersDiffer(file, dets, className, matched, matched', s)
  {
    forall i: nat | i < |dets|
      ensures Offer(file, dets, className, matched', i) ==
        (if s == (file, i) then multiset{} else Offer(file, dets, className, matched, i))
    {
      OfferUnlessTaken(file, dets, className, matched, i, s);
    }
  }

  lemma {:induction false} FreeTake(truth: Dict, className: string, matched: set<Slot>, s: Slot)
    requires UniqueFiles(truth) && s !in matched
    ensures Free(truth, className, matched) == Free(truth, className, matched + {s}) +
      if IsSlot(truth, className, s) then multiset{(s.0, Get(truth, s.0)[s.1].box)} else multiset{}
  {
    if truth != [] {
      var init, last := truth[..|truth| - 1], truth[|truth| - 1];
      GetInit(truth, s.0);
      FreeTake(init, className, matched, s);
      TakingChangesOffers(last.0, last.1, className, matched, matched + {s}, s);
      if s.0 == last.0 && s.1 < |last.1| {
        FileFreeTake(last.0, last.1, className, matched, matched + {s}, |last.1|, s);
      } else {
        FileFreeElsewhere(last.0, last.1, className, matched, matched + {s}, |last.1|, s);
      }
    }
  }

  lemma {:induction false} FileFreeHas(file: string, dets: seq<Detection>, className: string, matched: set<Slot>, n: nat, k: Copy)
    requires n <= |dets| && k in FileFree(file, dets, className, matched, n)
    ensures k.0 == file && exists i: nat :: i < n && Eligible(file, dets, className, matched, i) && dets[i].box == k.1
  {
    if k in FileFree(file, dets, className, matched, n - 1) {
      FileFreeHas(file, dets, className, matched, n - 1, k);
      var i: nat :| i < n - 1 && Eligible(file, dets, className, matched, i) && dets[i].box == k.1;
      assert i < n;
    } else {
      assert Eligible(file, dets, className, matched, n - 1);
    }
  }

  lemma {:induction false} FreeHas(truth: Dict, className: string, matched: set<Slot>, k: Copy)
    requires UniqueFiles(truth) && k in Free(truth, className, matched)
    ensures exists i: nat :: Eligible(k.0, Get(truth, k.0), className, matched, i) && Get(truth, k.0)[i].box == k.1
  {
    var init, last := truth[..|truth| - 1], truth[|truth| - 1];
    GetInit(truth, k.0);
    if k in Free(init, className, matched) {
      FreeHas(init, className, matched, k);
      var i: nat :| Eligible(k.0, Get(init, k.0), className, matched, i) && Get(init, k.0)[i].box == k.1;
      assert k.0 != last.0;
    } else {
      FileFreeHas(last.0, last.1, className, matched, |last.1|, k);
    }
  }

  ghost predicate PositiveBoxes(truth: Dict) {
    forall file: string, i: nat :: i < |Get(truth, file)| ==> PositiveArea(Get(truth, file)[i].box)
  }

  /** A prediction with a free copy is a true positive and takes a copy, perhaps not its own. */
  lemma CopyIsTaken(s: Scan, item: (string, Detection), truth: Dict, className: string, threshold: real)
    requires UniqueFiles(truth) && PositiveBoxes(truth) && threshold <= 1.0
    requires CopyOf(item) in Free(truth, className, s.matched)
    ensures var s' := ScanStep(s, item, truth, className, threshold);
      && s'.hits == s.hits + [true]
      && Free(truth, className, s.matched) == Free(truth, className, s'.matched) + multiset{CopyOf(item)}
  {
    var cands := Get(truth, item.0);
    FreeHas(truth, className, s.matched, CopyOf(item));
    var i: nat :| Eligible(item.0, cands, className, s.matched, i) && cands[i].box == item.1.box;
    IouLaws(item.1.box, cands[i].box);
    FindBestIsBest(item.1, item.0, cands, className, s.matched, |cands|);
    var b := FindBest(item.1, item.0, cands, className, s.matched, |cands|);
    IouLaws(item.1.box, cands[b.index].box);
    FreeTake(truth, className, s.matched, (item.0, b.index));
  }

  /** Scanning copies: every prediction so far is a hit, and the free slots are the copies still to come. */
  ghost predicate OnlyHits(s: Scan, sorted: seq<Keyed<(string, Detection)>>, truth: Dict, className: string, k: nat)
    requires k <= |sorted|
  {
    && |s.hits| == k && (forall i :: 0 <= i < k ==> s.hits[i])
    && Free(truth, className, s.matched) == Bag(sorted[k..])
  }

  lemma Cancel(a: multiset<Copy>, b: multiset<Copy>, k: Copy)
    requires a + multiset{k} == multiset{k} + b
    ensures a == b
  {
    assert a == (a + multiset{k}) - multiset{k};
    assert b == (multiset{k} + b) - multiset{k};
  }

  lemma OnlyHitsStep(s: Scan, sorted: seq<Keyed<(string, Detection)>>, truth: Dict, className: string,
                     threshold: real, k: nat)
    requires UniqueFiles(truth) && PositiveBoxes(truth) && threshold <= 1.0
    requires k < |sorted| && OnlyHits(s, sorted, truth, className, k)
    ensures OnlyHits(ScanStep(s, sorted[k].item, truth, className, threshold), sorted, truth, className, k + 1)
  {
    var item, rest := sorted[k].item, sorted[k + 1..];
    var s' := ScanStep(s, item, truth, className, threshold);
    assert sorted[k..] == [sorted[k]] + rest;
    CopyIsTaken(s, item, truth, className, threshold);
    Cancel(Free(truth, className, s'.matched), Bag(rest), CopyOf(item));
  }

  lemma ScanOneMore(ranked: Ranked, truth: Dict, className: string, threshold: real, k: nat)
    requires k < |ranked|
    ensures ScanAll(ranked[..k + 1], truth, className, threshold) ==
      ScanStep(ScanAll(ranked[..k], truth, className, threshold), ranked[k], truth, className, threshold)
  {
    TakeOneMore(ranked, k);
  }

  lemma NothingScanned(sorted: seq<Keyed<(string, Detection)>>, ranked: Ranked, truth: Dict, className: string, threshold: real)
    requires Bag(sorted) == Free(truth, className, {})
    ensures OnlyHits(ScanAll(ranked[..0], truth, className, threshold), sorted, truth, className, 0)
  {
    assert sorted[0..] == sorted && ranked[..0] == [];
  }

  lemma {:induction false} CopiesAllHit(sorted: seq<Keyed<(string, Detection)>>, ranked: Ranked, truth: Dict,
                                        className: string, threshold: real, k: nat)
    requires UniqueFiles(truth) && PositiveBoxes(truth) && threshold <= 1.0
    requires Bag(sorted) == Free(truth, className, {}) && ranked == Unkeyed(sorted)
    requires k <= |sorted| == |ranked|
    ensures OnlyHits(ScanAll(ranked[..k], truth, className, threshold), sorted, truth, className, k)
  {
    if k == 0 {
      NothingScanned(sorted, ranked, truth, className, threshold);
    } else {
      CopiesAllHit(sorted, ranked, truth, className, threshold, k - 1);
      UnkeyedAt(sorted);
      ScanOneMore(ranked, truth, className, threshold, k - 1);
      OnlyHitsStep(ScanAll(ranked[..k - 1], truth, className, threshold), sorted, truth, className, threshold, k - 1);
    }
  }

  lemma {:induction false} FileFreeSize(file: string, dets: seq<Detection>, className: string, n: nat)
    requires n <= |dets|
    ensures |FileFree(file, dets, className, {}, n)| == |FileSlots(file, dets, className, n)|
  {
    if n > 0 {
      FileFreeSize(file, dets, className, n - 1);
    }
  }

  lemma {:induction false} FreeSize(truth: Dict, className: string)
    ensures |Free(truth, className, {})| == |Slots(truth, className)|
  {
    if truth != [] {
      var last := truth[|truth| - 1];
      FreeSize(truth[..|truth| - 1], className);
      FileFreeSize(last.0, last.1, className, |last.1|);
    }
  }

  lemma {:induction false} BagSize(s: seq<Keyed<(string, Detection)>>)
    ensures |Bag(s)| == |s|
  {
    if s != [] {
      BagSize(s[1..]);
    }
  }

  /** Predictions that are the truth's own boxes score 1 throughout, in every class that occurs, although
      copies of one box may be paired crosswise. */
  lemma CopiesScorePerfectly(predictions: Ranked, truth: Dict, className: string, threshold: real)
    requires UniqueFiles(truth) && PositiveBoxes(truth) && threshold <= 1.0
    requires SameBoxes(predictions, truth, className) && |Slots(truth, className)| > 0
    ensures ScoreFor(predictions, truth, className, threshold) == Score(1.0, 1.0, 1.0, |Slots(truth, className)|)
  {
    var items := ClassItems(predictions, className);
    var sorted := SortDescending(items);
    SortIsStableSort(items);
    BagOfPermutation(sorted, items);
    BagSize(sorted);
    FreeSize(truth, className);
    var ranked := Unkeyed(sorted);
    UnkeyedAt(sorted);
    CopiesAllHit(sorted, ranked, truth, className, threshold, |ranked|);
    TakeAll(ranked);
    AllHitsIsPerfect(HitsFor(predictions, truth, className, threshold), |Slots(truth, className)|);
  }

  // ---------------------------------------------------------------- a truth against itself

  lemma {:induction false} ClassItemsConcat(a: Ranked, b: Ranked, className: string)
    ensures ClassItems(a + b, className) == ClassItems(a, className) + ClassItems(b, className)
  {
    if b == [] {
      assert a + b == a;
    } else {
      InitOfConcat(a, b);
      ClassItemsConcat(a, b[..|b| - 1], className);
    }
  }

  lemma OneItem(item: (string, Detection), className: string)
    ensures Bag(ClassItems([item], className)) ==
      if item.1.className == className then multiset{CopyOf(item)} else multiset{}
  {
    var k := Keyed(item.1.confidence, item);
    assert ClassItems([item][..0], className) == [];
    assert ClassItems([item], className) == if item.1.className == className then [k] else [];
    assert [k] == [k] + [];
  }

  lemma {:induction false} TaggedBag(file: string, dets: seq<Detection>, className: string, n: nat)
    requires n <= |dets|
    ensures Bag(ClassItems(Tagged(file, dets[..n]), className)) == FileFree(file, dets, className, {}, n)
  {
    if n > 0 {
      TaggedBag(file, dets, className, n - 1);
      var before, last := Tagged(file, dets[..n - 1]), (file, dets[n - 1]);
      TakeTake(dets, n - 1, n);
      ClassItemsConcat(before, [last], className);
      BagConcat(ClassItems(before, className), ClassItems([last], className));
      OneItem(last, className);
      assert Tagged(file, dets[..n]) == before + [last];
    }
  }

  lemma {:induction false} TruthHasItsOwnBoxes(truth: Dict, className: string)
    ensures SameBoxes(Flatten(truth), truth, className)
  {
    if truth != [] {
      var init, last := truth[..|truth| - 1], truth[|truth| - 1];
      TruthHasItsOwnBoxes(init, className);
      TaggedBag(last.0, last.1, className, |last.1|);
      assert last.1[..|last.1|] == last.1;
      ClassItemsConcat(Flatten(init), Tagged(last.0, last.1), className);
      BagConcat(ClassItems(Flatten(init), className), ClassItems(Tagged(last.0, last.1), className));
    }
  }

  /** Nothing reaches a threshold above 1, since no positive-area IoU does. */
  lemma {:induction false} NothingHitsAboveOne(ranked: Ranked, truth: Dict, className: string, threshold: real)
    requires PositiveBoxes(truth) && threshold > 1.0
    requires forall i :: 0 <= i < |ranked| ==> PositiveArea(ranked[i].1.box)
    ensures |ScanAll(ranked, truth, className, threshold).hits| == |ranked|
    ensures Hits(ScanAll(ranked, truth, className, threshold).hits, |ranked|) == 0
  {
    if ranked != [] {
      var init, item := ranked[..|ranked| - 1], ranked[|ranked| - 1];
      NothingHitsAboveOne(init, truth, className, threshold);
      var s, s' := ScanAll(init, truth, className, threshold), ScanAll(ranked, truth, className, threshold);
      HitIff(s, item, truth, className, threshold);
      forall i: nat ensures !Acceptable(s, item, truth, className, threshold, i) {
        if Eligible(item.0, Get(truth, item.0), className, s.matched, i) {
          IouLaws(item.1.box, Get(truth, item.0)[i].box);
        }
      }
      HitsOfPrefix(s.hits, s'.hits, |init|);
    }
  }

  ghost predicate Perfect(r: Report) {
    && r.meanAveragePrecision == 1.0
    && r.flagged == []
    && forall m :: m in r.perClass ==> m.precision == m.recall == m.averagePrecision == 1.0
  }

  lemma MeanOfOnes(perClass: seq<ClassMetric>)
    requires perClass != [] && forall m :: m in perClass ==> m.averagePrecision == 1.0
    ensures MeanAp(perClass) == 1.0
  {
    MeanWithin(perClass, 1.0, 1.0);
  }

  lemma {:induction false} NoneLag(perClass: seq<ClassMetric>, ceiling: real)
    requires ceiling <= 1.0 && forall m :: m in perClass ==> m.averagePrecision == 1.0
    ensures Below(perClass, ceiling) == []
  {
    if perClass != [] {
      NoneLag(perClass[..|perClass| - 1], ceiling);
    }
  }

  lemma PerfectMetricsPerfectReport(perClass: seq<ClassMetric>, notes: seq<string>)
    requires perClass != []
    requires forall m :: m in perClass ==> m.support > 0 && m.precision == m.recall == m.averagePrecision == 1.0
    ensures Perfect(ReportOf(perClass, notes))
  {
    AllSupportedAreScored(perClass);
    MeanOfOnes(perClass);
    NoneLag(perClass, FlagCeiling(1.0));
  }

  lemma {:induction false} ClassItemsAre(predictions: Ranked, className: string)
    ensures forall k :: k in ClassItems(predictions, className) ==> k.item in predictions
  {
    if predictions != [] {
      ClassItemsAre(predictions[..|predictions| - 1], className);
    }
  }

  lemma RankedAre(predictions: Ranked, className: string)
    ensures forall i :: 0 <= i < |RankedFor(predictions, className)| ==> RankedFor(predictions, className)[i] in predictions
  {
    var items := ClassItems(predictions, className);
    var sorted := SortDescending(items);
    SortIsStableSort(items);
    UnkeyedAt(sorted);
    ClassItemsAre(predictions, className);
    forall i | 0 <= i < |sorted| ensures sorted[i].item in predictions {
      assert sorted[i] in multiset(sorted);
    }
  }

  lemma TooStrictScoresZero(truth: Dict, className: string, threshold: real)
    requires UniqueFiles(truth) && PositiveBoxes(truth) && threshold > 1.0
    ensures ScoreFor(Flatten(truth), truth, className, threshold).recall == 0.0
  {
    var ranked := RankedFor(Flatten(truth), className);
    RankedAre(Flatten(truth), className);
    forall i | 0 <= i < |ranked| ensures PositiveArea(ranked[i].1.box) {
      var j := FlattenedIsSlot(truth, ranked[i]);
    }
    NothingHitsAboveOne(ranked, truth, className, threshold);
    if |Slots(truth, className)| > 0 {
      DivBounds(0, |Slots(truth, className)|);
    }
  }

  lemma ClassesScorePerfectly(truth: Dict, threshold: real)
    requires UniqueFiles(truth) && PositiveBoxes(truth) && threshold <= 1.0
    ensures forall m :: m in Metrics(Flatten(truth), truth, Sorted(ClassNames(truth)), threshold) ==>
      m.support > 0 && m.precision == m.recall == m.averagePrecision == 1.0
  {
    var classNames, predictions := Sorted(ClassNames(truth)), Flatten(truth);
    forall i | 0 <= i < |classNames|
      ensures var m := MetricFor(predictions, truth, classNames[i], threshold);
        m.support > 0 && m.precision == m.recall == m.averagePrecision == 1.0
    {
      assert classNames[i] in classNames;
      ClassHasSupport(truth, classNames[i]);
      TruthHasItsOwnBoxes(truth, classNames[i]);
      CopiesScorePerfectly(predictions, truth, classNames[i], threshold);
    }
  }

  /** Evaluating a non-empty truth of positive-area boxes against itself, whatever its confidences and however
      many copies of a box it holds, is perfect exactly when the threshold is at most 1. */
  lemma SelfEvaluationIsPerfect(truth: Dict, notes: seq<string>, threshold: real)
    requires UniqueFiles(truth) && PositiveBoxes(truth) && ClassNames(truth) != {}
    ensures Perfect(EvaluationOf(truth, truth, notes, threshold)) <==> threshold <= 1.0
  {
    var classNames := Sorted(ClassNames(truth));
    var perClass := Metrics(Flatten(truth), truth, classNames, threshold);
    assert |perClass| == |ClassNames(truth)| > 0;
    if threshold <= 1.0 {
      ClassesScorePerfectly(truth, threshold);
      PerfectMetricsPerfectReport(perClass, notes);
    } else {
      TooStrictScoresZero(truth, classNames[0], threshold);
      assert perClass[0] in EvaluationOf(truth, truth, notes, threshold).perClass;
    }
  }
}
