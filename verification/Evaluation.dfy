/** Per-class detection metrics against a held-out ground truth: greedy matching by confidence. */
module Evaluation {
  import opened Sequences
  import opened Geometry

  /** An insertion-ordered dictionary from file names to detections. */
  type Dict = seq<(string, seq<Detection>)>

  ghost predicate UniqueFiles(d: Dict) {
    forall i, j :: 0 <= i < j < |d| ==> d[i].0 != d[j].0
  }

  /** `d.get(file, [])`. */
  function Get(d: Dict, file: string): seq<Detection> {
    if d == [] then [] else if d[0].0 == file then d[0].1 else Get(d[1..], file)
  }

  lemma {:induction false} GetAt(d: Dict, i: nat)
    requires UniqueFiles(d) && i < |d|
    ensures Get(d, d[i].0) == d[i].1
  {
    if i > 0 {
      assert d[1..][i - 1] == d[i];
      GetAt(d[1..], i - 1);
    }
  }

  // ---------------------------------------------------------------- ground-truth slots

  /** A ground-truth detection, named by its file and position. */
  type Slot = (string, nat)

  function FileSlots(file: string, dets: seq<Detection>, className: string, n: nat): seq<Slot>
    requires n <= |dets|
  {
    if n == 0 then [] else
    FileSlots(file, dets, className, n - 1) + if dets[n - 1].className == className then [(file, n - 1)] else []
  }

  /** The slots of one class, file by file. */
  function Slots(truth: Dict, className: string): seq<Slot> {
    if truth == [] then [] else
    var last := truth[|truth| - 1];
    Slots(truth[..|truth| - 1], className) + FileSlots(last.0, last.1, className, |last.1|)
  }

  ghost predicate IsSlot(truth: Dict, className: string, s: Slot) {
    s.1 < |Get(truth, s.0)| && Get(truth, s.0)[s.1].className == className
  }

  lemma {:induction false} FileSlotsAre(file: string, dets: seq<Detection>, className: string, n: nat)
    requires n <= |dets|
    ensures forall s :: s in FileSlots(file, dets, className, n) <==>
      s.0 == file && s.1 < n && dets[s.1].className == className
    ensures forall i, j :: 0 <= i < j < |FileSlots(file, dets, className, n)| ==>
      FileSlots(file, dets, className, n)[i] != FileSlots(file, dets, className, n)[j]
  {
    if n > 0 {
      FileSlotsAre(file, dets, className, n - 1);
      var before := FileSlots(file, dets, className, n - 1);
      assert (file, n - 1) !in before;
    }
  }

  lemma {:induction false} GetInit(d: Dict, file: string)
    requires d != [] && UniqueFiles(d)
    ensures file != d[|d| - 1].0 ==> Get(d, file) == Get(d[..|d| - 1], file)
    ensures file == d[|d| - 1].0 ==> Get(d, file) == d[|d| - 1].1 && Get(d[..|d| - 1], file) == []
  {
    if |d| > 1 {
      assert d[1..][..|d| - 2] == d[..|d| - 1][1..];
      GetInit(d[1..], file);
    }
  }

  lemma {:induction false} SlotsAre(truth: Dict, className: string)
    requires UniqueFiles(truth)
    ensures forall s :: s in Slots(truth, className) <==> IsSlot(truth, className, s)
    ensures forall i, j :: 0 <= i < j < |Slots(truth, className)| ==> Slots(truth, className)[i] != Slots(truth, className)[j]
  {
    if truth != [] {
      var init, last := truth[..|truth| - 1], truth[|truth| - 1];
      SlotsAre(init, className);
      FileSlotsAre(last.0, last.1, className, |last.1|);
      var a, b := Slots(init, className), FileSlots(last.0, last.1, className, |last.1|);
      forall s ensures s in a + b <==> IsSlot(truth, className, s) {
        GetInit(truth, s.0);
      }
      forall i, j | 0 <= i < |a| && 0 <= j < |b| ensures a[i] != b[j] {
        assert a[i] in a && b[j] in b;
        GetInit(truth, b[j].0);
      }
    }
  }

  // ---------------------------------------------------------------- greedy matching

  datatype Best = Best(iou: real, index: int)

  predicate Eligible(file: string, cands: seq<Detection>, className: string, matched: set<Slot>, i: nat) {
    i < |cands| && cands[i].className == className && (file, i) !in matched
  }

  /** The first unmatched candidate of the class, among the first `n`, whose IoU beats all before it and 0. */
  function FindBest(p: Detection, file: string, cands: seq<Detection>, className: string, matched: set<Slot>, n: nat): Best
    requires n <= |cands|
  {
    if n == 0 then Best(0.0, -1) else
    var b := FindBest(p, file, cands, className, matched, n - 1);
    var iou := EvaluationIou(p.box, cands[n - 1].box);
    if Eligible(file, cands, className, matched, n - 1) && iou > b.iou then Best(iou, n - 1) else b
  }

  lemma {:induction false} FindBestIsBest(p: Detection, file: string, cands: seq<Detection>, className: string,
                                          matched: set<Slot>, n: nat)
    requires n <= |cands|
    ensures var b := FindBest(p, file, cands, className, matched, n);
      && b.iou >= 0.0 && -1 <= b.index < n
      && (b.index == -1 ==> b.iou == 0.0)
      && (b.index >= 0 ==> Eligible(file, cands, className, matched, b.index))
      && (b.index >= 0 ==> b.iou > 0.0 && b.iou == EvaluationIou(p.box, cands[b.index].box))
      && (forall i: nat :: i < n && Eligible(file, cands, className, matched, i) ==>
            EvaluationIou(p.box, cands[i].box) <= b.iou && (i < b.index ==> EvaluationIou(p.box, cands[i].box) < b.iou))
  {
    if n > 0 {
      FindBestIsBest(p, file, cands, className, matched, n - 1);
    }
  }

  type Ranked = seq<(string, Detection)>

  datatype Scan = Scan(matched: set<Slot>, hits: seq<bool>)

  function ScanStep(s: Scan, item: (string, Detection), truth: Dict, className: string, threshold: real): Scan {
    var cands := Get(truth, item.0);
    var b := FindBest(item.1, item.0, cands, className, s.matched, |cands|);
    if b.index >= 0 && b.iou >= threshold
    then Scan(s.matched + {(item.0, b.index)}, s.hits + [true])
    else Scan(s.matched, s.hits + [false])
  }

  /** Predictions in rank order; each takes its best free slot, or is a false positive. */
  function ScanAll(ranked: Ranked, truth: Dict, className: string, threshold: real): Scan {
    if ranked == [] then Scan({}, []) else
    ScanStep(ScanAll(ranked[..|ranked| - 1], truth, className, threshold), ranked[|ranked| - 1], truth, className, threshold)
  }

  function Hits(hits: seq<bool>, n: nat): nat
    requires n <= |hits|
  {
    if n == 0 then 0 else Hits(hits, n - 1) + if hits[n - 1] then 1 else 0
  }

  lemma {:induction false} HitsOfPrefix(a: seq<bool>, b: seq<bool>, n: nat)
    requires n <= |a| && n <= |b| && a[..n] == b[..n]
    ensures Hits(a, n) == Hits(b, n) <= n
  {
    if n > 0 {
      assert a[n - 1] == a[..n][n - 1] && b[n - 1] == b[..n][n - 1];
      assert a[..n - 1] == a[..n][..n - 1] && b[..n - 1] == b[..n][..n - 1];
      HitsOfPrefix(a, b, n - 1);
    }
  }

  lemma HitsOneMore(a: seq<bool>, hit: bool)
    ensures Hits(a + [hit], |a| + 1) == Hits(a, |a|) + if hit then 1 else 0
  {
    Snoc(a, hit);
    TakeAll(a);
    HitsOfPrefix(a + [hit], a, |a|);
  }

  /** Matched slots are real, and there is one per true positive: nothing is matched twice. */
  lemma {:induction false} MatchesAreSlots(ranked: Ranked, truth: Dict, className: string, threshold: real)
    ensures var s := ScanAll(ranked, truth, className, threshold);
      && |s.hits| == |ranked|
      && (forall m :: m in s.matched ==> IsSlot(truth, className, m))
      && |s.matched| == Hits(s.hits, |s.hits|)
  {
    if ranked != [] {
      var init, item := ranked[..|ranked| - 1], ranked[|ranked| - 1];
      MatchesAreSlots(init, truth, className, threshold);
      var s, s' := ScanAll(init, truth, className, threshold), ScanAll(ranked, truth, className, threshold);
      FindBestIsBest(item.1, item.0, Get(truth, item.0), className, s.matched, |Get(truth, item.0)|);
      HitsOneMore(s.hits, s'.hits[|s.hits|]);
    }
  }

  /** Slot `i` of the prediction's file is free and overlaps it at the threshold or more. */
  ghost predicate Acceptable(s: Scan, item: (string, Detection), truth: Dict, className: string, threshold: real, i: nat) {
    && Eligible(item.0, Get(truth, item.0), className, s.matched, i)
    && EvaluationIou(item.1.box, Get(truth, item.0)[i].box) > 0.0
    && EvaluationIou(item.1.box, Get(truth, item.0)[i].box) >= threshold
  }

  /** Slot `i` is what the prediction takes: free, overlapped no less than any other free slot, and more than any
      before it. */
  ghost predicate Taken(s: Scan, s': Scan, item: (string, Detection), truth: Dict, className: string, i: nat) {
    && Eligible(item.0, Get(truth, item.0), className, s.matched, i)
    && s'.matched == s.matched + {(item.0, i)}
    && forall j: nat :: Eligible(item.0, Get(truth, item.0), className, s.matched, j) ==>
         EvaluationIou(item.1.box, Get(truth, item.0)[j].box) <= EvaluationIou(item.1.box, Get(truth, item.0)[i].box) &&
         (j < i ==> EvaluationIou(item.1.box, Get(truth, item.0)[j].box) < EvaluationIou(item.1.box, Get(truth, item.0)[i].box))
  }

  /** A prediction is a true positive exactly when some free slot of its class and file is acceptable; it then
      takes the first of those that no free slot beats, and otherwise none. */
  lemma HitIff(s: Scan, item: (string, Detection), truth: Dict, className: string, threshold: real)
    ensures var s' := ScanStep(s, item, truth, className, threshold);
      && |s'.hits| == |s.hits| + 1 && s'.hits[..|s.hits|] == s.hits
      && (s'.hits[|s.hits|] <==> exists i: nat :: Acceptable(s, item, truth, className, threshold, i))
      && (s'.hits[|s.hits|] ==> exists i: nat :: Taken(s, s', item, truth, className, i))
      && (!s'.hits[|s.hits|] ==> s'.matched == s.matched)
  {
    var cands, s' := Get(truth, item.0), ScanStep(s, item, truth, className, threshold);
    FindBestIsBest(item.1, item.0, cands, className, s.matched, |cands|);
    var b := FindBest(item.1, item.0, cands, className, s.matched, |cands|);
    if b.index >= 0 && b.iou >= threshold {
      assert Acceptable(s, item, truth, className, threshold, b.index);
      assert Taken(s, s', item, truth, className, b.index);
    }
  }

  // ---------------------------------------------------------------- the whole matching

  function IouAt(ranked: Ranked, truth: Dict, k: nat, i: nat): real
    requires k < |ranked| && i < |Get(truth, ranked[k].0)|
  {
    EvaluationIou(ranked[k].1.box, Get(truth, ranked[k].0)[i].box)
  }

  /** Ground-truth entry `i` of prediction `k`'s file is of the class, and no prediction ranked before claims it. */
  ghost predicate FreeFor(ranked: Ranked, truth: Dict, className: string, claims: seq<int>, k: nat, i: nat)
    requires k < |ranked| && k <= |claims|
  {
    && i < |Get(truth, ranked[k].0)| && Get(truth, ranked[k].0)[i].className == className
    && forall j :: 0 <= j < k && ranked[j].0 == ranked[k].0 ==> claims[j] != i
  }

  /** Prediction `k` claims the first of the free entries that overlap it most, if they overlap it at all and at the
      threshold or more; otherwise none (-1). */
  ghost predicate ClaimsBest(ranked: Ranked, truth: Dict, className: string, threshold: real, claims: seq<int>, k: nat)
    requires k < |ranked| && k < |claims|
  {
    if claims[k] >= 0 then
      && FreeFor(ranked, truth, className, claims, k, claims[k])
      && IouAt(ranked, truth, k, claims[k]) > 0.0 && IouAt(ranked, truth, k, claims[k]) >= threshold
      && forall i: nat :: FreeFor(ranked, truth, className, claims, k, i) ==>
           IouAt(ranked, truth, k, i) <= IouAt(ranked, truth, k, claims[k]) &&
           (i < claims[k] ==> IouAt(ranked, truth, k, i) < IouAt(ranked, truth, k, claims[k]))
    else
      && claims[k] == -1
      && forall i: nat :: FreeFor(ranked, truth, className, claims, k, i) ==>
           !(IouAt(ranked, truth, k, i) > 0.0 && IouAt(ranked, truth, k, i) >= threshold)
  }

  ghost predicate Greedy(ranked: Ranked, truth: Dict, className: string, threshold: real, claims: seq<int>) {
    |claims| == |ranked| && forall k :: 0 <= k < |claims| ==> ClaimsBest(ranked, truth, className, threshold, claims, k)
  }

  /** The slots claimed are the matched ones, and a claim is a hit. */
  ghost predicate Records(s: Scan, ranked: Ranked, claims: seq<int>) {
    && |s.hits| == |claims| == |ranked|
    && (forall k :: 0 <= k < |claims| ==> (s.hits[k] <==> claims[k] >= 0))
    && forall x: Slot :: x in s.matched <==> exists k :: 0 <= k < |claims| && ranked[k].0 == x.0 && claims[k] == x.1
  }

  lemma ClaimStays(ranked: Ranked, item: (string, Detection), truth: Dict, className: string, threshold: real,
                   claims: seq<int>, c: int, k: nat)
    requires k < |ranked| == |claims| && ClaimsBest(ranked, truth, className, threshold, claims, k)
    ensures ClaimsBest(ranked + [item], truth, className, threshold, claims + [c], k)
  {
    forall i: nat
      ensures FreeFor(ranked + [item], truth, className, claims + [c], k, i) <==> FreeFor(ranked, truth, className, claims, k, i)
    {
      assert forall j :: 0 <= j <= k ==> (ranked + [item])[j] == ranked[j] && (claims + [c])[j] == claims[j];
    }
  }

  /** For the next prediction, free means not matched so far. */
  lemma FreeIsEligible(s: Scan, ranked: Ranked, item: (string, Detection), truth: Dict, className: string, claims: seq<int>, c: int, i: nat)
    requires Records(s, ranked, claims)
    ensures FreeFor(ranked + [item], truth, className, claims + [c], |ranked|, i) <==>
      Eligible(item.0, Get(truth, item.0), className, s.matched, i)
  {
    var x: Slot := (item.0, i);
    if x in s.matched {
      var k :| 0 <= k < |claims| && ranked[k].0 == x.0 && claims[k] == x.1;
      assert (ranked + [item])[k] == ranked[k] && (claims + [c])[k] == claims[k];
    }
  }

  lemma NextClaimsBest(s: Scan, ranked: Ranked, item: (string, Detection), truth: Dict, className: string, threshold: real,
                       claims: seq<int>, c: int)
    requires Records(s, ranked, claims)
    requires var b := FindBest(item.1, item.0, Get(truth, item.0), className, s.matched, |Get(truth, item.0)|);
      c == if b.index >= 0 && b.iou >= threshold then b.index else -1
    ensures ClaimsBest(ranked + [item], truth, className, threshold, claims + [c], |ranked|)
  {
    FindBestIsBest(item.1, item.0, Get(truth, item.0), className, s.matched, |Get(truth, item.0)|);
    forall i: nat
      ensures FreeFor(ranked + [item], truth, className, claims + [c], |ranked|, i) <==>
        Eligible(item.0, Get(truth, item.0), className, s.matched, i)
    {
      FreeIsEligible(s, ranked, item, truth, className, claims, c, i);
    }
  }

  lemma RecordsNext(s: Scan, s': Scan, ranked: Ranked, item: (string, Detection), claims: seq<int>, c: int)
    requires Records(s, ranked, claims)
    requires s' == if c >= 0 then Scan(s.matched + {(item.0, c)}, s.hits + [true]) else Scan(s.matched, s.hits + [false])
    ensures Records(s', ranked + [item], claims + [c])
  {
    var ranked', claims' := ranked + [item], claims + [c];
    forall x: Slot ensures x in s'.matched <==> exists k :: 0 <= k < |claims'| && ranked'[k].0 == x.0 && claims'[k] == x.1 {
      if x in s.matched {
        var k :| 0 <= k < |claims| && ranked[k].0 == x.0 && claims[k] == x.1;
        assert ranked'[k].0 == x.0 && claims'[k] == x.1;
      } else if x in s'.matched {
        assert ranked'[|ranked|].0 == x.0 && claims'[|claims|] == x.1;
      } else {
        forall k | 0 <= k < |claims'| ensures !(ranked'[k].0 == x.0 && claims'[k] == x.1) {
          if k < |claims| {
            assert ranked'[k] == ranked[k] && claims'[k] == claims[k];
          }
        }
      }
    }
  }

  /** Main result of the matching: the hits are those of the greedy claims, made in rank order. */
  lemma {:induction false} ScanIsGreedy(ranked: Ranked, truth: Dict, className: string, threshold: real) returns (claims: seq<int>)
    ensures Greedy(ranked, truth, className, threshold, claims)
    ensures Records(ScanAll(ranked, truth, className, threshold), ranked, claims)
  {
    if ranked == [] {
      claims := [];
    } else {
      var init, item := ranked[..|ranked| - 1], ranked[|ranked| - 1];
      var before := ScanIsGreedy(init, truth, className, threshold);
      var s := ScanAll(init, truth, className, threshold);
      var b := FindBest(item.1, item.0, Get(truth, item.0), className, s.matched, |Get(truth, item.0)|);
      var c := if b.index >= 0 && b.iou >= threshold then b.index else -1;
      claims := before + [c];
      InitLast(ranked);
      NextClaimsBest(s, init, item, truth, className, threshold, before, c);
      forall k | 0 <= k < |init| ensures ClaimsBest(ranked, truth, className, threshold, claims, k) {
        ClaimStays(init, item, truth, className, threshold, before, c, k);
      }
      RecordsNext(s, ScanStep(s, item, truth, className, threshold), init, item, before, c);
    }
  }

  // ---------------------------------------------------------------- never more than there are

  lemma {:induction false} SubsetOfSeq<T>(a: set<T>, s: seq<T>)
    requires forall x :: x in a ==> x in s
    ensures |a| <= |s|
  {
    if s == [] {
      assert a == {};
    } else {
      SubsetOfSeq(a - {s[0]}, s[1..]);
    }
  }

  /** Never more true positives than ground-truth detections of the class. */
  lemma HitsWithinSupport(ranked: Ranked, truth: Dict, className: string, threshold: real)
    requires UniqueFiles(truth)
    ensures var h := ScanAll(ranked, truth, className, threshold).hits;
      |h| == |ranked| && Hits(h, |h|) <= |Slots(truth, className)|
  {
    MatchesAreSlots(ranked, truth, className, threshold);
    SlotsAre(truth, className);
    SubsetOfSeq(ScanAll(ranked, truth, className, threshold).matched, Slots(truth, className));
  }
}
