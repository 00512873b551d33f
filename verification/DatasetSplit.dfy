/** Deterministic train/validation/test splits of a dataset's items. */
module DatasetSplit {
  import opened Sequences
  import opened Wrappers
  import opened Shuffle

  const RATIO_SUM_EPSILON := 0.000001

  /** A JavaScript number; `NotFinite` stands for NaN and the infinities. */
  datatype Number = NotFinite | Finite(value: real)

  datatype Ratios = Ratios(train: Number, validation: Number, test: Number)

  datatype Split = Split(train: seq<string>, validation: seq<string>, test: seq<string>)

  datatype SplitError = NoItems | DuplicateItems(count: int) | RatioOutOfRange(name: string) | RatiosDoNotSumToOne

  predicate InUnit(n: Number) { n.Finite? && 0.0 <= n.value <= 1.0 }

  function RatioError(r: Ratios): Option<SplitError> {
    if !InUnit(r.train) then Some(RatioOutOfRange("trainRatio"))
    else if !InUnit(r.validation) then Some(RatioOutOfRange("validationRatio"))
    else if !InUnit(r.test) then Some(RatioOutOfRange("testRatio"))
    else
      var sum := r.train.value + r.validation.value + r.test.value;
      if sum - 1.0 > RATIO_SUM_EPSILON || 1.0 - sum > RATIO_SUM_EPSILON then Some(RatiosDoNotSumToOne) else None
  }

  ghost predicate Accepted(r: Ratios) { RatioError(r).None? }

  function Elements(items: seq<string>): set<string> { set x | x in items }

  ghost predicate Distinct(items: seq<string>) { forall i, j :: 0 <= i < j < |items| ==> items[i] != items[j] }

  function TrainCount(n: nat, r: Ratios): int
    requires r.train.Finite?
  {
    (n as real * r.train.value).Floor
  }

  function ValidationCount(n: nat, r: Ratios): int
    requires r.validation.Finite?
  {
    (n as real * r.validation.value).Floor
  }

  /** The remainder; the tolerance on the sum of the ratios can make it negative. */
  function TestCount(n: nat, r: Ratios): int
    requires r.train.Finite? && r.validation.Finite?
  {
    n - TrainCount(n, r) - ValidationCount(n, r)
  }

  /** JavaScript's `slice`: a negative bound counts from the end, and bounds are clamped to the length. */
  function Clamp(k: int, n: nat): nat {
    if k < 0 then (if n + k < 0 then 0 else n + k) else if k > n then n else k
  }

  function Slice(s: seq<string>, from: int, to: int): seq<string> {
    var a, b := Clamp(from, |s|), Clamp(to, |s|);
    if a < b then s[a..b] else []
  }

  function Cut(shuffled: seq<string>, r: Ratios): Split
    requires r.train.Finite? && r.validation.Finite?
  {
    var t, v, rest := TrainCount(|shuffled|, r), ValidationCount(|shuffled|, r), TestCount(|shuffled|, r);
    Split(Slice(shuffled, 0, t), Slice(shuffled, t, t + v), Slice(shuffled, t + v, t + v + rest))
  }

  function SplitOf(items: seq<string>, r: Ratios, seed: int): Result<Split, SplitError> {
    if items == [] then Err(NoItems)
    else if |Elements(items)| != |items| then Err(DuplicateItems(|items| - |Elements(items)|))
    else if RatioError(r).Some? then Err(RatioError(r).value)
    else Ok(Cut(Shuffled(items, seed), r))
  }

  // ---------------------------------------------------------------- counts

  lemma {:induction false} ElementsCount(items: seq<string>)
    ensures |Elements(items)| <= |items|
    ensures |Elements(items)| == |items| <==> Distinct(items)
  {
    if items != [] {
      var init, last := items[..|items| - 1], items[|items| - 1];
      ElementsCount(init);
      InitLast(items);
      assert Elements(items) == Elements(init) + {last};
      assert Distinct(items) <==> Distinct(init) && last !in Elements(init);
    }
  }

  lemma ShareOf(m: real, x: real)
    requires 0.0 <= m && 0.0 <= x <= 1.0
    ensures 0.0 <= m * x <= m
  {
    assert m - m * x == m * (1.0 - x);
    assert m * (1.0 - x) >= 0.0;
  }

  /** The floor of a share of `n` is a count between 0 and `n`, and no more than the share. */
  lemma FloorOfShare(n: nat, x: real)
    requires 0.0 <= x <= 1.0
    ensures 0 <= (n as real * x).Floor <= n
    ensures (n as real * x).Floor as real <= n as real * x
  {
    ShareOf(n as real, x);
  }

  lemma Distributes(m: real, a: real, b: real)
    ensures m * (a + b) == m * a + m * b
  {}

  lemma CountsAreInRange(n: nat, r: Ratios)
    requires Accepted(r)
    ensures 0 <= TrainCount(n, r) <= n && 0 <= ValidationCount(n, r) <= n
    ensures (TrainCount(n, r) + ValidationCount(n, r)) as real <= n as real * (r.train.value + r.validation.value)
  {
    FloorOfShare(n, r.train.value);
    FloorOfShare(n, r.validation.value);
    Distributes(n as real, r.train.value, r.validation.value);
  }

  lemma SlackBelowAMillion(m: real, x: real)
    requires 0.0 <= m < 1000000.0 && x <= 1.0 + RATIO_SUM_EPSILON
    ensures m * x < m + 1.0
  {
    assert m * (1.0 + RATIO_SUM_EPSILON - x) >= 0.0;
    assert m * x <= m * (1.0 + RATIO_SUM_EPSILON);
    assert m * (1.0 + RATIO_SUM_EPSILON) == m + m * RATIO_SUM_EPSILON;
  }

  /** Below a million items the test count is never negative. */
  lemma TestCountBelowAMillion(n: nat, r: Ratios)
    requires Accepted(r) && n < 1_000_000
    ensures TestCount(n, r) >= 0
  {
    CountsAreInRange(n, r);
    SlackBelowAMillion(n as real, r.train.value + r.validation.value);
  }

  /** From a million items on, some accepted ratios give a negative test count. */
  lemma TestCountCanBeNegative(n: nat) returns (r: Ratios)
    requires n >= 1_000_000
    ensures Accepted(r) && TestCount(n, r) == -1
  {
    var m := n as real;
    var share := 1.0 / m;
    assert share * m == 1.0;
    assert 0.0 < share <= RATIO_SUM_EPSILON by {
      assert (RATIO_SUM_EPSILON - share) * m == RATIO_SUM_EPSILON * m - 1.0 >= 0.0;
    }
    r := Ratios(Finite(1.0), Finite(share), Finite(0.0));
    assert m * 1.0 == m && m * share == 1.0;
  }

  /** The bound is sharp: no accepted ratios give a negative test count exactly below a million items. */
  lemma TestCountSign(n: nat)
    ensures (forall r :: Accepted(r) ==> TestCount(n, r) >= 0) <==> n < 1_000_000
  {
    if n < 1_000_000 {
      forall r | Accepted(r) ensures TestCount(n, r) >= 0 {
        TestCountBelowAMillion(n, r);
      }
    } else {
      var r := TestCountCanBeNegative(n);
    }
  }

  // ---------------------------------------------------------------- ratios and shares

  ghost predicate IsShare(n: Number) { n.Finite? && 0.0 <= n.value && n.value <= 1.0 }

  /** Three shares of 1, up to a millionth. */
  ghost predicate SumToOne(r: Ratios) {
    && IsShare(r.train) && IsShare(r.validation) && IsShare(r.test)
    && 0.999999 <= r.train.value + r.validation.value + r.test.value <= 1.000001
  }

  /** The ratios are accepted exactly when they are shares that sum to 1; otherwise the error names the first
      that is no share, or the sum. */
  lemma AcceptedIff(r: Ratios)
    ensures Accepted(r) <==> SumToOne(r)
    ensures RatioError(r) == Some(RatioOutOfRange("trainRatio")) <==> !IsShare(r.train)
    ensures RatioError(r) == Some(RatioOutOfRange("validationRatio")) <==> IsShare(r.train) && !IsShare(r.validation)
    ensures RatioError(r) == Some(RatioOutOfRange("testRatio")) <==>
      IsShare(r.train) && IsShare(r.validation) && !IsShare(r.test)
    ensures RatioError(r) == Some(RatiosDoNotSumToOne) <==>
      IsShare(r.train) && IsShare(r.validation) && IsShare(r.test) && !SumToOne(r)
  {
    var t, v, e := "trainRatio", "validationRatio", "testRatio";
    assert |t| == 10 && |v| == 15 && |e| == 9;
  }

  /** `k` is the largest whole number in `x`. */
  ghost predicate WholePart(k: int, x: real) { k as real <= x < k as real + 1.0 }

  lemma CountsAreShares(n: nat, r: Ratios)
    requires r.train.Finite? && r.validation.Finite?
    ensures WholePart(TrainCount(n, r), n as real * r.train.value)
    ensures WholePart(ValidationCount(n, r), n as real * r.validation.value)
    ensures TrainCount(n, r) + ValidationCount(n, r) + TestCount(n, r) == n
  {}

  // ---------------------------------------------------------------- the split

  /** Whatever the sign of the test count, the three parts are the shuffled items in order. */
  lemma CutIsPartition(s: seq<string>, r: Ratios)
    requires Accepted(r)
    ensures var c := Cut(s, r);
      && c.train + c.validation + c.test == s
      && |c.train| == TrainCount(|s|, r)
      && (TestCount(|s|, r) >= 0 ==> |c.validation| == ValidationCount(|s|, r) && |c.test| == TestCount(|s|, r))
      && (TestCount(|s|, r) < 0 ==> |c.validation| == |s| - TrainCount(|s|, r) && c.test == [])
  {
    CountsAreInRange(|s|, r);
    var t := TrainCount(|s|, r);
    var e := Clamp(t + ValidationCount(|s|, r), |s|);
    assert Slice(s, 0, t) == s[..t] && Slice(s, t, t + ValidationCount(|s|, r)) == s[t..e];
    assert s[..t] + s[t..e] + s[e..] == s;
  }

  lemma ShuffledPermutes(s: seq<string>, seed: int)
    ensures multiset(Shuffled(s, seed)) == multiset(s) && |Shuffled(s, seed)| == |s|
  {
    if s != [] {
      ChoicesAreLegal(ToUint32(seed), |s| - 1);
      ApplyPermutes(s, Choices(ToUint32(seed), |s| - 1));
    }
  }

  lemma DistinctPermutation(a: seq<string>, b: seq<string>)
    requires Distinct(a) && multiset(a) == multiset(b)
    ensures Distinct(b)
  {
    ElementsCount(a);
    ElementsCount(b);
    forall x ensures x in Elements(a) <==> x in Elements(b) {
      assert x in a <==> x in multiset(a);
      assert x in b <==> x in multiset(b);
    }
    assert Elements(a) == Elements(b);
    assert |a| == |multiset(a)| == |multiset(b)| == |b|;
  }

  /** The training part is the whole part of its share; the validation part is too, unless the tolerance on the
      sum leaves fewer items. */
  ghost predicate HasShares(c: Split, n: nat, r: Ratios)
    requires r.train.Finite? && r.validation.Finite?
  {
    && WholePart(|c.train|, n as real * r.train.value)
    && (WholePart(|c.validation|, n as real * r.validation.value)
        || (c.test == [] && |c.validation| as real <= n as real * r.validation.value))
  }

  lemma CutHasShares(s: seq<string>, r: Ratios)
    requires Accepted(r)
    ensures HasShares(Cut(s, r), |s|, r)
  {
    CutIsPartition(s, r);
    CountsAreShares(|s|, r);
  }

  lemma SplitIsCut(items: seq<string>, r: Ratios, seed: int)
    ensures SplitOf(items, r, seed).Ok? <==> items != [] && Distinct(items) && SumToOne(r)
    ensures SplitOf(items, r, seed).Ok? ==> SplitOf(items, r, seed).value == Cut(Shuffled(items, seed), r)
  {
    ElementsCount(items);
    AcceptedIff(r);
  }

  /** A split exists exactly for a non-empty duplicate-free manifest and ratios that sum to 1, and then its parts
      are the shuffled items in order, so each item lands in exactly one of them. */
  lemma SplitIsPartition(items: seq<string>, r: Ratios, seed: int)
    ensures SplitOf(items, r, seed).Ok? <==> items != [] && Distinct(items) && SumToOne(r)
    ensures SplitOf(items, r, seed).Ok? ==>
      var c := SplitOf(items, r, seed).value;
      && c.train + c.validation + c.test == Shuffled(items, seed)
      && multiset(c.train + c.validation + c.test) == multiset(items)
      && Distinct(c.train + c.validation + c.test)
      && HasShares(c, |items|, r)
  {
    SplitIsCut(items, r, seed);
    if SplitOf(items, r, seed).Ok? {
      AcceptedIff(r);
      var shuffled := Shuffled(items, seed);
      ShuffledPermutes(items, seed);
      CutIsPartition(shuffled, r);
      CutHasShares(shuffled, r);
      DistinctPermutation(items, shuffled);
    }
  }

  /** The error of a refused manifest: no items, else the number of repeats, else that of the ratios. */
  lemma RefusalIs(items: seq<string>, r: Ratios, seed: int)
    ensures SplitOf(items, r, seed) == Err(NoItems) <==> items == []
    ensures items != [] && !Distinct(items) ==>
      SplitOf(items, r, seed) == Err(DuplicateItems(|items| - |set x | x in items|)) && |set x | x in items| < |items|
    ensures items != [] && Distinct(items) && !SumToOne(r) ==>
      RatioError(r).Some? && SplitOf(items, r, seed) == Err(RatioError(r).value)
  {
    ElementsCount(items);
    AcceptedIff(r);
  }

  lemma SplitPermutes(items: seq<string>, r: Ratios, seed: int)
    ensures SplitOf(items, r, seed).Ok? ==>
      var c := SplitOf(items, r, seed).value;
      multiset(c.train + c.validation + c.test) == multiset(items)
  {
    SplitIsPartition(items, r, seed);
  }

  method GenerateDeterministicSplit(items: seq<string>, ratios: Ratios, seed: int) returns (r: Result<Split, SplitError>)
    ensures r == SplitOf(items, ratios, seed)
    ensures r.Ok? ==> multiset(r.value.train + r.value.validation + r.value.test) == multiset(items)
  {
    SplitPermutes(items, ratios, seed);
    if items == [] {
      return Err(NoItems);
    }
    var uniqueCount := |Elements(items)|;
    if uniqueCount != |items| {
      return Err(DuplicateItems(|items| - uniqueCount));
    }
    var invalid := RatioError(ratios);
    if invalid.Some? {
      return Err(invalid.value);
    }
    var rng := new Mulberry32(seed);
    var shuffled := new string[|items|](i requires 0 <= i < |items| => items[i]);
    assert shuffled[..] == items;
    ShuffleInPlace(shuffled, rng);
    assert shuffled[..] == Shuffled(items, seed);
    r := Ok(Cut(shuffled[..], ratios));
  }
}
