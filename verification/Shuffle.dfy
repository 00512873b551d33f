/** The seeded generator mulberry32 and the in-place Fisher-Yates shuffle it drives. */
module Shuffle {
  import opened Sequences
  const TWO_32: nat := 0x1_0000_0000

  // ---------------------------------------------------------------- mulberry32

  /** `x >>> 0` of an integer: its residue modulo 2^32 (ToUint32 of ECMA-262). */
  function ToUint32(x: int): bv32 { (x % TWO_32) as bv32 }

  function NextState(state: bv32): bv32 { state + 0x6d2b79f5 }

  /** The draw made from a state, before its division by 2^32. `*` is `Math.imul`, section 21.3.2.19 of
      ECMA-262: the low 32 bits of the product. */
  function Mix(state: bv32): bv32 {
    var t := (state ^ (state >> 15)) * (1 | state);
    var u := (t + (t ^ (t >> 7)) * (61 | t)) ^ t;
    u ^ (u >> 14)
  }

  /** Math.floor(v * (i + 1)) for the generator's value v = u / 2^32. */
  function Scale(u: nat, i: nat): int { (u as real / TWO_32 as real * (i + 1) as real).Floor }

  lemma ScaleIsInRange(u: nat, i: nat)
    requires u < TWO_32
    ensures 0 <= Scale(u, i) <= i
  {
    var q := u as real / TWO_32 as real;
    assert 0.0 <= q < 1.0;
    var n := (i + 1) as real;
    assert 0.0 <= q * n;
    assert n - q * n == (1.0 - q) * n > 0.0;
  }

  function IndexFor(u: bv32, i: nat): int { Scale(u as nat, i) }

  lemma IndexIsInRange(u: bv32, i: nat)
    ensures 0 <= IndexFor(u, i) <= i
  {
    ScaleIsInRange(u as nat, i);
  }

  /** The closure's captured state. */
  class Mulberry32 {
    var state: bv32

    constructor (seed: int)
      ensures state == ToUint32(seed)
    {
      state := ToUint32(seed);
    }

    method Draw() returns (u: bv32)
      modifies this
      ensures state == NextState(old(state)) && u == Mix(state)
    {
      state := NextState(state);
      u := Mix(state);
    }
  }

  // ---------------------------------------------------------------- swaps

  function Swap<T>(s: seq<T>, i: nat, j: nat): seq<T>
    requires i < |s| && j < |s|
  {
    s[i := s[j]][j := s[i]]
  }

  /** A run of swaps: position `i` with `choices[0]`, then `i - 1` with `choices[1]`, and so on. */
  ghost predicate Legal(choices: seq<nat>) {
    forall k :: 0 <= k < |choices| ==> choices[k] <= |choices| - k
  }

  function Apply<T>(s: seq<T>, choices: seq<nat>): seq<T>
    requires |choices| < |s| && Legal(choices)
    decreases |choices|
  {
    if choices == [] then s else
    Apply(Swap(s, |choices|, choices[0]), choices[1..])
  }

  lemma ApplyCons<T>(s: seq<T>, j: nat, rest: seq<nat>)
    requires |rest| + 1 < |s| && Legal(rest) && j <= |rest| + 1
    ensures Legal([j] + rest) && Apply(s, [j] + rest) == Apply(Swap(s, |rest| + 1, j), rest)
  {
    var choices := [j] + rest;
    forall k | 0 <= k < |choices| ensures choices[k] <= |choices| - k {
      if k > 0 {
        assert choices[k] == rest[k - 1];
      }
    }
    assert choices[1..] == rest;
  }

  /** The generator's choices for a shuffle of `i + 1` items. */
  function Choices(state: bv32, i: nat): seq<nat>
    decreases i
  {
    if i == 0 then [] else
    IndexIsInRange(Mix(NextState(state)), i);
    [IndexFor(Mix(NextState(state)), i)] + Choices(NextState(state), i - 1)
  }

  lemma {:induction false} ChoicesAreLegal(state: bv32, i: nat)
    ensures |Choices(state, i)| == i && Legal(Choices(state, i))
    decreases i
  {
    if i > 0 {
      var u, rest := Mix(NextState(state)), Choices(NextState(state), i - 1);
      IndexIsInRange(u, i);
      ChoicesAreLegal(NextState(state), i - 1);
      var all := Choices(state, i);
      forall k | 0 <= k < i ensures all[k] <= i - k {
        if k > 0 {
          assert all[k] == rest[k - 1];
        }
      }
    }
  }

  lemma ChoicesStep<T>(s: seq<T>, state: bv32, i: nat)
    requires 0 < i < |s|
    ensures var j := IndexFor(Mix(NextState(state)), i);
      && 0 <= j <= i
      && |Choices(state, i)| == i && Legal(Choices(state, i))
      && |Choices(NextState(state), i - 1)| == i - 1 && Legal(Choices(NextState(state), i - 1))
      && Apply(s, Choices(state, i)) == Apply(Swap(s, i, j), Choices(NextState(state), i - 1))
  {
    var j := IndexFor(Mix(NextState(state)), i);
    IndexIsInRange(Mix(NextState(state)), i);
    ChoicesAreLegal(state, i);
    ChoicesAreLegal(NextState(state), i - 1);
    ApplyCons(s, j, Choices(NextState(state), i - 1));
  }

  function Shuffled<T>(s: seq<T>, seed: int): seq<T> {
    if s == [] then [] else
    ChoicesAreLegal(ToUint32(seed), |s| - 1);
    Apply(s, Choices(ToUint32(seed), |s| - 1))
  }

  /** Every swap index is in bounds (or `Apply` could not be called), and nothing is lost or duplicated. */
  lemma {:induction false} ApplyPermutes<T>(s: seq<T>, choices: seq<nat>)
    requires |choices| < |s| && Legal(choices)
    ensures multiset(Apply(s, choices)) == multiset(s)
    ensures |Apply(s, choices)| == |s|
    ensures Apply(s, choices)[|choices| + 1..] == s[|choices| + 1..]
    decreases |choices|
  {
    if choices != [] {
      var next := Swap(s, |choices|, choices[0]);
      ApplyPermutes(next, choices[1..]);
      var r := Apply(s, choices);
      forall k | |choices| + 1 <= k < |s| ensures r[k] == s[k] {
        assert r[k] == r[|choices|..][k - |choices|] == next[|choices|..][k - |choices|];
      }
    }
  }

  /** After the first swap, position `|choices|` is settled. */
  lemma LastIsChosen<T>(s: seq<T>, choices: seq<nat>)
    requires 0 < |choices| < |s| && Legal(choices)
    ensures |Apply(s, choices)| == |s| && Apply(s, choices)[|choices|] == s[choices[0]]
  {
    var next := Swap(s, |choices|, choices[0]);
    ApplyPermutes(next, choices[1..]);
    var r := Apply(s, choices);
    assert r[|choices|] == r[|choices|..][0] == next[|choices|..][0];
  }

  /** On distinct items no two runs of choices give the same order ... */
  lemma {:induction false} ApplyIsInjective<T>(s: seq<T>, a: seq<nat>, b: seq<nat>)
    requires |a| == |b| < |s| && Legal(a) && Legal(b)
    requires forall i, j :: 0 <= i < j < |s| ==> s[i] != s[j]
    requires Apply(s, a) == Apply(s, b)
    ensures a == b
    decreases |a|
  {
    if a != [] {
      LastIsChosen(s, a);
      LastIsChosen(s, b);
      assert a[0] == b[0];
      ApplyIsInjective(Swap(s, |a|, a[0]), a[1..], b[1..]);
      HeadTail(a);
      HeadTail(b);
    }
  }

  lemma FrontMultiset<T>(s: seq<T>, n: nat)
    requires n <= |s|
    ensures multiset(s[..n]) == multiset(s) - multiset(s[n..])
  {
    assert s == s[..n] + s[n..];
  }

  lemma FrontsMatch<T>(s: seq<T>, t: seq<T>, n: nat)
    requires n <= |s| == |t| && multiset(s) == multiset(t) && s[n..] == t[n..]
    ensures multiset(s[..n]) == multiset(t[..n])
  {
    FrontMultiset(s, n);
    FrontMultiset(t, n);
  }

  lemma FindInFront<T>(s: seq<T>, t: seq<T>, n: nat) returns (j: nat)
    requires n < |s| == |t| && multiset(s) == multiset(t) && s[n + 1..] == t[n + 1..]
    ensures j <= n && s[j] == t[n]
  {
    FrontsMatch(s, t, n + 1);
    assert t[n] == t[..n + 1][n];
    assert t[n] in multiset(s[..n + 1]);
    j :| 0 <= j < n + 1 && s[..n + 1][j] == t[n];
  }

  /** ... and every order is reached: the choices are in bijection with the orders. */
  lemma {:induction false} ApplyIsOnto<T>(s: seq<T>, t: seq<T>, n: nat) returns (choices: seq<nat>)
    requires n < |s| == |t| && multiset(s) == multiset(t)
    requires s[n + 1..] == t[n + 1..]
    ensures |choices| == n && Legal(choices) && Apply(s, choices) == t
    decreases n
  {
    if n == 0 {
      choices := [];
      var j := FindInFront(s, t, 0);
      HeadTail(s);
      HeadTail(t);
    } else {
      var j := FindInFront(s, t, n);
      var next := Swap(s, n, j);
      var rest := ApplyIsOnto(next, t, n - 1);
      ApplyCons(s, j, rest);
      choices := [j] + rest;
    }
  }

  method SwapInPlace(a: array<string>, i: nat, j: nat)
    requires i < a.Length && j < a.Length
    modifies a
    ensures a[..] == Swap(old(a[..]), i, j)
  {
    a[i], a[j] := a[j], a[i];
  }

  /** One turn of the loop: the rest of the choices finishes from here what it would have made of the start. */
  method SwapDrawn(a: array<string>, rng: Mulberry32, i: nat)
    requires 0 < i < a.Length
    requires |Choices(rng.state, i)| == i && Legal(Choices(rng.state, i))
    modifies a, rng
    ensures |Choices(rng.state, i - 1)| == i - 1 && Legal(Choices(rng.state, i - 1))
    ensures Apply(a[..], Choices(rng.state, i - 1)) == old(Apply(a[..], Choices(rng.state, i)))
  {
    ChoicesStep(a[..], rng.state, i);
    var u := rng.Draw();
    SwapInPlace(a, i, IndexFor(u, i));
  }

  /** The shuffle loop, in place. */
  method ShuffleInPlace(a: array<string>, rng: Mulberry32)
    requires a.Length > 0
    modifies a, rng
    ensures old(|Choices(rng.state, a.Length - 1)| == a.Length - 1 && Legal(Choices(rng.state, a.Length - 1)))
    ensures a[..] == old(Apply(a[..], Choices(rng.state, a.Length - 1)))
  {
    ChoicesAreLegal(rng.state, a.Length - 1);
    var i := a.Length - 1;
    while i > 0
      invariant 0 <= i < a.Length
      invariant |Choices(rng.state, i)| == i && Legal(Choices(rng.state, i))
      invariant Apply(a[..], Choices(rng.state, i)) == old(Apply(a[..], Choices(rng.state, a.Length - 1)))
    {
      SwapDrawn(a, rng, i);
      i := i - 1;
    }
  }

  // ---------------------------------------------------------------- the choices in plain terms

  /** Swapping exchanges two entries and leaves the others. */
  lemma SwapExchanges<T>(s: seq<T>, i: nat, j: nat)
    requires i < |s| && j < |s|
    ensures |Swap(s, i, j)| == |s| && Swap(s, i, j)[i] == s[j] && Swap(s, i, j)[j] == s[i]
    ensures forall k :: 0 <= k < |s| && k != i && k != j ==> Swap(s, i, j)[k] == s[k]
  {}

  /** The state after `n` draws. */
  function StateAfter(state: bv32, n: nat): bv32
    decreases n
  {
    if n == 0 then state else StateAfter(NextState(state), n - 1)
  }

  lemma FloorOf(x: real)
    ensures x.Floor as real <= x < x.Floor as real + 1.0
  {}

  /** The choice for position `i` is the share of `i + 1` that a word is of 2^32, rounded down. */
  lemma ScaleIsShare(u: nat, i: nat)
    ensures var share := u as real / 4294967296.0 * (i + 1) as real;
      Scale(u, i) as real <= share < Scale(u, i) as real + 1.0
  {
    FloorOf(u as real / TWO_32 as real * (i + 1) as real);
  }

  /** The k-th choice of a shuffle is made for the k-th position from the end, from the k-th word. */
  lemma {:induction false} ChoiceAt(state: bv32, i: nat, k: nat)
    requires k < i
    ensures k < |Choices(state, i)| && Choices(state, i)[k] == Scale(Mix(StateAfter(state, k + 1)) as nat, i - k)
    decreases i
  {
    ChoicesAreLegal(state, i);
    ChoicesAreLegal(NextState(state), i - 1);
    if k > 0 {
      ChoiceAt(NextState(state), i - 1, k - 1);
    }
  }

  /** Seeds that differ by a multiple of 2^32 are the same seed; -1 is the largest word. */
  lemma SeedsWrap(seed: int, turns: int)
    ensures ToUint32(seed + turns * 4294967296) == ToUint32(seed)
    ensures ToUint32(0) == 0 && ToUint32(1) == 1 && ToUint32(42) == 42 && ToUint32(-1) == 0xffff_ffff
  {
    assert (seed + turns * TWO_32) % TWO_32 == seed % TWO_32;
    assert -1 % TWO_32 == 4294967295;
  }

  /** The first words of the generator for three seeds, as mulberry32 is known to give them. */
  lemma KnownWords()
    ensures Mix(NextState(0)) == 0x4434b462 && Mix(NextState(NextState(0))) == 0x00159c37
    ensures Mix(NextState(1)) == 0xa087eaf3 && Mix(NextState(NextState(1))) == 0x00b349c9
    ensures Mix(NextState(42)) == 0x99e1ef7c && Mix(NextState(NextState(42))) == 0x72c32b8a
  {}

  /** The order that seed 42 gives three items. */
  lemma KnownOrder()
    ensures Shuffled(["a", "b", "c"], 42) == ["c", "a", "b"]
  {
    KnownWords();
    assert ToUint32(42) == 42;
    assert (0x99e1ef7c as bv32) as nat == 0x99e1ef7c && (0x72c32b8a as bv32) as nat == 0x72c32b8a;
    ScaleIsShare(0x99e1ef7c, 2);
    ScaleIsShare(0x72c32b8a, 1);
    assert IndexFor(0x99e1ef7c, 2) == 1 && IndexFor(0x72c32b8a, 1) == 0;
    var s := ["a", "b", "c"];
    assert Choices(NextState(NextState(42)), 0) == [];
    assert Choices(NextState(42), 1) == [0] + [];
    assert Choices(42, 2) == [1] + [0];
    ApplyCons(s, 1, [0]);
    assert Swap(s, 2, 1) == ["a", "c", "b"];
    ApplyCons(["a", "c", "b"], 0, []);
    assert Swap(["a", "c", "b"], 1, 0) == ["c", "a", "b"];
    assert [0] + [] == [0];
  }
}
