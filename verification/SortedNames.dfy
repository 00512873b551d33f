/** Python's `sorted` on a set of strings: ascending by code point. */
module SortedNames {
  predicate Less(a: string, b: string) {
    b != [] && (a == [] || a[0] < b[0] || (a[0] == b[0] && Less(a[1..], b[1..])))
  }

  predicate Agree(a: string, b: string, n: nat) {
    n <= |a| && n <= |b| && forall k :: 0 <= k < n ==> a[k] == b[k]
  }

  /** `b` goes on where `a` ends, or has the greater code there. */
  predicate GreaterAt(a: string, b: string, n: nat) { n < |b| && (n < |a| ==> a[n] < b[n]) }

  /** A name is less exactly when the other goes on where it ends, or has the greater code where they first differ. */
  lemma {:induction false} LessIff(a: string, b: string)
    ensures Less(a, b) <==> exists n: nat :: Agree(a, b, n) && GreaterAt(a, b, n)
  {
    if a != [] && b != [] && a[0] == b[0] {
      LessIff(a[1..], b[1..]);
      if n: nat :| Agree(a[1..], b[1..], n) && GreaterAt(a[1..], b[1..], n) {
        assert Agree(a, b, n + 1) && GreaterAt(a, b, n + 1);
      }
      if n: nat :| Agree(a, b, n) && GreaterAt(a, b, n) {
        assert Agree(a[1..], b[1..], n - 1) && GreaterAt(a[1..], b[1..], n - 1);
      }
    } else {
      assert Agree(a, b, 0);
    }
  }

  lemma {:induction false} LessIsIrreflexive(a: string)
    ensures !Less(a, a)
  {
    if a != [] {
      LessIsIrreflexive(a[1..]);
    }
  }

  lemma {:induction false} LessIsTotal(a: string, b: string)
    ensures !Less(a, a)
    ensures Less(a, b) ==> a != b && !Less(b, a)
    ensures a != b ==> Less(a, b) || Less(b, a)
    decreases |a| + |b|
  {
    LessIsIrreflexive(a);
    if a != [] {
      if b != [] {
        LessIsTotal(a[1..], b[1..]);
        assert a == [a[0]] + a[1..] && b == [b[0]] + b[1..];
      }
    }
  }

  lemma {:induction false} LessIsTransitive(a: string, b: string, c: string)
    requires Less(a, b) && Less(b, c)
    ensures Less(a, c)
  {
    if a != [] && a[0] == b[0] == c[0] {
      LessIsTransitive(a[1..], b[1..], c[1..]);
    }
  }

  ghost predicate Ascending(s: seq<string>) {
    forall i, j :: 0 <= i < j < |s| ==> Less(s[i], s[j])
  }

  predicate IsLeast(m: string, names: set<string>) {
    m in names && forall n :: n in names ==> n == m || Less(m, n)
  }

  lemma {:induction false} LeastExists(names: set<string>)
    requires names != {}
    ensures exists m :: IsLeast(m, names)
  {
    var x :| x in names;
    if names == {x} {
      assert IsLeast(x, names);
    } else {
      var rest := names - {x};
      LeastExists(rest);
      var m :| IsLeast(m, rest);
      LessIsTotal(x, m);
      if Less(x, m) {
        forall n | n in names ensures n == x || Less(x, n) {
          if n != x && n != m {
            LessIsTransitive(x, m, n);
          }
        }
        assert IsLeast(x, names);
      } else {
        assert IsLeast(m, names);
      }
    }
  }

  lemma LeastIsUnique(m: string, n: string, names: set<string>)
    requires IsLeast(m, names) && IsLeast(n, names)
    ensures m == n
  {
    LessIsTotal(m, n);
  }

  function Least(names: set<string>): (m: string)
    requires names != {}
    ensures IsLeast(m, names)
  {
    LeastExists(names);
    assert forall m, n :: IsLeast(m, names) && IsLeast(n, names) ==> m == n by {
      forall m, n | IsLeast(m, names) && IsLeast(n, names) ensures m == n {
        LeastIsUnique(m, n, names);
      }
    }
    var m :| IsLeast(m, names);
    m
  }

  /** The elements of `names`, once each, in ascending order. */
  function Sorted(names: set<string>): (s: seq<string>)
    ensures forall n :: n in s <==> n in names
    ensures |s| == |names|
  {
    if names == {} then [] else [Least(names)] + Sorted(names - {Least(names)})
  }

  lemma {:induction false} SortedIsAscending(names: set<string>)
    ensures Ascending(Sorted(names))
  {
    if names != {} {
      var m, rest := Least(names), Sorted(names - {Least(names)});
      SortedIsAscending(names - {m});
      forall j | 0 <= j < |rest| ensures Less(m, rest[j]) {
        assert rest[j] in rest;
      }
    }
  }

  ghost predicate Distinct(s: seq<string>) {
    forall i, j :: 0 <= i < j < |s| ==> s[i] != s[j]
  }

  lemma SortedIsDistinct(names: set<string>)
    ensures Distinct(Sorted(names))
  {
    var s := Sorted(names);
    SortedIsAscending(names);
    forall i, j | 0 <= i < j < |s| ensures s[i] != s[j] {
      LessIsTotal(s[i], s[j]);
    }
  }
}
