/** Python's `sorted` with a key and `reverse=True`: descending by a real key, and stable. */
module StableSort {
  import opened Sequences

  datatype Keyed<+T> = Keyed(key: real, item: T)

  ghost predicate Descending<T>(s: seq<Keyed<T>>) {
    forall i, j :: 0 <= i < j < |s| ==> s[i].key >= s[j].key
  }

  /** The entries whose key is `k`, in order. */
  function WithKey<T>(s: seq<Keyed<T>>, k: real): seq<Keyed<T>> {
    if s == [] then [] else (if s[0].key == k then [s[0]] else []) + WithKey(s[1..], k)
  }

  function InsertDescending<T>(x: Keyed<T>, s: seq<Keyed<T>>): seq<Keyed<T>> {
    if s == [] || s[0].key <= x.key then [x] + s else [s[0]] + InsertDescending(x, s[1..])
  }

  function SortDescending<T>(s: seq<Keyed<T>>): seq<Keyed<T>> {
    if s == [] then [] else InsertDescending(s[0], SortDescending(s[1..]))
  }

  ghost predicate AtMost<T>(s: seq<Keyed<T>>, k: real) { forall i :: 0 <= i < |s| ==> s[i].key <= k }

  lemma ConsKeepsOrder<T>(x: Keyed<T>, s: seq<Keyed<T>>)
    requires Descending(s) && AtMost(s, x.key)
    ensures Descending([x] + s)
  {}

  lemma {:induction false} InsertKeepsBound<T>(x: Keyed<T>, s: seq<Keyed<T>>, k: real)
    requires AtMost(s, k) && x.key <= k
    ensures AtMost(InsertDescending(x, s), k)
  {
    if !(s == [] || s[0].key <= x.key) {
      InsertKeepsBound(x, s[1..], k);
    }
  }

  lemma {:induction false} InsertKeepsOrder<T>(x: Keyed<T>, s: seq<Keyed<T>>)
    requires Descending(s)
    ensures Descending(InsertDescending(x, s))
  {
    if s == [] || s[0].key <= x.key {
      ConsKeepsOrder(x, s);
    } else {
      InsertKeepsOrder(x, s[1..]);
      InsertKeepsBound(x, s[1..], s[0].key);
      ConsKeepsOrder(s[0], InsertDescending(x, s[1..]));
    }
  }

  lemma {:induction false} InsertKeepsEntries<T>(x: Keyed<T>, s: seq<Keyed<T>>)
    ensures multiset(InsertDescending(x, s)) == multiset{x} + multiset(s)
  {
    if s == [] || s[0].key <= x.key {
      ConsMultiset(x, s);
    } else {
      InsertKeepsEntries(x, s[1..]);
      ConsMultiset(s[0], InsertDescending(x, s[1..]));
      ConsMultiset(s[0], s[1..]);
      HeadTail(s);
    }
  }

  lemma {:induction false} InsertIsStable<T>(x: Keyed<T>, s: seq<Keyed<T>>, k: real)
    requires Descending(s)
    ensures WithKey(InsertDescending(x, s), k) == WithKey([x] + s, k)
  {
    if s == [] || s[0].key <= x.key {
    } else {
      var rest := InsertDescending(x, s[1..]);
      InsertIsStable(x, s[1..], k);
      ConsTail(s[0], rest);
      ConsTail(x, s);
      ConsTail(x, s[1..]);
      if x.key == k {
        assert s[0].key != k;
      }
    }
  }

  /** Sorting permutes, orders by key, and keeps the input order among equal keys. */
  lemma {:induction false} SortIsStableSort<T>(s: seq<Keyed<T>>)
    ensures Descending(SortDescending(s))
    ensures multiset(SortDescending(s)) == multiset(s)
    ensures forall k :: WithKey(SortDescending(s), k) == WithKey(s, k)
  {
    if s != [] {
      SortIsStableSort(s[1..]);
      InsertKeepsOrder(s[0], SortDescending(s[1..]));
      InsertKeepsEntries(s[0], SortDescending(s[1..]));
      ConsMultiset(s[0], s[1..]);
      HeadTail(s);
      forall k ensures WithKey(SortDescending(s), k) == WithKey(s, k) {
        InsertIsStable(s[0], SortDescending(s[1..]), k);
        ConsTail(s[0], SortDescending(s[1..]));
      }
    }
  }
}
