/** Go's sort.Slice. The order among equals is left open, and without a strict weak order nothing is promised but a
    permutation. */
module Sorting {

  /** less is a strict weak order on the elements of s. */
  ghost predicate WeakOrder<T(!new)>(less: (T, T) -> bool, s: seq<T>) {
    && (forall a, b :: a in s && b in s && less(a, b) ==> !less(b, a))
    && (forall a, b, c :: a in s && b in s && c in s && less(a, c) ==> less(a, b) || less(b, c))
  }

  /** No element comes before one that ought to precede it. */
  ghost predicate Sorted<T(!new)>(less: (T, T) -> bool, s: seq<T>) {
    forall i, j :: 0 <= i < j < |s| ==> !less(s[j], s[i])
  }

  /** r is s with x put before position i. */
  ghost predicate Inserted<T>(s: seq<T>, i: nat, x: T, r: seq<T>) {
    && i <= |s| && |r| == |s| + 1 && r[i] == x
    && (forall j :: 0 <= j < i ==> r[j] == s[j]) && (forall j :: i < j < |r| ==> r[j] == s[j - 1])
  }

  lemma InsertedIs<T>(s: seq<T>, i: nat, x: T)
    requires i <= |s|
    ensures Inserted(s, i, x, s[..i] + [x] + s[i..])
    ensures multiset(s[..i] + [x] + s[i..]) == multiset(s) + multiset{x}
  {
    assert s == s[..i] + s[i..];
  }

  lemma InsertedSorted<T(!new)>(less: (T, T) -> bool, s: seq<T>, i: nat, x: T, r: seq<T>, all: seq<T>)
    requires WeakOrder(less, all) && x in all && forall y :: y in s ==> y in all
    requires Inserted(s, i, x, r) && Sorted(less, s)
    requires i < |s| ==> less(x, s[i])
    requires i > 0 ==> !less(x, s[i - 1])
    ensures Sorted(less, r)
  {
    forall j, k | 0 <= j < k < |r| ensures !less(r[k], r[j]) {
      if j == i {
        assert r[k] == s[k - 1];
        if k - 1 > i { assert !less(s[k - 1], s[i]); }
      } else if k == i {
        assert r[j] == s[j];
        if j < i - 1 { assert !less(s[i - 1], s[j]); }
      } else {
        assert r[j] == s[if j < i then j else j - 1] && r[k] == s[if k < i then k else k - 1];
      }
    }
  }

  lemma SameElements<T>(a: seq<T>, b: seq<T>)
    requires multiset(a) == multiset(b)
    ensures |a| == |b| && forall x :: x in a <==> x in b
  {
    assert |a| == |multiset(a)| && |b| == |multiset(b)|;
    forall x ensures x in a <==> x in b { assert x in multiset(a) <==> x in multiset(b); }
  }

  ghost predicate Distinct<T>(s: seq<T>) { forall i, j :: 0 <= i < j < |s| ==> s[i] != s[j] }

  lemma {:induction false} DistinctMultiset<T>(s: seq<T>)
    ensures Distinct(s) <==> forall x :: multiset(s)[x] <= 1
  {
    if s != [] {
      var n := |s| - 1;
      DistinctMultiset(s[..n]);
      assert s == s[..n] + [s[n]];
      if Distinct(s) {
        assert s[n] !in s[..n];
        forall x ensures multiset(s)[x] <= 1 { assert multiset(s[..n])[x] <= 1; }
      }
      if forall x :: multiset(s)[x] <= 1 {
        forall x ensures multiset(s[..n])[x] <= 1 { assert multiset(s)[x] <= 1; }
        assert multiset(s)[s[n]] <= 1;
        assert s[n] !in multiset(s[..n]);
      }
    }
  }

  /** A permutation of distinct elements has distinct elements. */
  lemma StaysDistinct<T>(a: seq<T>, b: seq<T>)
    requires multiset(a) == multiset(b) && Distinct(a)
    ensures Distinct(b)
  {
    DistinctMultiset(a);
    DistinctMultiset(b);
  }

  lemma PrefixSnoc<T>(s: seq<T>, k: nat)
    requires k < |s|
    ensures multiset(s[..k + 1]) == multiset(s[..k]) + multiset{s[k]} && forall x :: x in s[..k] ==> x in s
  {
    assert s[..k + 1] == s[..k] + [s[k]];
  }

  method SortSlice<T(!new, ==)>(s: seq<T>, less: (T, T) -> bool) returns (out: seq<T>)
    ensures multiset(out) == multiset(s)
    ensures WeakOrder(less, s) ==> Sorted(less, out)
  {
    hide WeakOrder, Inserted;
    out := [];
    for k := 0 to |s|
      invariant multiset(out) == multiset(s[..k])
      invariant WeakOrder(less, s) ==> Sorted(less, out)
    {
      var x := s[k];
      var i := |out|;
      while i > 0 && less(x, out[i - 1])
        invariant 0 <= i <= |out| && (i < |out| ==> less(x, out[i]))
      {
        i := i - 1;
      }
      PrefixSnoc(s, k);
      InsertedIs(out, i, x);
      SameElements(out, s[..k]);
      if WeakOrder(less, s) { InsertedSorted(less, out, i, x, out[..i] + [x] + out[i..], s); }
      hide Sorted;
      out := out[..i] + [x] + out[i..];
    }
    assert s[..|s|] == s;
  }
}
