/** Folding a sequence into a state, and when the order of the sequence does not matter. */
module Folds {

  function Fold<S, T>(f: (S, T) -> S, s: S, xs: seq<T>): S
    decreases |xs|
  {
    if xs == [] then s else Fold(f, f(s, xs[0]), xs[1..])
  }

  /** From a state that is fit, two steps with admissible elements commute and leave a state that is fit. */
  ghost predicate Swaps<S(!new), T(!new)>(f: (S, T) -> S, fit: S -> bool, ok: T -> bool) {
    forall s, a, b :: fit(s) && ok(a) && ok(b) ==> fit(f(s, a)) && f(f(s, a), b) == f(f(s, b), a)
  }

  lemma SwapsAt<S(!new), T(!new)>(f: (S, T) -> S, fit: S -> bool, ok: T -> bool, s: S, a: T, b: T)
    requires Swaps(f, fit, ok) && fit(s) && ok(a) && ok(b)
    ensures fit(f(s, a)) && f(f(s, a), b) == f(f(s, b), a)
  {
    assert f(f(s, a), b) == f(f(s, b), a);
  }

  lemma {:induction false} FoldSnoc<S, T>(f: (S, T) -> S, s: S, xs: seq<T>, x: T)
    ensures Fold(f, s, xs + [x]) == f(Fold(f, s, xs), x)
    decreases |xs|
  {
    if xs == [] {
      assert xs + [x] == [x];
    } else {
      assert (xs + [x])[1..] == xs[1..] + [x];
      FoldSnoc(f, f(s, xs[0]), xs[1..], x);
    }
  }

  function Without<T>(s: seq<T>, i: nat): seq<T>
    requires i < |s|
  {
    s[..i] + s[i + 1..]
  }

  lemma WithoutIs<T>(s: seq<T>, i: nat)
    requires i < |s|
    ensures multiset(Without(s, i)) == multiset(s) - multiset{s[i]}
    ensures multiset(Without(s, i) + [s[i]]) == multiset(s)
    ensures forall x :: x in Without(s, i) ==> x in s
  {
    assert s == s[..i] + [s[i]] + s[i + 1..];
  }

  lemma WithoutFirst<T>(s: seq<T>)
    requires s != []
    ensures Without(s, 0) == s[1..]
  {
  }

  lemma WithoutLater<T>(s: seq<T>, i: nat)
    requires 0 < i < |s|
    ensures Without(s, i) != [] && Without(s, i)[0] == s[0] && Without(s, i)[1..] == Without(s[1..], i - 1)
  {
  }

  /** An admissible element can be taken first. */
  lemma {:induction false} BringForward<S(!new),
      T(!new)>(f: (S, T) -> S, fit: S -> bool, ok: T -> bool, s: S, xs: seq<T>, i: nat)
    requires Swaps(f, fit, ok) && fit(s) && i < |xs| && forall x :: x in xs ==> ok(x)
    ensures Fold(f, s, xs) == Fold(f, f(s, xs[i]), Without(xs, i))
    decreases |xs|
  {
    hide Swaps, Without;
    if i == 0 {
      WithoutFirst(xs);
    } else {
      WithoutLater(xs, i);
      SwapsAt(f, fit, ok, s, xs[0], xs[i]);
      BringForward(f, fit, ok, f(s, xs[0]), xs[1..], i - 1);
    }
  }

  lemma {:induction false} FoldPermutation<S(!new),
      T(!new)>(f: (S, T) -> S, fit: S -> bool, ok: T -> bool, s: S, xs: seq<T>, ys: seq<T>)
    requires Swaps(f, fit, ok) && fit(s) && multiset(xs) == multiset(ys) && forall x :: x in xs ==> ok(x)
    ensures Fold(f, s, xs) == Fold(f, s, ys)
    decreases |xs|
  {
    hide Swaps, Without;
    assert |xs| == |multiset(xs)| && |ys| == |multiset(ys)|;
    if xs != [] {
      var x := xs[0];
      assert x in multiset(ys);
      var i :| 0 <= i < |ys| && ys[i] == x;
      forall y | y in ys ensures ok(y) { assert y in multiset(xs); }
      SwapsAt(f, fit, ok, s, x, x);
      BringForward(f, fit, ok, s, ys, i);
      WithoutIs(ys, i);
      WithoutIs(xs, 0);
      WithoutFirst(xs);
      FoldPermutation(f, fit, ok, f(s, x), xs[1..], Without(ys, i));
    }
  }
}
