/** Folds with addition over lists and finite maps, the arithmetic behind every ledger claim. */
module Sums {
  import opened Types

  function Sum<T>(xs: seq<T>, f: T -> int): int {
    if xs == [] then 0 else Sum(xs[..|xs| - 1], f) + f(xs[|xs| - 1])
  }

  lemma {:induction false} SumAppend<T>(xs: seq<T>, ys: seq<T>, f: T -> int)
    ensures Sum(xs + ys, f) == Sum(xs, f) + Sum(ys, f)
  {
    if ys == [] {
      assert xs + ys == xs;
    } else {
      var n := |ys| - 1;
      SumAppend(xs, ys[..n], f);
      assert (xs + ys)[..|xs + ys| - 1] == xs + ys[..n];
    }
  }

  lemma SumOne<T>(x: T, f: T -> int)
    ensures Sum([x], f) == f(x)
  {
  }

  lemma SumPush<T>(xs: seq<T>, i: nat, f: T -> int)
    requires i < |xs|
    ensures Sum(xs[..i + 1], f) == Sum(xs[..i], f) + f(xs[i])
  {
    assert xs[..i + 1][..i] == xs[..i];
  }

  lemma {:induction false} SumExt<T>(xs: seq<T>, f: T -> int, g: T -> int)
    requires forall x :: x in xs ==> f(x) == g(x)
    ensures Sum(xs, f) == Sum(xs, g)
  {
    if xs != [] {
      SumExt(xs[..|xs| - 1], f, g);
    }
  }

  lemma {:induction false} SumPlus<T>(xs: seq<T>, f: T -> int, g: T -> int, h: T -> int)
    requires forall x :: x in xs ==> h(x) == f(x) + g(x)
    ensures Sum(xs, h) == Sum(xs, f) + Sum(xs, g)
  {
    if xs != [] {
      SumPlus(xs[..|xs| - 1], f, g, h);
    }
  }

  lemma {:induction false} SumScale<T>(xs: seq<T>, f: T -> int, k: int, h: T -> int)
    requires forall x :: x in xs ==> h(x) == k * f(x)
    ensures Sum(xs, h) == k * Sum(xs, f)
  {
    if xs != [] {
      SumScale(xs[..|xs| - 1], f, k, h);
    }
  }

  /** A sum of non-negative terms is non-negative, and zero only when every term is. */
  lemma {:induction false} SumNonNegative<T>(xs: seq<T>, f: T -> int)
    requires forall x :: x in xs ==> f(x) >= 0
    ensures Sum(xs, f) >= 0
    ensures Sum(xs, f) == 0 <==> forall x :: x in xs ==> f(x) == 0
  {
    if xs != [] {
      var n := |xs| - 1;
      SumNonNegative(xs[..n], f);
      assert xs == xs[..n] + [xs[n]];
    }
  }

  lemma {:induction false} SumZero<T>(xs: seq<T>, f: T -> int)
    requires forall i :: 0 <= i < |xs| ==> f(xs[i]) == 0
    ensures Sum(xs, f) == 0
  {
    if xs != [] {
      SumZero(xs[..|xs| - 1], f);
    }
  }

  lemma {:induction false} SumBound<T>(xs: seq<T>, f: T -> int, bound: int)
    requires forall x :: x in xs ==> f(x) <= bound
    ensures Sum(xs, f) <= |xs| * bound
  {
    if xs != [] {
      SumBound(xs[..|xs| - 1], f, bound);
    }
  }

  lemma SumWithout<T>(xs: seq<T>, k: nat, f: T -> int)
    requires k < |xs|
    ensures Sum(xs, f) == Sum(Without(xs, k), f) + f(xs[k])
  {
    assert xs == xs[..k + 1] + xs[k + 1..];
    SumAppend(xs[..k + 1], xs[k + 1..], f);
    SumPush(xs, k, f);
    SumAppend(xs[..k], xs[k + 1..], f);
  }

  /** When every other term is zero, the sum is the one term that is left. */
  lemma SumSingle<T>(xs: seq<T>, i: nat, f: T -> int)
    requires i < |xs| && forall j :: 0 <= j < |xs| && j != i ==> f(xs[j]) == 0
    ensures Sum(xs, f) == f(xs[i])
  {
    SumWithout(xs, i, f);
    var rest := Without(xs, i);
    assert forall j :: 0 <= j < |rest| ==> rest[j] == xs[if j < i then j else j + 1];
    SumZero(rest, f);
  }

  /** The order of the terms does not matter. */
  lemma {:induction false} SumPermutation<T>(xs: seq<T>, ys: seq<T>, f: T -> int)
    requires multiset(xs) == multiset(ys)
    ensures Sum(xs, f) == Sum(ys, f)
  {
    if xs == [] {
      assert |multiset(ys)| == 0;
    } else {
      var n := |xs| - 1;
      var k := PickLast(xs, ys);
      SumPermutation(xs[..n], Without(ys, k), f);
      SumWithout(ys, k, f);
    }
  }

  /** Summing `g` over the images of `xs` under `m` is summing `g` after `m` over `xs`. */
  lemma {:induction false} SumMap<T, U>(xs: seq<T>, ys: seq<U>, f: T -> int, g: U -> int)
    requires |xs| == |ys| && forall i :: 0 <= i < |xs| ==> f(xs[i]) == g(ys[i])
    ensures Sum(xs, f) == Sum(ys, g)
  {
    if xs != [] {
      SumMap(xs[..|xs| - 1], ys[..|ys| - 1], f, g);
    }
  }

  /** The sum of `f` over the entries of a finite map. */
  ghost function MapSum<K, V>(m: map<K, V>, f: V -> int): int
    decreases |m|
  {
    if m == map[] then 0 else var k :| k in m; f(m[k]) + MapSum(m - {k}, f)
  }

  /** Any key may be taken out first. */
  lemma {:induction false} MapSumAt<K, V>(m: map<K, V>, k: K, f: V -> int)
    requires k in m
    ensures MapSum(m, f) == f(m[k]) + MapSum(m - {k}, f)
    decreases |m|
  {
    var j :| j in m && MapSum(m, f) == f(m[j]) + MapSum(m - {j}, f);
    if j != k {
      MapSumAt(m - {j}, k, f);
      MapSumAt(m - {k}, j, f);
      assert m - {j} - {k} == m - {k} - {j};
    }
  }

  /** Writing one key moves the sum by the difference at that key. */
  lemma MapSumUpdate<K, V>(m: map<K, V>, k: K, v: V, f: V -> int)
    ensures MapSum(m[k := v], f) == MapSum(m, f) + f(v) - if k in m then f(m[k]) else 0
  {
    var n := m[k := v];
    MapSumAt(n, k, f);
    assert n - {k} == m - {k};
    if k in m {
      MapSumAt(m, k, f);
    } else {
      assert m - {k} == m;
    }
  }
}
