/** Sums over sequences. */
module Totals {

  function Total<T>(xs: seq<T>, f: T -> nat): nat {
    if xs == [] then 0 else Total(xs[..|xs| - 1], f) + f(xs[|xs| - 1])
  }

  lemma TotalAppend<T>(xs: seq<T>, x: T, f: T -> nat)
    ensures Total(xs + [x], f) == Total(xs, f) + f(x)
  {
    assert (xs + [x])[..|xs|] == xs;
  }

  lemma {:induction false} TotalPrepend<T>(x: T, xs: seq<T>, f: T -> nat)
    ensures Total([x] + xs, f) == f(x) + Total(xs, f)
  {
    if xs == [] {
      assert [x] + xs == [] + [x];
    } else {
      var n := |xs| - 1;
      TotalPrepend(x, xs[..n], f);
      assert ([x] + xs)[..n + 1] == [x] + xs[..n];
    }
  }

  lemma {:induction false} TotalUpdate<T>(xs: seq<T>, i: nat, x: T, f: T -> nat)
    requires i < |xs|
    ensures Total(xs[i := x], f) + f(xs[i]) == Total(xs, f) + f(x)
  {
    var n := |xs| - 1;
    if i == n {
      assert xs[i := x][..n] == xs[..n];
    } else {
      TotalUpdate(xs[..n], i, x, f);
      assert xs[i := x][..n] == xs[..n][i := x];
    }
  }

  /** Larger terms give a larger sum. */
  lemma {:induction false} TotalMonotone<T>(xs: seq<T>, ys: seq<T>, f: T -> nat)
    requires |xs| == |ys| && forall i | 0 <= i < |xs| :: f(xs[i]) <= f(ys[i])
    ensures Total(xs, f) <= Total(ys, f)
    ensures (exists i :: 0 <= i < |xs| && f(xs[i]) < f(ys[i])) ==> Total(xs, f) < Total(ys, f)
  {
    if xs != [] {
      var n := |xs| - 1;
      TotalMonotone(xs[..n], ys[..n], f);
      if i :| 0 <= i < n && f(xs[i]) < f(ys[i]) {
        assert f(xs[..n][i]) < f(ys[..n][i]);
      }
    }
  }

  /** Every term is part of the sum. */
  lemma {:induction false} TotalAtLeast<T>(xs: seq<T>, i: nat, f: T -> nat)
    requires i < |xs|
    ensures f(xs[i]) <= Total(xs, f)
  {
    if i < |xs| - 1 { TotalAtLeast(xs[..|xs| - 1], i, f); }
  }

  lemma {:induction false} TotalZero<T>(xs: seq<T>, f: T -> nat)
    requires forall i | 0 <= i < |xs| :: f(xs[i]) == 0
    ensures Total(xs, f) == 0
  {
    if xs != [] { TotalZero(xs[..|xs| - 1], f); }
  }

  /** Two different terms are both part of the sum. */
  lemma {:induction false} TotalOfTwo<T>(xs: seq<T>, i: nat, j: nat, f: T -> nat)
    requires i < j < |xs|
    ensures f(xs[i]) + f(xs[j]) <= Total(xs, f)
  {
    var n := |xs| - 1;
    if j == n { TotalAtLeast(xs[..n], i, f); } else { TotalOfTwo(xs[..n], i, j, f); }
  }

  lemma {:induction false} TotalPositive<T>(xs: seq<T>, f: T -> nat)
    requires Total(xs, f) > 0
    ensures exists i :: 0 <= i < |xs| && f(xs[i]) > 0
  {
    if forall i | 0 <= i < |xs| :: f(xs[i]) == 0 { TotalZero(xs, f); }
  }

  lemma {:induction false} TotalJoin<T>(xs: seq<T>, ys: seq<T>, f: T -> nat)
    ensures Total(xs + ys, f) == Total(xs, f) + Total(ys, f)
  {
    if ys == [] {
      assert xs + ys == xs;
    } else {
      var n := |ys| - 1;
      TotalJoin(xs, ys[..n], f);
      assert xs + ys == xs + ys[..n] + [ys[n]] && ys == ys[..n] + [ys[n]];
      TotalAppend(xs + ys[..n], ys[n], f);
      TotalAppend(ys[..n], ys[n], f);
    }
  }
}
