/** Sums of a natural-valued function over a sequence. */
module Sums {
  function Sum<T>(xs: seq<T>, f: T -> nat): nat {
    if xs == [] then 0 else f(xs[0]) + Sum(xs[1..], f)
  }

  lemma {:induction false} SumConcat<T>(xs: seq<T>, ys: seq<T>, f: T -> nat)
    ensures Sum(xs + ys, f) == Sum(xs, f) + Sum(ys, f)
  {
    if xs == [] {
      assert xs + ys == ys;
    } else {
      assert (xs + ys)[1..] == xs[1..] + ys;
      SumConcat(xs[1..], ys, f);
    }
  }

  lemma SumOne<T>(x: T, f: T -> nat)
    ensures Sum([x], f) == f(x)
  {
    assert [x][1..] == [];
  }

  lemma SumRemove<T>(xs: seq<T>, i: nat, f: T -> nat)
    requires i < |xs|
    ensures Sum(xs, f) == Sum(xs[..i] + xs[i + 1..], f) + f(xs[i])
  {
    SumConcat(xs[..i], xs[i + 1..], f);
    SumConcat(xs[..i], [xs[i]] + xs[i + 1..], f);
    SumConcat([xs[i]], xs[i + 1..], f);
    SumOne(xs[i], f);
    assert xs == xs[..i] + ([xs[i]] + xs[i + 1..]);
  }

  lemma SumUpdate<T>(xs: seq<T>, i: nat, x: T, f: T -> nat)
    requires i < |xs|
    ensures Sum(xs[i := x], f) + f(xs[i]) == Sum(xs, f) + f(x)
  {
    SumRemove(xs, i, f);
    SumRemove(xs[i := x], i, f);
    assert xs[i := x][..i] + xs[i := x][i + 1..] == xs[..i] + xs[i + 1..];
  }

  lemma {:induction false} SumAtLeast<T>(xs: seq<T>, i: nat, f: T -> nat)
    requires i < |xs|
    ensures Sum(xs, f) >= f(xs[i])
  {
    SumRemove(xs, i, f);
  }

  /** A positive sum has a positive term. */
  lemma {:induction false} SumPositive<T>(xs: seq<T>, f: T -> nat) returns (i: nat)
    requires Sum(xs, f) > 0
    ensures i < |xs| && f(xs[i]) > 0
  {
    if f(xs[0]) > 0 {
      i := 0;
    } else {
      i := SumPositive(xs[1..], f);
      i := i + 1;
    }
  }

  lemma {:induction false} SumZero<T>(xs: seq<T>, f: T -> nat)
    requires forall x :: x in xs ==> f(x) == 0
    ensures Sum(xs, f) == 0
  {
    if xs != [] {
      assert xs[0] in xs;
      SumZero(xs[1..], f);
    }
  }

  /** Pointwise changes of at most `d` change the sum by at most `d` a term. */
  lemma {:induction false} SumGrowth<T>(xs: seq<T>, ys: seq<T>, f: T -> nat, d: nat)
    requires |xs| == |ys|
    requires forall i :: 0 <= i < |xs| ==> f(ys[i]) <= f(xs[i]) + d
    ensures Sum(ys, f) <= Sum(xs, f) + d * |xs|
  {
    if xs != [] {
      forall i | 0 <= i < |xs[1..]| ensures f(ys[1..][i]) <= f(xs[1..][i]) + d {
        assert f(ys[i + 1]) <= f(xs[i + 1]) + d;
      }
      SumGrowth(xs[1..], ys[1..], f, d);
      assert d * |xs| == d * |xs[1..]| + d;
    }
  }

  lemma {:induction false} SumSame<T>(xs: seq<T>, ys: seq<T>, f: T -> nat)
    requires |xs| == |ys|
    requires forall i :: 0 <= i < |xs| ==> f(ys[i]) == f(xs[i])
    ensures Sum(ys, f) == Sum(xs, f)
  {
    if xs != [] {
      forall i | 0 <= i < |xs[1..]| ensures f(ys[1..][i]) == f(xs[1..][i]) {
        assert f(ys[i + 1]) == f(xs[i + 1]);
      }
      SumSame(xs[1..], ys[1..], f);
    }
  }
}
