/** Sums over the elements of a sequence: the bookkeeping behind the conservation laws. */
module Sums {

  ghost function Total<T>(xs: seq<T>, f: T -> int): int {
    if xs == [] then 0 else f(xs[0]) + Total(xs[1..], f)
  }

  lemma {:induction false} TotalUpdate<T>(xs: seq<T>, i: nat, x: T, f: T -> int)
    requires i < |xs|
    ensures Total(xs[i := x], f) == Total(xs, f) - f(xs[i]) + f(x)
  {
    if i == 0 {
      assert xs[0 := x][1..] == xs[1..];
    } else {
      TotalUpdate(xs[1..], i - 1, x, f);
      assert xs[i := x][1..] == xs[1..][i - 1 := x];
    }
  }

  lemma {:induction false} TotalZero<T>(xs: seq<T>, f: T -> int)
    requires forall x :: x in xs ==> f(x) == 0
    ensures Total(xs, f) == 0
  {
    if xs != [] {
      TotalZero(xs[1..], f);
    }
  }

  lemma {:induction false} TotalNonNegative<T>(xs: seq<T>, f: T -> int)
    requires forall x :: x in xs ==> f(x) >= 0
    ensures Total(xs, f) >= 0
    ensures forall x :: x in xs ==> Total(xs, f) >= f(x)
  {
    if xs != [] {
      TotalNonNegative(xs[1..], f);
      forall x | x in xs
        ensures Total(xs, f) >= f(x)
      {
        assert x == xs[0] || x in xs[1..];
      }
    }
  }
}
