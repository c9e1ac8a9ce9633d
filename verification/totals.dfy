/**
 Sums over the threads of a pool: each thread counts by what its program counter is worth.
 */
module Totals {

  function Total<T>(rank: T -> nat, xs: seq<T>): nat {
    if xs == [] then 0 else rank(xs[0]) + Total(rank, xs[1..])
  }

  lemma {:induction false} TotalUpdate<T>(rank: T -> nat, xs: seq<T>, i: nat, x: T)
    requires i < |xs|
    ensures Total(rank, xs[i := x]) + rank(xs[i]) == Total(rank, xs) + rank(x)
  {
    if i == 0 {
      assert xs[i := x][1..] == xs[1..];
    } else {
      assert xs[i := x][1..] == xs[1..][i - 1 := x];
      TotalUpdate(rank, xs[1..], i - 1, x);
    }
  }

  lemma {:induction false} TotalPush<T>(rank: T -> nat, xs: seq<T>, x: T)
    ensures Total(rank, xs + [x]) == Total(rank, xs) + rank(x)
  {
    if xs == [] {
      assert xs + [x] == [x];
    } else {
      assert (xs + [x])[1..] == xs[1..] + [x];
      TotalPush(rank, xs[1..], x);
    }
  }

  lemma {:induction false} TotalMonotone<T>(rank: T -> nat, xs: seq<T>, ys: seq<T>)
    requires |xs| == |ys| && forall i :: 0 <= i < |xs| ==> rank(xs[i]) <= rank(ys[i])
    ensures Total(rank, xs) <= Total(rank, ys)
  {
    if xs != [] {
      TotalMonotone(rank, xs[1..], ys[1..]);
    }
  }

  lemma {:induction false} TotalZeroIff<T>(rank: T -> nat, xs: seq<T>)
    ensures Total(rank, xs) == 0 <==> forall i :: 0 <= i < |xs| ==> rank(xs[i]) == 0
  {
    if xs != [] {
      TotalZeroIff(rank, xs[1..]);
      assert forall i :: 0 < i < |xs| ==> xs[i] == xs[1..][i - 1];
      if Total(rank, xs) == 0 {
        assert forall i :: 0 <= i < |xs| ==> rank(xs[i]) == 0;
      }
    }
  }
}
