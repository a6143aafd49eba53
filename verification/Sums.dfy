/** Weighted sums over sequences, used to count threads and to measure remaining work. */
module Sums {

  function Sum<T>(xs: seq<T>, weight: T -> nat): (total: nat) {
    if xs == [] then 0 else weight(xs[0]) + Sum(xs[1..], weight)
  }

  lemma {:induction false} SumAppend<T>(xs: seq<T>, x: T, weight: T -> nat)
    ensures Sum(xs + [x], weight) == Sum(xs, weight) + weight(x)
  {
    if xs == [] {
      assert xs + [x] == [x];
      assert Sum([x][1..], weight) == 0;
    } else {
      assert (xs + [x])[1..] == xs[1..] + [x];
      SumAppend(xs[1..], x, weight);
    }
  }

  lemma {:induction false} SumUpdate<T>(xs: seq<T>, i: nat, x: T, weight: T -> nat)
    requires i < |xs|
    ensures Sum(xs[i := x], weight) + weight(xs[i]) == Sum(xs, weight) + weight(x)
  {
    if i == 0 {
      assert xs[0 := x][1..] == xs[1..];
    } else {
      assert xs[i := x][1..] == xs[1..][i - 1 := x];
      SumUpdate(xs[1..], i - 1, x, weight);
    }
  }

  lemma {:induction false} SumBounds<T>(xs: seq<T>, i: nat, weight: T -> nat)
    requires i < |xs|
    ensures weight(xs[i]) <= Sum(xs, weight)
  {
    if i > 0 {
      SumBounds(xs[1..], i - 1, weight);
    }
  }

  ghost predicate NoDuplicates<T>(xs: seq<T>) {
    forall i, j :: 0 <= i < j < |xs| ==> xs[i] != xs[j]
  }

  /** Distinct elements of a finite set are no more numerous than the set. */
  lemma {:induction false} DistinctFit<T>(xs: seq<T>, pool: set<T>)
    requires NoDuplicates(xs)
    requires forall x :: x in xs ==> x in pool
    ensures |xs| <= |pool|
  {
    if xs != [] {
      var n := |xs| - 1;
      forall x | x in xs[..n] ensures x in pool - {xs[n]} {
      }
      DistinctFit(xs[..n], pool - {xs[n]});
    }
  }
}
