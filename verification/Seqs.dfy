/** Sequence operations shared by the models: a flat map that grows at the end
    (the shape of the source's accumulating loops), filters and distinctness. */
module Seqs {
  ghost predicate Distinct<T>(xs: seq<T>) {
    forall i, j :: 0 <= i < j < |xs| ==> xs[i] != xs[j]
  }

  function Count(b: bool): nat {
    if b then 1 else 0
  }

  function FlatMap<T, R>(xs: seq<T>, f: T -> seq<R>): seq<R> {
    if xs == [] then [] else FlatMap(xs[..|xs| - 1], f) + f(xs[|xs| - 1])
  }

  lemma FlatMapStep<T, R>(xs: seq<T>, i: nat, f: T -> seq<R>)
    requires i < |xs|
    ensures FlatMap(xs[..i + 1], f) == FlatMap(xs[..i], f) + f(xs[i])
  {
    assert xs[..i + 1][..i] == xs[..i];
  }

  lemma {:induction false} InFlatMap<T, R>(xs: seq<T>, f: T -> seq<R>, y: R)
    ensures y in FlatMap(xs, f) <==> exists i :: 0 <= i < |xs| && y in f(xs[i])
  {
    if xs == [] {
    } else {
      var n := |xs| - 1;
      InFlatMap(xs[..n], f, y);
      if i :| 0 <= i < |xs| && y in f(xs[i]) {
        if i < n { assert xs[..n][i] == xs[i]; }
      }
    }
  }

  lemma {:induction false} FlatMapAppend<T, R>(xs: seq<T>, ys: seq<T>, f: T -> seq<R>)
    ensures FlatMap(xs + ys, f) == FlatMap(xs, f) + FlatMap(ys, f)
  {
    if ys == [] {
      assert xs + ys == xs;
    } else {
      var n := |ys| - 1;
      assert (xs + ys)[..|xs + ys| - 1] == xs + ys[..n];
      FlatMapAppend(xs, ys[..n], f);
    }
  }

  function Filter<T>(xs: seq<T>, p: T -> bool): seq<T> {
    if xs == [] then []
    else
      var n := |xs| - 1;
      Filter(xs[..n], p) + (if p(xs[n]) then [xs[n]] else [])
  }

  lemma {:induction false} InFilter<T>(xs: seq<T>, p: T -> bool, y: T)
    ensures y in Filter(xs, p) <==> y in xs && p(y)
  {
    if xs == [] {
    } else {
      var n := |xs| - 1;
      assert xs == xs[..n] + [xs[n]];
      InFilter(xs[..n], p, y);
    }
  }

  function RemoveFirst<T(==)>(xs: seq<T>, x: T): seq<T> {
    if xs == [] then []
    else if xs[0] == x then xs[1..]
    else [xs[0]] + RemoveFirst(xs[1..], x)
  }

  lemma {:induction false} RemoveFirstShorter<T>(xs: seq<T>, x: T)
    requires x in xs
    ensures |RemoveFirst(xs, x)| == |xs| - 1
  {
    if xs[0] == x {
    } else {
      RemoveFirstShorter(xs[1..], x);
    }
  }

  // Removing takes out the first occurrence and keeps the rest in order.
  lemma {:induction false} RemoveFirstCuts<T>(xs: seq<T>, x: T) returns (k: nat)
    requires x in xs
    ensures k < |xs| && xs[k] == x && x !in xs[..k] && RemoveFirst(xs, x) == xs[..k] + xs[k + 1..]
  {
    if xs[0] == x {
      k := 0;
    } else {
      var j := RemoveFirstCuts(xs[1..], x);
      k := j + 1;
      assert xs[..k] == [xs[0]] + xs[1..][..j] && xs[k + 1..] == xs[1..][j + 1..];
    }
  }
}
