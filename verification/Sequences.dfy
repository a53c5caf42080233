/** Order and subsequences. */
module Sequences {

  predicate Increasing(xs: seq<nat>) {
    forall i, j | 0 <= i < j < |xs| :: xs[i] < xs[j]
  }

  /** Strictly increasing and below `bound`. */
  predicate Ordered(xs: seq<nat>, bound: nat) {
    Increasing(xs) && forall i | 0 <= i < |xs| :: xs[i] < bound
  }

  lemma OrderedDrop(xs: seq<nat>, ys: seq<nat>, zs: seq<nat>, bound: nat)
    requires Ordered(xs + ys + zs, bound)
    ensures Ordered(xs + zs, bound)
  {
    var all, left := xs + ys + zs, xs + zs;
    forall i | 0 <= i < |left|
      ensures left[i] == all[if i < |xs| then i else i + |ys|]
    {
    }
  }

  lemma OrderedPush(xs: seq<nat>, bound: nat)
    requires Ordered(xs, bound)
    ensures Ordered(xs + [bound], bound + 1)
  {
  }

  // A line of four segments; each lemma is one way a tag moves along it, or off it.

  lemma IntoFirst(a: seq<nat>, b: seq<nat>, c: seq<nat>, d: seq<nat>, tag: nat, rest: seq<nat>, bound: nat)
    requires Ordered(a + b + c + d, bound) && b == [tag] + rest
    ensures Ordered(a + [tag] + rest + c + d, bound)
  {
    assert a + [tag] + rest + c + d == a + b + c + d;
  }

  lemma IntoSecond(a: seq<nat>, b: seq<nat>, c: seq<nat>, d: seq<nat>, tag: nat, rest: seq<nat>, bound: nat)
    requires Ordered(a + b + c + d, bound) && c == [tag] + rest
    ensures Ordered(a + (b + [tag]) + rest + d, bound) && Ordered(a + b + rest + d, bound)
  {
    assert a + (b + [tag]) + rest + d == a + b + c + d == (a + b) + [tag] + (rest + d);
    OrderedDrop(a + b, [tag], rest + d, bound);
    assert a + b + rest + d == (a + b) + (rest + d);
  }

  lemma IntoThird(a: seq<nat>, b: seq<nat>, c: seq<nat>, d: seq<nat>, tag: nat, rest: seq<nat>, bound: nat)
    requires Ordered(a + b + c + d, bound) && d == [tag] + rest
    ensures Ordered(a + b + (c + [tag]) + rest, bound) && Ordered(a + b + c + rest, bound)
  {
    assert a + b + (c + [tag]) + rest == a + b + c + d == (a + b + c) + [tag] + rest;
    OrderedDrop(a + b + c, [tag], rest, bound);
  }

  lemma DropTail(a: seq<nat>, keep: seq<nat>, gone: seq<nat>, b: seq<nat>, bound: nat)
    requires Ordered(a + (keep + gone) + b, bound)
    ensures Ordered(a + keep + b, bound)
  {
    assert a + (keep + gone) + b == (a + keep) + gone + b;
    OrderedDrop(a + keep, gone, b, bound);
  }

  /** `places` picks `xs` out of `ys`, from left to right. */
  ghost predicate Picks<T>(places: seq<nat>, xs: seq<T>, ys: seq<T>) {
    && |places| == |xs|
    && Ordered(places, |ys|)
    && forall i | 0 <= i < |xs| :: xs[i] == ys[places[i]]
  }

  ghost predicate Subsequence<T>(xs: seq<T>, ys: seq<T>) {
    exists places :: Picks(places, xs, ys)
  }

  function Filter<T>(xs: seq<T>, keep: T -> bool): seq<T> {
    if xs == [] then []
    else Filter(xs[..|xs| - 1], keep) + (if keep(xs[|xs| - 1]) then [xs[|xs| - 1]] else [])
  }

  lemma FilterPush<T>(xs: seq<T>, x: T, keep: T -> bool)
    ensures Filter(xs + [x], keep) == Filter(xs, keep) + (if keep(x) then [x] else [])
  {
    assert (xs + [x])[..|xs|] == xs;
  }

  lemma {:induction false} FilterConcat<T>(xs: seq<T>, ys: seq<T>, keep: T -> bool)
    ensures Filter(xs + ys, keep) == Filter(xs, keep) + Filter(ys, keep)
  {
    if ys == [] {
      assert xs + ys == xs;
    } else {
      assert (xs + ys)[..|xs + ys| - 1] == xs + ys[..|ys| - 1];
      FilterConcat(xs, ys[..|ys| - 1], keep);
    }
  }

  /** Where element `n` of `xs` lands in the filtered sequence. */
  function Landing<T>(xs: seq<T>, keep: T -> bool, n: nat): nat
    requires n <= |xs|
  {
    |Filter(xs[..n], keep)|
  }

  lemma {:induction false} Lands<T>(xs: seq<T>, keep: T -> bool, n: nat)
    requires n < |xs| && keep(xs[n])
    ensures Landing(xs, keep, n) < |Filter(xs, keep)| && Filter(xs, keep)[Landing(xs, keep, n)] == xs[n]
  {
    assert xs == xs[..n] + [xs[n]] + xs[n + 1..];
    FilterPush(xs[..n], xs[n], keep);
    FilterConcat(xs[..n] + [xs[n]], xs[n + 1..], keep);
  }

  lemma LandsInOrder<T>(xs: seq<T>, keep: T -> bool, m: nat, n: nat)
    requires m < n <= |xs| && keep(xs[m])
    ensures Landing(xs, keep, m) < Landing(xs, keep, n)
  {
    Lands(xs[..n], keep, m);
    assert xs[..n][..m] == xs[..m];
  }

  /** Picking kept elements in increasing order picks a subsequence of the kept elements. */
  lemma PickedIsSubsequence<T>(places: seq<nat>, xs: seq<T>, ys: seq<T>, keep: T -> bool)
    requires Picks(places, xs, ys) && forall i | 0 <= i < |xs| :: keep(xs[i])
    ensures Subsequence(xs, Filter(ys, keep))
  {
    var land := seq(|xs|, i requires 0 <= i < |xs| => Landing(ys, keep, places[i]));
    forall i | 0 <= i < |xs|
      ensures land[i] < |Filter(ys, keep)| && Filter(ys, keep)[land[i]] == xs[i]
    {
      Lands(ys, keep, places[i]);
    }
    forall i, j | 0 <= i < j < |xs| ensures land[i] < land[j] {
      LandsInOrder(ys, keep, places[i], places[j]);
    }
    assert Picks(land, xs, Filter(ys, keep));
  }
}
