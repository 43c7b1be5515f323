/** Totals of a weight over a sequence, for conservation arguments. */
module Totals {

  function Total<T>(xs: seq<T>, f: T -> nat): nat {
    if xs == [] then 0 else Total(xs[..|xs| - 1], f) + f(xs[|xs| - 1])
  }

  function Without<T>(xs: seq<T>, i: nat): seq<T>
    requires i < |xs|
  {
    xs[..i] + xs[i + 1..]
  }

  lemma {:induction false} TotalAppend<T>(xs: seq<T>, ys: seq<T>, f: T -> nat)
    ensures Total(xs + ys, f) == Total(xs, f) + Total(ys, f)
    decreases |ys|
  {
    if ys == [] {
      assert xs + ys == xs;
    } else {
      var n := |ys| - 1;
      assert (xs + ys)[..|xs + ys| - 1] == xs + ys[..n] && (xs + ys)[|xs + ys| - 1] == ys[n];
      TotalAppend(xs, ys[..n], f);
    }
  }

  lemma TotalSnoc<T>(xs: seq<T>, x: T, f: T -> nat)
    ensures Total(xs + [x], f) == Total(xs, f) + f(x)
  {
    assert (xs + [x])[..|xs|] == xs;
  }

  lemma TotalWithout<T>(xs: seq<T>, i: nat, f: T -> nat)
    requires i < |xs|
    ensures Total(Without(xs, i), f) + f(xs[i]) == Total(xs, f)
  {
    hide Total;
    assert xs == (xs[..i] + [xs[i]]) + xs[i + 1..];
    TotalAppend(xs[..i] + [xs[i]], xs[i + 1..], f);
    TotalSnoc(xs[..i], xs[i], f);
    TotalAppend(xs[..i], xs[i + 1..], f);
  }

  lemma TotalUpdate<T>(xs: seq<T>, i: nat, y: T, f: T -> nat)
    requires i < |xs|
    ensures Total(xs[i := y], f) + f(xs[i]) == Total(xs, f) + f(y)
  {
    hide Total;
    var ys := xs[i := y];
    assert Without(ys, i) == Without(xs, i);
    TotalWithout(xs, i, f);
    TotalWithout(ys, i, f);
  }

  lemma TotalTail<T>(xs: seq<T>, f: T -> nat)
    requires xs != []
    ensures Total(xs[1..], f) + f(xs[0]) == Total(xs, f)
  {
    hide Total;
    TotalWithout(xs, 0, f);
    assert Without(xs, 0) == xs[1..];
  }

  lemma {:induction false} TotalMember<T>(xs: seq<T>, i: nat, f: T -> nat)
    requires i < |xs|
    ensures f(xs[i]) <= Total(xs, f)
    decreases |xs|
  {
    if i < |xs| - 1 {
      TotalMember(xs[..|xs| - 1], i, f);
    }
  }

  /** Two weights that agree on the elements have the same total. */
  lemma {:induction false} TotalSame<T>(xs: seq<T>, f: T -> nat, g: T -> nat)
    requires forall i | 0 <= i < |xs| :: f(xs[i]) == g(xs[i])
    ensures Total(xs, f) == Total(xs, g)
    decreases |xs|
  {
    if xs != [] {
      TotalSame(xs[..|xs| - 1], f, g);
    }
  }

  lemma {:induction false} TotalAtMost<T>(xs: seq<T>, f: T -> nat, g: T -> nat)
    requires forall i | 0 <= i < |xs| :: f(xs[i]) <= g(xs[i])
    ensures Total(xs, f) <= Total(xs, g)
    decreases |xs|
  {
    if xs != [] {
      TotalAtMost(xs[..|xs| - 1], f, g);
    }
  }

  lemma {:induction false} TotalConstant<T>(xs: seq<T>, f: T -> nat, n: nat)
    requires forall i | 0 <= i < |xs| :: f(xs[i]) == n
    ensures Total(xs, f) == n * |xs|
    decreases |xs|
  {
    if xs != [] {
      TotalConstant(xs[..|xs| - 1], f, n);
      assert n * (|xs| - 1) + n == n * |xs|;
    }
  }
}
