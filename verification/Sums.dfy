/**
 Sums over sequences, the arithmetic every accumulator of the balance engine
 reduces to.  `Sum(xs, f)` peels elements off the end, so a loop that walks a
 sequence from the front meets it one prefix at a time.
 */
module Sums {

  function Sum<T>(xs: seq<T>, f: T -> int): int {
    if xs == [] then 0 else Sum(xs[..|xs| - 1], f) + f(xs[|xs| - 1])
  }

  lemma Snoc<T>(xs: seq<T>)
    requires xs != []
    ensures xs == xs[..|xs| - 1] + [xs[|xs| - 1]]
    ensures forall x :: x in xs <==> x in xs[..|xs| - 1] || x == xs[|xs| - 1]
  {
  }

  lemma SumOne<T>(x: T, f: T -> int)
    ensures Sum([x], f) == f(x)
  {
  }

  lemma SumAppend<T>(xs: seq<T>, x: T, f: T -> int)
    ensures Sum(xs + [x], f) == Sum(xs, f) + f(x)
  {
  }

  lemma SumTwo<T>(x: T, y: T, f: T -> int)
    ensures Sum([x, y], f) == f(x) + f(y)
  {
    SumOne(x, f);
    SumAppend([x], y, f);
    assert [x] + [y] == [x, y];
  }

  lemma SumPrefixStep<T>(xs: seq<T>, f: T -> int, i: nat)
    requires i < |xs|
    ensures Sum(xs[..i + 1], f) == Sum(xs[..i], f) + f(xs[i])
  {
    assert xs[..i + 1][..i] == xs[..i];
  }

  lemma {:induction false} SumConcat<T>(xs: seq<T>, ys: seq<T>, f: T -> int)
    ensures Sum(xs + ys, f) == Sum(xs, f) + Sum(ys, f)
  {
    if ys == [] {
      assert xs + ys == xs;
    } else {
      var n := |ys| - 1;
      SumConcat(xs, ys[..n], f);
      assert (xs + ys)[..|xs + ys| - 1] == xs + ys[..n];
    }
  }

  lemma SumCons<T>(xs: seq<T>, f: T -> int)
    requires xs != []
    ensures Sum(xs, f) == f(xs[0]) + Sum(xs[1..], f)
  {
    SumConcat([xs[0]], xs[1..], f);
    assert [xs[0]] + xs[1..] == xs;
    SumOne(xs[0], f);
  }

  lemma {:induction false} SumCongruent<T>(xs: seq<T>, f: T -> int, g: T -> int)
    requires forall x :: x in xs ==> f(x) == g(x)
    ensures Sum(xs, f) == Sum(xs, g)
  {
    if xs != [] {
      SumCongruent(xs[..|xs| - 1], f, g);
    }
  }

  lemma {:induction false} SumLinear<T>(xs: seq<T>, f: T -> int, g: T -> int, h: T -> int)
    requires forall x :: x in xs ==> h(x) == f(x) + g(x)
    ensures Sum(xs, h) == Sum(xs, f) + Sum(xs, g)
  {
    if xs != [] {
      SumLinear(xs[..|xs| - 1], f, g, h);
    }
  }

  lemma {:induction false} SumZero<T>(xs: seq<T>, f: T -> int)
    requires forall x :: x in xs ==> f(x) == 0
    ensures Sum(xs, f) == 0
  {
    if xs != [] {
      SumZero(xs[..|xs| - 1], f);
    }
  }

  lemma {:induction false} SumMonotone<T>(xs: seq<T>, f: T -> int, g: T -> int)
    requires forall x :: x in xs ==> f(x) <= g(x)
    ensures Sum(xs, f) <= Sum(xs, g)
  {
    if xs != [] {
      SumMonotone(xs[..|xs| - 1], f, g);
    }
  }

  /** A sum over distinct keys in which at most one key has a non-zero term. */
  lemma {:induction false} SumSingle<T>(xs: seq<T>, key: T, f: T -> int)
    requires forall i, j :: 0 <= i < j < |xs| ==> xs[i] != xs[j]
    requires forall x :: x in xs && x != key ==> f(x) == 0
    ensures Sum(xs, f) == if key in xs then f(key) else 0
  {
    if xs != [] {
      var n := |xs| - 1;
      var init := xs[..n];
      assert xs == init + [xs[n]];
      SumSingle(init, key, f);
      if xs[n] == key {
        assert key !in init;
      }
    }
  }

  /** Sums do not depend on the order of their terms. */
  lemma {:induction false} SumPermuted<T>(xs: seq<T>, ys: seq<T>, f: T -> int)
    requires multiset(xs) == multiset(ys)
    ensures Sum(xs, f) == Sum(ys, f)
    decreases |xs|
  {
    assert |multiset(xs)| == |xs| && |multiset(ys)| == |ys|;
    if xs != [] {
      var n := |xs| - 1;
      var last := xs[n];
      assert last in multiset(ys);
      var k :| 0 <= k < |ys| && ys[k] == last;
      var rest := ys[..k] + ys[k + 1..];
      assert xs == xs[..n] + [last];
      assert ys == ys[..k] + [last] + ys[k + 1..];
      assert multiset(xs[..n]) == multiset(xs) - multiset{last};
      assert multiset(rest) == multiset(ys) - multiset{last};
      SumPermuted(xs[..n], rest, f);
      SumConcat(ys[..k], ys[k + 1..], f);
      SumConcat(ys[..k] + [last], ys[k + 1..], f);
      SumConcat(ys[..k], [last], f);
      SumOne(last, f);
    }
  }
}
