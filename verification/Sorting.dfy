/**
 Sorting with a comparator, as `Array.prototype.sort` does it: a stable sorted
 rearrangement.  `SortedUnique` is the fact behind every determinism result:
 under an antisymmetric order a multiset has one sorted arrangement only.
 */
module Sorting {

  ghost predicate TotalOrder<T(!new)>(le: (T, T) -> bool) {
    && (forall a, b :: le(a, b) || le(b, a))
    && (forall a, b, c :: le(a, b) && le(b, c) ==> le(a, c))
  }

  ghost predicate Antisymmetric<T(!new)>(le: (T, T) -> bool) {
    forall a, b :: le(a, b) && le(b, a) ==> a == b
  }

  ghost predicate Sorted<T(!new)>(xs: seq<T>, le: (T, T) -> bool) {
    forall i, j :: 0 <= i < j < |xs| ==> le(xs[i], xs[j])
  }

  /** Insert after every element that is not greater. */
  function Insert<T(!new)>(xs: seq<T>, x: T, le: (T, T) -> bool): (r: seq<T>)
    requires TotalOrder(le) && Sorted(xs, le)
    ensures Sorted(r, le)
    ensures multiset(r) == multiset(xs) + multiset{x}
  {
    if xs == [] then [x]
    else
      var n := |xs| - 1;
      assert xs == xs[..n] + [xs[n]];
      if le(xs[n], x) then xs + [x]
      else
        var init := Insert(xs[..n], x, le);
        InsertBelow(init, xs[..n], x, xs[n], le);
        init + [xs[n]]
  }

  lemma InsertBelow<T(!new)>(init: seq<T>, xs: seq<T>, x: T, top: T, le: (T, T) -> bool)
    requires multiset(init) == multiset(xs) + multiset{x}
    requires le(x, top) && forall y :: y in xs ==> le(y, top)
    ensures forall i :: 0 <= i < |init| ==> le(init[i], top)
  {
    forall i | 0 <= i < |init| ensures le(init[i], top) {
      assert init[i] in multiset(init);
      assert init[i] == x || init[i] in multiset(xs);
    }
  }

  function Sort<T(!new)>(xs: seq<T>, le: (T, T) -> bool): (r: seq<T>)
    requires TotalOrder(le)
    ensures Sorted(r, le)
    ensures multiset(r) == multiset(xs)
    ensures |r| == |xs|
  {
    if xs == [] then []
    else
      var n := |xs| - 1;
      assert xs == xs[..n] + [xs[n]];
      var r := Insert(Sort(xs[..n], le), xs[n], le);
      assert |multiset(r)| == |r| && |multiset(xs)| == |xs|;
      r
  }

  lemma SameMembers<T>(xs: seq<T>, ys: seq<T>)
    requires multiset(xs) == multiset(ys)
    ensures forall x :: x in xs <==> x in ys
    ensures |xs| == |ys|
  {
    assert forall x :: x in xs <==> x in multiset(xs);
    assert forall x :: x in ys <==> x in multiset(ys);
    assert |multiset(xs)| == |xs| && |multiset(ys)| == |ys|;
  }

  lemma LastDominates<T(!new)>(xs: seq<T>, y: T, le: (T, T) -> bool)
    requires xs != [] && Sorted(xs, le) && y in xs
    ensures y == xs[|xs| - 1] || le(y, xs[|xs| - 1])
  {
  }

  lemma DropLast<T>(xs: seq<T>)
    requires xs != []
    ensures multiset(xs[..|xs| - 1]) == multiset(xs) - multiset{xs[|xs| - 1]}
  {
    assert xs == xs[..|xs| - 1] + [xs[|xs| - 1]];
  }

  lemma SortedInit<T(!new)>(xs: seq<T>, le: (T, T) -> bool)
    requires xs != [] && Sorted(xs, le)
    ensures Sorted(xs[..|xs| - 1], le)
  {
  }

  lemma SameLast<T(!new)>(xs: seq<T>, ys: seq<T>, le: (T, T) -> bool)
    requires Antisymmetric(le) && Sorted(xs, le) && Sorted(ys, le)
    requires xs != [] && multiset(xs) == multiset(ys)
    ensures |xs| == |ys| && xs[|xs| - 1] == ys[|ys| - 1]
  {
    SameMembers(xs, ys);
    LastDominates(xs, ys[|ys| - 1], le);
    LastDominates(ys, xs[|xs| - 1], le);
  }

  lemma SameInit<T(!new)>(xs: seq<T>, ys: seq<T>)
    requires |xs| == |ys| && xs != [] && multiset(xs) == multiset(ys) && xs[|xs| - 1] == ys[|ys| - 1]
    ensures multiset(xs[..|xs| - 1]) == multiset(ys[..|ys| - 1])
  {
    DropLast(xs);
    DropLast(ys);
  }

  lemma InitAndLast<T>(xs: seq<T>, ys: seq<T>)
    requires |xs| == |ys| && xs != [] && xs[..|xs| - 1] == ys[..|ys| - 1] && xs[|xs| - 1] == ys[|ys| - 1]
    ensures xs == ys
  {
    assert xs == xs[..|xs| - 1] + [xs[|xs| - 1]];
    assert ys == ys[..|ys| - 1] + [ys[|ys| - 1]];
  }

  lemma {:induction false} SortedUnique<T(!new)>(xs: seq<T>, ys: seq<T>, le: (T, T) -> bool)
    requires Antisymmetric(le)
    requires Sorted(xs, le) && Sorted(ys, le)
    requires multiset(xs) == multiset(ys)
    ensures xs == ys
    decreases |xs|
  {
    SameMembers(xs, ys);
    if xs != [] {
      SameLast(xs, ys, le);
      SameInit(xs, ys);
      SortedInit(xs, le);
      SortedInit(ys, le);
      SortedUnique(xs[..|xs| - 1], ys[..|ys| - 1], le);
      InitAndLast(xs, ys);
    }
  }

  // ── Ascending id lists: `[...ids].sort()` over a set of ids ────────────────

  ghost predicate Ascending(ids: seq<nat>) {
    forall i, j :: 0 <= i < j < |ids| ==> ids[i] < ids[j]
  }

  function InsertId(ids: seq<nat>, x: nat): (r: seq<nat>)
    requires Ascending(ids) && x !in ids
    ensures Ascending(r)
    ensures forall y :: y in r <==> y in ids || y == x
  {
    if ids == [] || ids[|ids| - 1] < x then ids + [x]
    else
      var n := |ids| - 1;
      assert ids == ids[..n] + [ids[n]];
      var init := InsertId(ids[..n], x);
      assert forall y :: y in init ==> y < ids[n];
      assert forall i :: 0 <= i < |init| ==> init[i] in init;
      init + [ids[n]]
  }

  method SortIds(ids: set<nat>) returns (r: seq<nat>)
    ensures Ascending(r)
    ensures forall y :: y in r <==> y in ids
  {
    r := [];
    var rest := ids;
    while rest != {}
      invariant Ascending(r)
      invariant rest <= ids && forall y :: y in r <==> y in ids && y !in rest
      decreases rest
    {
      var x :| x in rest;
      r := InsertId(r, x);
      rest := rest - {x};
    }
  }
}
