/**
 The order of the pairwise list, and the lists that the nested loops over sorted
 ids produce from a table of net debts.
 */
module PairLists {
  import opened Sorting
  import opened Ledger
  import opened NorthWestFill

  /** Order of the output: by the smaller id of the pair, then by the larger. */
  predicate PairBefore(a: Transfer, b: Transfer) {
    var aLo, aHi := Min(a.fromUserId, a.toUserId), Max(a.fromUserId, a.toUserId);
    var bLo, bHi := Min(b.fromUserId, b.toUserId), Max(b.fromUserId, b.toUserId);
    aLo < bLo || (aLo == bLo && aHi < bHi)
  }

  lemma {:induction false} SameStrictlyOrdered(xs: seq<Transfer>, ys: seq<Transfer>)
    requires forall i, j :: 0 <= i < j < |xs| ==> PairBefore(xs[i], xs[j])
    requires forall i, j :: 0 <= i < j < |ys| ==> PairBefore(ys[i], ys[j])
    requires forall t: Transfer :: t in xs <==> t in ys
    ensures xs == ys
    decreases |xs|
  {
    assert |ys| > 0 ==> ys[0] in xs;
    if xs != [] {
      assert xs[0] in ys;
      var j :| 0 <= j < |ys| && ys[j] == xs[0];
      assert ys[0] in xs;
      var i :| 0 <= i < |xs| && xs[i] == ys[0];
      assert xs[0] == ys[0];
      var xs', ys' := xs[1..], ys[1..];
      forall t: Transfer ensures t in xs' <==> t in ys' {
        TailMembers(xs, t);
        TailMembers(ys, t);
      }
      SameStrictlyOrdered(xs', ys');
      assert xs == [xs[0]] + xs' && ys == [ys[0]] + ys';
    }
  }

  lemma TailMembers(xs: seq<Transfer>, t: Transfer)
    requires xs != [] && forall i, j :: 0 <= i < j < |xs| ==> PairBefore(xs[i], xs[j])
    ensures t in xs[1..] <==> t in xs && t != xs[0]
  {
    if t in xs && t != xs[0] {
      var k :| 0 <= k < |xs| && xs[k] == t;
      assert xs[1..][k - 1] == t;
    }
    if t in xs[1..] {
      var k :| 0 <= k < |xs[1..]| && xs[1..][k] == t;
      assert xs[k + 1] == t && PairBefore(xs[0], t);
    }
  }

  /** Net debt of the first user to the second, for every pair. */
  type NetTable = (UserId, UserId) -> int

  ghost predicate Netted(net: NetTable) { forall u, v :: net(u, v) == -net(v, u) }

  /** The transfer for a pair in which `a` owes `b` a net amount, possibly negative or none. */
  function Entry(a: UserId, b: UserId, owed: int): seq<Transfer> {
    if owed > 0 then [Transfer(a, b, owed)]
    else if owed < 0 then [Transfer(b, a, -owed)]
    else []
  }

  function PairEntry(net: NetTable, a: UserId, b: UserId): seq<Transfer> { Entry(a, b, net(a, b)) }

  function Row(net: NetTable, a: UserId, ids: seq<UserId>): seq<Transfer> {
    if ids == [] then [] else PairEntry(net, a, ids[0]) + Row(net, a, ids[1..])
  }

  function PairList(net: NetTable, ids: seq<UserId>): seq<Transfer> {
    if ids == [] then [] else Row(net, ids[0], ids[1..]) + PairList(net, ids[1..])
  }

  lemma OrderedConcat(xs: seq<Transfer>, ys: seq<Transfer>)
    requires forall i, j :: 0 <= i < j < |xs| ==> PairBefore(xs[i], xs[j])
    requires forall i, j :: 0 <= i < j < |ys| ==> PairBefore(ys[i], ys[j])
    requires forall x, y :: x in xs && y in ys ==> PairBefore(x, y)
    ensures forall i, j :: 0 <= i < j < |xs + ys| ==> PairBefore((xs + ys)[i], (xs + ys)[j])
  {
    var zs := xs + ys;
    forall i, j | 0 <= i < j < |zs| ensures PairBefore(zs[i], zs[j]) {
      if i < |xs| <= j {
        assert zs[i] in xs && zs[j] == ys[j - |xs|];
        assert zs[j] in ys;
      }
    }
  }

  lemma {:induction false} RowMembers(net: NetTable, a: UserId, ids: seq<UserId>)
    requires forall b :: b in ids ==> a < b
    requires Ascending(ids)
    requires Netted(net)
    ensures forall t: Transfer :: t in Row(net, a, ids) <==>
      ((t.fromUserId == a && t.toUserId in ids) || (t.toUserId == a && t.fromUserId in ids))
      && t.amountMinor > 0 && t.amountMinor == net(t.fromUserId, t.toUserId)
    ensures forall i, j :: 0 <= i < j < |Row(net, a, ids)| ==> PairBefore(Row(net, a, ids)[i], Row(net, a, ids)[j])
  {
    if ids != [] {
      assert forall b :: b in ids <==> b == ids[0] || b in ids[1..];
      RowMembers(net, a, ids[1..]);
      var head, tail := PairEntry(net, a, ids[0]), Row(net, a, ids[1..]);
      assert forall b :: b in ids[1..] ==> ids[0] < b;
      OrderedConcat(head, tail);
    }
  }

  lemma {:induction false} PairListMembers(net: NetTable, ids: seq<UserId>)
    requires Ascending(ids)
    requires Netted(net)
    ensures forall t: Transfer :: t in PairList(net, ids) <==>
      t.fromUserId in ids && t.toUserId in ids
      && t.amountMinor > 0 && t.amountMinor == net(t.fromUserId, t.toUserId)
    ensures forall i, j :: 0 <= i < j < |PairList(net, ids)| ==>
      PairBefore(PairList(net, ids)[i], PairList(net, ids)[j])
  {
    if ids != [] {
      var head, rest := ids[0], ids[1..];
      assert forall b :: b in ids <==> b == head || b in rest;
      RowMembers(net, head, rest);
      PairListMembers(net, rest);
      OrderedConcat(Row(net, head, rest), PairList(net, rest));
    }
  }

  lemma RowStep(done: seq<Transfer>, net: NetTable, a: UserId, later: seq<UserId>, j: nat, row: seq<Transfer>)
    requires j < |later| && done + Row(net, a, later[j..]) == row
    ensures done + PairEntry(net, a, later[j]) + Row(net, a, later[j + 1..]) == row
  {
    assert later[j..][0] == later[j] && later[j..][1..] == later[j + 1..];
    var rest := Row(net, a, later[j + 1..]);
    assert done + (PairEntry(net, a, later[j]) + rest) == done + PairEntry(net, a, later[j]) + rest;
  }
}
