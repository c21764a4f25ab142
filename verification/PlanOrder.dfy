/**
 The order of the settle-up plan, said of the balances alone: whoever owes most pays
 first, whoever is owed most is paid first, and among equal ones the smaller id.
 */
module PlanOrder {
  import opened Sums
  import opened Sorting
  import opened Ledger
  import opened NetBalances
  import opened Simplify
  import opened SettleUp

  /** `u` stands in the list no later than `v`. */
  ghost predicate NoLater(ids: seq<UserId>, u: UserId, v: UserId) {
    exists a, b :: 0 <= a <= b < |ids| && ids[a] == u && ids[b] == v
  }

  /** The users are visited in the order in which they stand. */
  ghost predicate Visits(ids: seq<UserId>, us: seq<UserId>) {
    forall i, j :: 0 <= i < j < |us| ==> NoLater(ids, us[i], us[j])
  }

  lemma StoodBefore(ids: seq<UserId>, left: seq<UserId>, u: UserId, v: UserId)
    requires ids != [] && (left == ids || left == ids[1..]) && NoLater(left, u, v)
    ensures NoLater(ids, u, v)
  {
    var a, b :| 0 <= a <= b < |left| && left[a] == u && left[b] == v;
    var shift := |ids| - |left|;
    assert ids[a + shift] == u && ids[b + shift] == v;
  }

  lemma HeadStandsFirst(ids: seq<UserId>, v: UserId)
    requires ids != [] && v in ids
    ensures NoLater(ids, ids[0], v)
  {
    var b :| 0 <= b < |ids| && ids[b] == v;
    assert 0 <= 0 <= b;
  }

  /** A visit of the head, then of what is left. */
  lemma VisitsCons(ids: seq<UserId>, left: seq<UserId>, us: seq<UserId>)
    requires ids != [] && (left == ids || left == ids[1..]) && Visits(left, us) && forall u :: u in us ==> u in ids
    ensures Visits(ids, [ids[0]] + us)
  {
    forall i, j | 0 <= i < j < |us| + 1 ensures NoLater(ids, ([ids[0]] + us)[i], ([ids[0]] + us)[j]) {
      if i == 0 {
        assert us[j - 1] in us;
        HeadStandsFirst(ids, us[j - 1]);
      } else {
        StoodBefore(ids, left, us[i - 1], us[j - 1]);
      }
    }
  }

  function Froms(plan: seq<Transfer>): seq<UserId> { seq(|plan|, i requires 0 <= i < |plan| => plan[i].fromUserId) }

  function Tos(plan: seq<Transfer>): seq<UserId> { seq(|plan|, i requires 0 <= i < |plan| => plan[i].toUserId) }

  lemma LeftAfterPaying(sides: seq<Side>, pay: int)
    requires sides != []
    ensures UserOf(sides) != [] && UserOf(sides)[0] == sides[0].userId
    ensures UserOf(AfterPaying(sides, pay)) == UserOf(sides) || UserOf(AfterPaying(sides, pay)) == UserOf(sides)[1..]
  {
  }

  lemma IdsAreUsers(sides: seq<Side>)
    ensures forall u :: u in SideIds(sides) <==> u in UserOf(sides)
  {
    forall u | u in SideIds(sides) ensures u in UserOf(sides) {
      var s :| s in sides && s.userId == u;
      var i :| 0 <= i < |sides| && sides[i] == s;
      assert UserOf(sides)[i] == u;
    }
    forall i | 0 <= i < |sides| ensures UserOf(sides)[i] in SideIds(sides) {
      assert sides[i] in sides;
    }
  }

  /** A plan within the sides visits only users who stand there. */
  lemma WithinSides(ds: seq<Side>, cs: seq<Side>, plan: seq<Transfer>)
    requires forall t :: t in plan ==> t.fromUserId in SideIds(ds) && t.toUserId in SideIds(cs)
    ensures (forall u :: u in Froms(plan) ==> u in UserOf(ds)) && forall u :: u in Tos(plan) ==> u in UserOf(cs)
  {
    IdsAreUsers(ds);
    IdsAreUsers(cs);
    forall i | 0 <= i < |plan| ensures Froms(plan)[i] in UserOf(ds) && Tos(plan)[i] in UserOf(cs) {
      assert plan[i] in plan;
    }
  }

  lemma UsersCons(t: Transfer, rest: seq<Transfer>)
    ensures Froms([t] + rest) == [t.fromUserId] + Froms(rest) && Tos([t] + rest) == [t.toUserId] + Tos(rest)
  {
  }

  lemma PlanCons(ds: seq<Side>, cs: seq<Side>, pay: int, rest: seq<Transfer>)
    requires ds != [] && cs != []
    requires forall t :: t in rest ==> t.fromUserId in SideIds(ds) && t.toUserId in SideIds(cs)
    requires Visits(UserOf(AfterPaying(ds, pay)), Froms(rest)) && Visits(UserOf(AfterPaying(cs, pay)), Tos(rest))
    ensures var plan := [Transfer(ds[0].userId, cs[0].userId, pay)] + rest;
            Visits(UserOf(ds), Froms(plan)) && Visits(UserOf(cs), Tos(plan))
  {
    WithinSides(ds, cs, rest);
    LeftAfterPaying(ds, pay);
    LeftAfterPaying(cs, pay);
    VisitsCons(UserOf(ds), UserOf(AfterPaying(ds, pay)), Froms(rest));
    VisitsCons(UserOf(cs), UserOf(AfterPaying(cs, pay)), Tos(rest));
    UsersCons(Transfer(ds[0].userId, cs[0].userId, pay), rest);
  }

  /** The walk goes through debtors and creditors in their order. */
  lemma {:induction false} GreedyInOrder(ds: seq<Side>, cs: seq<Side>)
    requires Positive(ds) && Positive(cs)
    ensures Visits(UserOf(ds), Froms(Greedy(ds, cs))) && Visits(UserOf(cs), Tos(Greedy(ds, cs)))
    decreases |ds| + |cs|
  {
    if ds != [] && cs != [] {
      var pay := Pay(ds[0], cs[0]);
      var ds', cs' := AfterPaying(ds, pay), AfterPaying(cs, pay);
      PayingKeepsPositive(ds, pay);
      PayingKeepsPositive(cs, pay);
      GreedyInOrder(ds', cs');
      GreedyDirection(ds', cs');
      PayingKeepsIds(ds, pay);
      PayingKeepsIds(cs, pay);
      GreedyUnfold(ds, cs, pay, ds', cs');
      PlanCons(ds, cs, pay, Greedy(ds', cs'));
    }
  }

  ghost predicate DistinctBalances(balances: seq<NetBalance>) {
    forall i, j :: 0 <= i < j < |balances| ==> balances[i].userId != balances[j].userId
  }

  lemma {:induction false} BalanceIsEntry(balances: seq<NetBalance>, k: nat)
    requires DistinctBalances(balances) && k < |balances|
    ensures BalanceOf(balances, balances[k].userId) == balances[k].netMinor
  {
    var n := |balances| - 1;
    if k < n {
      BalanceIsEntry(balances[..n], k);
    } else {
      NoEntry(balances[..n], balances[n].userId);
    }
  }

  lemma {:induction false} NoEntry(balances: seq<NetBalance>, u: UserId)
    requires forall i :: 0 <= i < |balances| ==> balances[i].userId != u
    ensures BalanceOf(balances, u) == 0
  {
    if balances != [] {
      NoEntry(balances[..|balances| - 1], u);
    }
  }

  lemma {:induction false} SideOf(balances: seq<NetBalance>, sign: int, s: Side) returns (k: nat)
    requires s in Sides(balances, sign)
    ensures k < |balances| && balances[k].userId == s.userId && sign * balances[k].netMinor == s.remaining
  {
    var n := |balances| - 1;
    if s in Sides(balances[..n], sign) {
      k := SideOf(balances[..n], sign, s);
    } else {
      k := n;
    }
  }

  lemma SortedSide(balances: seq<NetBalance>, sign: int, sides: seq<Side>, a: nat)
    requires DistinctBalances(balances) && (sign == 1 || sign == -1)
    requires multiset(sides) == multiset(Sides(balances, sign)) && a < |sides|
    ensures sides[a].remaining == sign * BalanceOf(balances, sides[a].userId)
  {
    SameMembers(sides, Sides(balances, sign));
    assert sides[a] in sides;
    var k := SideOf(balances, sign, sides[a]);
    BalanceIsEntry(balances, k);
  }

  lemma SortedOrder(balances: seq<NetBalance>, sign: int, sides: seq<Side>, u: UserId, v: UserId)
    requires DistinctBalances(balances) && (sign == 1 || sign == -1)
    requires multiset(sides) == multiset(Sides(balances, sign)) && Sorted(sides, ByRemaining()) && NoLater(UserOf(sides), u, v)
    ensures sign * BalanceOf(balances, u) > sign * BalanceOf(balances, v)
            || (BalanceOf(balances, u) == BalanceOf(balances, v) && u <= v)
  {
    var a, b :| 0 <= a <= b < |UserOf(sides)| && UserOf(sides)[a] == u && UserOf(sides)[b] == v;
    SortedSide(balances, sign, sides, a);
    SortedSide(balances, sign, sides, b);
    assert a < b ==> ByRemaining()(sides[a], sides[b]);
  }

  /** The payers of a plan by falling debt, the receivers by falling credit, equal ones by ascending id. */
  ghost predicate LargestFirst(balances: seq<NetBalance>, p: Transfer, q: Transfer) {
    && (-BalanceOf(balances, p.fromUserId) > -BalanceOf(balances, q.fromUserId)
        || (BalanceOf(balances, p.fromUserId) == BalanceOf(balances, q.fromUserId) && p.fromUserId <= q.fromUserId))
    && (BalanceOf(balances, p.toUserId) > BalanceOf(balances, q.toUserId)
        || (BalanceOf(balances, p.toUserId) == BalanceOf(balances, q.toUserId) && p.toUserId <= q.toUserId))
  }

  lemma VisitedInOrder(balances: seq<NetBalance>, ds: seq<Side>, cs: seq<Side>, plan: seq<Transfer>, i: nat, j: nat)
    requires DistinctBalances(balances) && i < j < |plan|
    requires multiset(ds) == multiset(Sides(balances, -1)) && Sorted(ds, ByRemaining()) && Visits(UserOf(ds), Froms(plan))
    requires multiset(cs) == multiset(Sides(balances, 1)) && Sorted(cs, ByRemaining()) && Visits(UserOf(cs), Tos(plan))
    ensures LargestFirst(balances, plan[i], plan[j])
  {
    assert Froms(plan)[i] == plan[i].fromUserId && Froms(plan)[j] == plan[j].fromUserId;
    assert Tos(plan)[i] == plan[i].toUserId && Tos(plan)[j] == plan[j].toUserId;
    SortedOrder(balances, -1, ds, plan[i].fromUserId, plan[j].fromUserId);
    SortedOrder(balances, 1, cs, plan[i].toUserId, plan[j].toUserId);
  }

  /**
   The plan starts with the largest amounts: along it the payers' debts never rise and
   the receivers' credits never rise, and among equal ones the ids ascend.
   */
  lemma PlanInOrder(balances: seq<NetBalance>, i: nat, j: nat)
    requires DistinctBalances(balances) && i < j < |Plan(balances)|
    ensures LargestFirst(balances, Plan(balances)[i], Plan(balances)[j])
  {
    SortedSidesPositive(balances);
    GreedyInOrder(Debtors(balances), Creditors(balances));
    VisitedInOrder(balances, Debtors(balances), Creditors(balances), Plan(balances), i, j);
  }
}
