/**
 What the greedy plan achieves, measured against every other plan that settles
 the same balances.
 */
module SettleUp {
  import opened Sums
  import opened Sorting
  import opened Ledger
  import opened NetBalances
  import opened Simplify

  function BalanceFor(u: UserId): NetBalance -> int { (b: NetBalance) => if b.userId == u then b.netMinor else 0 }

  function BalanceOf(balances: seq<NetBalance>, u: UserId): int { Sum(balances, BalanceFor(u)) }

  /** The plan of `simplify`. */
  function Plan(balances: seq<NetBalance>): seq<Transfer> { Greedy(Debtors(balances), Creditors(balances)) }

  /** Carrying out the plan leaves every balance at zero; no transfer is negative. */
  ghost predicate Settles(plan: seq<Transfer>, balances: seq<NetBalance>) {
    && (forall t :: t in plan ==> t.amountMinor >= 0)
    && forall u :: BalanceOf(balances, u) + Flow(plan, u) == 0
  }

  // ── The plan settles ───────────────────────────────────────────────────────

  lemma {:induction false} SidesSplit(balances: seq<NetBalance>, u: UserId)
    ensures Sum(Sides(balances, 1), RemainingOf(u)) - Sum(Sides(balances, -1), RemainingOf(u)) == BalanceOf(balances, u)
    ensures Sum(Sides(balances, 1), Remaining()) - Sum(Sides(balances, -1), Remaining()) == Sum(balances, NetMinor())
  {
    if balances != [] {
      SidesSplit(balances[..|balances| - 1], u);
      SidesStep(balances, 1, u);
      SidesStep(balances, -1, u);
    }
  }

  lemma SidesStep(balances: seq<NetBalance>, sign: int, u: UserId)
    requires balances != []
    ensures var init, b := balances[..|balances| - 1], balances[|balances| - 1];
            var part := if sign * b.netMinor > 0 then sign * b.netMinor else 0;
            && Sum(Sides(balances, sign), Remaining()) == Sum(Sides(init, sign), Remaining()) + part
            && Sum(Sides(balances, sign), RemainingOf(u)) ==
               Sum(Sides(init, sign), RemainingOf(u)) + if b.userId == u then part else 0
  {
    var init, b := balances[..|balances| - 1], balances[|balances| - 1];
    if sign * b.netMinor > 0 {
      var s := Side(b.userId, sign * b.netMinor);
      SumConcat(Sides(init, sign), [s], Remaining());
      SumConcat(Sides(init, sign), [s], RemainingOf(u));
      SumOne(s, Remaining());
      SumOne(s, RemainingOf(u));
    } else {
      assert Sides(init, sign) + [] == Sides(init, sign);
    }
  }

  lemma SortedSplit(balances: seq<NetBalance>, u: UserId)
    ensures Sum(Creditors(balances), RemainingOf(u)) - Sum(Debtors(balances), RemainingOf(u)) == BalanceOf(balances, u)
    ensures Sum(Creditors(balances), Remaining()) - Sum(Debtors(balances), Remaining()) == Sum(balances, NetMinor())
  {
    SidesSplit(balances, u);
    SumPermuted(Sides(balances, 1), Creditors(balances), RemainingOf(u));
    SumPermuted(Sides(balances, -1), Debtors(balances), RemainingOf(u));
    SumPermuted(Sides(balances, 1), Creditors(balances), Remaining());
    SumPermuted(Sides(balances, -1), Debtors(balances), Remaining());
  }

  lemma PlanSettles(balances: seq<NetBalance>)
    requires Sum(balances, NetMinor()) == 0
    ensures Settles(Plan(balances), balances)
    ensures forall t :: t in Plan(balances) ==> t.amountMinor > 0
    ensures TotalMoved(Plan(balances)) == Sum(Creditors(balances), Remaining())
  {
    var ds, cs := Debtors(balances), Creditors(balances);
    SortedSidesPositive(balances);
    GreedyDirection(ds, cs);
    SortedSplit(balances, 0);
    GreedyMoves(ds, cs, 0);
    forall u: UserId ensures BalanceOf(balances, u) + Flow(Plan(balances), u) == 0 {
      SortedSplit(balances, u);
      GreedyMoves(ds, cs, u);
    }
  }

  // ── No plan moves less ─────────────────────────────────────────────────────

  function UserOf(sides: seq<Side>): seq<UserId> { seq(|sides|, i requires 0 <= i < |sides| => sides[i].userId) }

  function Inflow(ts: seq<Transfer>): UserId -> int { (u: UserId) => -Flow(ts, u) }

  /** However the receivers are chosen, they cannot together receive more than is moved. */
  lemma {:induction false} InflowAtMostMoved(ids: seq<UserId>, plan: seq<Transfer>)
    requires Distinct(ids) && forall t :: t in plan ==> t.amountMinor >= 0
    ensures Sum(ids, Inflow(plan)) <= TotalMoved(plan)
  {
    if plan == [] {
      SumZero(ids, Inflow(plan));
    } else {
      var init, last := plan[..|plan| - 1], plan[|plan| - 1];
      Snoc(plan);
      InflowAtMostMoved(ids, init);
      SumSingle(ids, last.fromUserId, PaidBy(last));
      SumSingle(ids, last.toUserId, ReceivedBy(last));
      SumLinear(ids, PaidBy(last), ReceivedBy(last), FlowOf(last));
      SumNegated(ids, FlowOf(last));
      SumLinear(ids, Inflow(init), Negated(FlowOf(last)), Inflow(plan));
    }
  }

  lemma {:induction false} SideMembers(balances: seq<NetBalance>, sign: int)
    ensures forall s :: s in Sides(balances, sign) <==>
      s.remaining > 0 && exists b :: b in balances && s == Side(b.userId, sign * b.netMinor)
  {
    if balances != [] {
      var init, b := balances[..|balances| - 1], balances[|balances| - 1];
      SideMembers(init, sign);
      Snoc(balances);
      forall s ensures s in Sides(balances, sign) <==>
        s.remaining > 0 && exists c :: c in balances && s == Side(c.userId, sign * c.netMinor)
      {
        if s.remaining > 0 && exists c :: c in balances && s == Side(c.userId, sign * c.netMinor) {
          var c :| c in balances && s == Side(c.userId, sign * c.netMinor);
          assert c in init || c == b;
        }
      }
    }
  }

  lemma {:induction false} SidesDistinct(balances: seq<NetBalance>, sign: int)
    requires Distinct(Ids(balances))
    ensures Distinct(UserOf(Sides(balances, sign)))
  {
    if balances != [] {
      var n := |balances| - 1;
      var init, b := balances[..n], balances[n];
      assert Ids(init) == Ids(balances)[..n];
      SidesDistinct(init, sign);
      SideMembers(init, sign);
      forall i | 0 <= i < |Sides(init, sign)| ensures Sides(init, sign)[i].userId != b.userId {
        var s := Sides(init, sign)[i];
        assert s in Sides(init, sign);
        var c :| c in init && s == Side(c.userId, sign * c.netMinor);
        var k :| 0 <= k < n && init[k] == c;
        assert Ids(balances)[k] != Ids(balances)[n];
      }
      var all := Sides(balances, sign);
      forall i, j | 0 <= i < j < |all| ensures UserOf(all)[i] != UserOf(all)[j] {
        if j < |Sides(init, sign)| {
          assert UserOf(Sides(init, sign))[i] != UserOf(Sides(init, sign))[j];
        }
      }
    }
  }

  function One(u: UserId): Side -> int { (s: Side) => if s.userId == u then 1 else 0 }

  lemma {:induction false} CountOne(sides: seq<Side>, u: UserId)
    ensures Distinct(UserOf(sides)) ==> Sum(sides, One(u)) <= 1
    ensures (forall i :: 0 <= i < |sides| ==> sides[i].userId != u) ==> Sum(sides, One(u)) == 0
    ensures Sum(sides, One(u)) >= 0
    ensures forall i :: 0 <= i < |sides| && sides[i].userId == u ==> Sum(sides, One(u)) >= 1
    ensures forall i, j :: 0 <= i < j < |sides| && sides[i].userId == u == sides[j].userId ==> Sum(sides, One(u)) >= 2
  {
    if sides != [] {
      var n := |sides| - 1;
      CountOne(sides[..n], u);
      assert forall i :: 0 <= i < n ==> sides[..n][i] == sides[i];
      if Distinct(UserOf(sides)) {
        assert UserOf(sides[..n]) == UserOf(sides)[..n];
        forall i | 0 <= i < n ensures sides[..n][i].userId != sides[n].userId {
          assert UserOf(sides)[i] != UserOf(sides)[n];
        }
      }
    }
  }

  lemma DistinctSorted(xs: seq<Side>, ys: seq<Side>)
    requires multiset(xs) == multiset(ys) && Distinct(UserOf(xs))
    ensures Distinct(UserOf(ys))
  {
    forall i, j | 0 <= i < j < |ys| ensures UserOf(ys)[i] != UserOf(ys)[j] {
      var u := ys[i].userId;
      SumPermuted(xs, ys, One(u));
      CountOne(xs, u);
      CountOne(ys, u);
    }
  }

  lemma {:induction false} BalanceOfEntry(balances: seq<NetBalance>, k: nat)
    requires Distinct(Ids(balances)) && k < |balances|
    ensures BalanceOf(balances, balances[k].userId) == balances[k].netMinor
  {
    var n := |balances| - 1;
    var u := balances[k].userId;
    assert Ids(balances[..n]) == Ids(balances)[..n];
    if k < n {
      BalanceOfEntry(balances[..n], k);
      assert Ids(balances)[k] != Ids(balances)[n];
    } else {
      forall b | b in balances[..n] ensures BalanceFor(u)(b) == 0 {
        var i :| 0 <= i < n && balances[i] == b;
        assert Ids(balances)[i] != Ids(balances)[n];
      }
      SumZero(balances[..n], BalanceFor(u));
    }
  }

  /** Every entry of a side belongs to one user, whose balance it is. */
  lemma SideIsBalance(balances: seq<NetBalance>, sign: int, s: Side)
    requires sign == 1 || sign == -1
    requires Distinct(Ids(balances)) && s in Sides(balances, sign)
    ensures s.remaining == sign * BalanceOf(balances, s.userId)
  {
    SideMembers(balances, sign);
    var b :| b in balances && s == Side(b.userId, sign * b.netMinor);
    var k :| 0 <= k < |balances| && balances[k] == b;
    BalanceOfEntry(balances, k);
  }

  lemma {:induction false} SumOverUsers(sides: seq<Side>, f: UserId -> int)
    requires forall i :: 0 <= i < |sides| ==> sides[i].remaining == f(sides[i].userId)
    ensures Sum(sides, Remaining()) == Sum(UserOf(sides), f)
  {
    if sides != [] {
      var n := |sides| - 1;
      assert UserOf(sides)[..n] == UserOf(sides[..n]);
      SumOverUsers(sides[..n], f);
    }
  }

  lemma CreditorFacts(balances: seq<NetBalance>)
    requires Distinct(Ids(balances))
    ensures Distinct(UserOf(Creditors(balances))) && Distinct(UserOf(Debtors(balances)))
    ensures forall i :: 0 <= i < |Creditors(balances)| ==>
      Creditors(balances)[i].remaining == BalanceOf(balances, Creditors(balances)[i].userId)
    ensures forall i :: 0 <= i < |Debtors(balances)| ==>
      Debtors(balances)[i].remaining == -BalanceOf(balances, Debtors(balances)[i].userId)
  {
    SidesDistinct(balances, 1);
    SidesDistinct(balances, -1);
    DistinctSorted(Sides(balances, 1), Creditors(balances));
    DistinctSorted(Sides(balances, -1), Debtors(balances));
    SameMembers(Sides(balances, 1), Creditors(balances));
    SameMembers(Sides(balances, -1), Debtors(balances));
    forall i | 0 <= i < |Creditors(balances)|
      ensures Creditors(balances)[i].remaining == BalanceOf(balances, Creditors(balances)[i].userId)
    {
      SideIsBalance(balances, 1, Creditors(balances)[i]);
    }
    forall i | 0 <= i < |Debtors(balances)|
      ensures Debtors(balances)[i].remaining == -BalanceOf(balances, Debtors(balances)[i].userId)
    {
      SideIsBalance(balances, -1, Debtors(balances)[i]);
    }
  }

  /** No plan that settles the balances moves less money than `simplify` does. */
  lemma NoPlanMovesLess(balances: seq<NetBalance>, plan: seq<Transfer>)
    requires Distinct(Ids(balances)) && Sum(balances, NetMinor()) == 0
    requires Settles(plan, balances)
    ensures TotalMoved(Plan(balances)) <= TotalMoved(plan)
  {
    var cs := Creditors(balances);
    PlanSettles(balances);
    CreditorFacts(balances);
    forall i | 0 <= i < |cs| ensures cs[i].remaining == Inflow(plan)(cs[i].userId) {
      assert BalanceOf(balances, cs[i].userId) + Flow(plan, cs[i].userId) == 0;
    }
    SumOverUsers(cs, Inflow(plan));
    InflowAtMostMoved(UserOf(cs), plan);
  }

  // ── No plan needs fewer than half as many transfers ────────────────────────

  function Receipts(plan: seq<Transfer>): UserId -> int { (u: UserId) => Sum(plan, ReceivesOne(u)) }

  function ReceivesOne(u: UserId): Transfer -> int { (t: Transfer) => if t.toUserId == u then 1 else 0 }

  function Payments(plan: seq<Transfer>): UserId -> int { (u: UserId) => Sum(plan, PaysOne(u)) }

  function PaysOne(u: UserId): Transfer -> int { (t: Transfer) => if t.fromUserId == u then 1 else 0 }

  function IsReceiver(t: Transfer): UserId -> int { (u: UserId) => if t.toUserId == u then 1 else 0 }

  function IsPayer(t: Transfer): UserId -> int { (u: UserId) => if t.fromUserId == u then 1 else 0 }

  function Unit(): UserId -> int { (u: UserId) => 1 }

  lemma {:induction false} TransfersCounted(ids: seq<UserId>, plan: seq<Transfer>)
    requires Distinct(ids)
    ensures Sum(ids, Receipts(plan)) <= |plan| && Sum(ids, Payments(plan)) <= |plan|
  {
    if plan == [] {
      SumZero(ids, Receipts(plan));
      SumZero(ids, Payments(plan));
    } else {
      var init, last := plan[..|plan| - 1], plan[|plan| - 1];
      TransfersCounted(ids, init);
      SumSingle(ids, last.toUserId, IsReceiver(last));
      SumSingle(ids, last.fromUserId, IsPayer(last));
      SumLinear(ids, Receipts(init), IsReceiver(last), Receipts(plan));
      SumLinear(ids, Payments(init), IsPayer(last), Payments(plan));
    }
  }

  lemma {:induction false} MoverTakesPart(plan: seq<Transfer>, u: UserId)
    requires forall t :: t in plan ==> t.amountMinor >= 0
    ensures Receipts(plan)(u) >= 0 && Payments(plan)(u) >= 0
    ensures Flow(plan, u) < 0 ==> Receipts(plan)(u) >= 1
    ensures Flow(plan, u) > 0 ==> Payments(plan)(u) >= 1
  {
    if plan != [] {
      Snoc(plan);
      MoverTakesPart(plan[..|plan| - 1], u);
    }
  }

  lemma {:induction false} SumUnit(ids: seq<UserId>)
    ensures Sum(ids, Unit()) == |ids|
  {
    if ids != [] {
      SumUnit(ids[..|ids| - 1]);
    }
  }

  lemma PlanTouchesEverySide(balances: seq<NetBalance>, plan: seq<Transfer>)
    requires Distinct(Ids(balances)) && Settles(plan, balances)
    ensures |Creditors(balances)| <= |plan| && |Debtors(balances)| <= |plan|
  {
    CreditorFacts(balances);
    SortedSidesPositive(balances);
    var cs, ds := UserOf(Creditors(balances)), UserOf(Debtors(balances));
    forall u | u in cs ensures Unit()(u) <= Receipts(plan)(u) {
      var i :| 0 <= i < |cs| && cs[i] == u;
      assert Creditors(balances)[i].remaining == BalanceOf(balances, u);
      MoverTakesPart(plan, u);
    }
    forall u | u in ds ensures Unit()(u) <= Payments(plan)(u) {
      var i :| 0 <= i < |ds| && ds[i] == u;
      assert Debtors(balances)[i].remaining == -BalanceOf(balances, u);
      MoverTakesPart(plan, u);
    }
    SumMonotone(cs, Unit(), Receipts(plan));
    SumMonotone(ds, Unit(), Payments(plan));
    SumUnit(cs);
    SumUnit(ds);
    TransfersCounted(cs, plan);
    TransfersCounted(ds, plan);
  }

  // ── How many transfers exactly ─────────────────────────────────────────────

  /** The prefix sums of a side, shifted by what has been paid already. */
  function PrefixSums(sides: seq<Side>, paid: nat): set<nat>
    requires Positive(sides)
  {
    if sides == [] then {}
    else {paid + sides[0].remaining} + PrefixSums(sides[1..], paid + sides[0].remaining)
  }

  lemma {:induction false} PrefixSumsAbove(sides: seq<Side>, paid: nat)
    requires Positive(sides)
    ensures forall x :: x in PrefixSums(sides, paid) ==> paid < x
    ensures |PrefixSums(sides, paid)| == |sides|
  {
    if sides != [] {
      PrefixSumsAbove(sides[1..], paid + sides[0].remaining);
    }
  }

  /** Paying part of the head leaves the same prefix sums; paying it off removes the least one. */
  lemma PrefixSumsAfterPaying(sides: seq<Side>, paid: nat, pay: nat)
    requires sides != [] && Positive(sides) && 0 < pay <= sides[0].remaining
    ensures Positive(AfterPaying(sides, pay))
    ensures PrefixSums(AfterPaying(sides, pay), paid + pay) ==
      PrefixSums(sides, paid) - (if sides[0].remaining == pay then {paid + pay} else {})
  {
    PayingKeepsPositive(sides, pay);
    if sides[0].remaining == pay {
      PrefixSumsAbove(sides[1..], paid + pay);
    } else {
      assert AfterPaying(sides, pay)[1..] == sides[1..];
    }
  }

  /** One end of both sides is consumed by a transfer, and it is not an end of what is left. */
  lemma UnionShrinks(a: set<nat>, b: set<nat>, a': set<nat>, b': set<nat>, end: nat)
    requires end in a || end in b
    requires a' == a - {end} && b' == b - {end}
    ensures |a + b| == 1 + |a' + b'|
  {
    assert end !in a' + b';
    assert a + b == (a' + b') + {end};
  }

  lemma PrefixSumsStep(sides: seq<Side>, paid: nat, pay: nat)
    requires sides != [] && Positive(sides) && 0 < pay <= sides[0].remaining
    ensures Positive(AfterPaying(sides, pay))
    ensures PrefixSums(AfterPaying(sides, pay), paid + pay) == PrefixSums(sides, paid) - {paid + pay}
    ensures sides[0].remaining == pay ==> paid + pay in PrefixSums(sides, paid)
  {
    var after := AfterPaying(sides, pay);
    PrefixSumsAfterPaying(sides, paid, pay);
    PrefixSumsAbove(after, paid + pay);
    assert paid + pay !in PrefixSums(after, paid + pay);
  }

  lemma GreedyCountStep(ds: seq<Side>, cs: seq<Side>, paid: nat, pay: nat, ds': seq<Side>, cs': seq<Side>)
    requires ds != [] && cs != [] && Positive(ds) && Positive(cs)
    requires pay == Pay(ds[0], cs[0]) && ds' == AfterPaying(ds, pay) && cs' == AfterPaying(cs, pay)
    requires Positive(ds') && Positive(cs')
    requires |Greedy(ds', cs')| == |PrefixSums(ds', paid + pay) + PrefixSums(cs', paid + pay)|
    ensures |Greedy(ds, cs)| == |PrefixSums(ds, paid) + PrefixSums(cs, paid)|
  {
    PrefixSumsStep(ds, paid, pay);
    PrefixSumsStep(cs, paid, pay);
    UnionShrinks(PrefixSums(ds, paid), PrefixSums(cs, paid), PrefixSums(ds', paid + pay), PrefixSums(cs', paid + pay), paid + pay);
    assert |Greedy(ds, cs)| == 1 + |Greedy(ds', cs')|;
  }

  /** Each transfer ends at one prefix sum of one of the two sides, and each of them ends one transfer. */
  lemma {:induction false} GreedyCount(ds: seq<Side>, cs: seq<Side>, paid: nat)
    requires Positive(ds) && Positive(cs)
    requires Sum(ds, Remaining()) == Sum(cs, Remaining())
    ensures |Greedy(ds, cs)| == |PrefixSums(ds, paid) + PrefixSums(cs, paid)|
    decreases |ds| + |cs|
  {
    NoSideLeft(ds);
    NoSideLeft(cs);
    if ds == [] || cs == [] {
      assert ds == [] && cs == [];
    } else {
      var pay: nat := Pay(ds[0], cs[0]);
      var ds', cs' := AfterPaying(ds, pay), AfterPaying(cs, pay);
      PayingKeepsPositive(ds, pay);
      PayingKeepsPositive(cs, pay);
      PayingReduces(ds, pay, 0);
      PayingReduces(cs, pay, 0);
      GreedyCount(ds', cs', paid + pay);
      GreedyCountStep(ds, cs, paid, pay, ds', cs');
    }
  }

  /** The number of transfers is the number of distinct prefix sums of the two sorted sides. */
  lemma PlanCount(balances: seq<NetBalance>)
    requires Sum(balances, NetMinor()) == 0
    ensures Positive(Debtors(balances)) && Positive(Creditors(balances))
    ensures |Plan(balances)| == |PrefixSums(Debtors(balances), 0) + PrefixSums(Creditors(balances), 0)|
  {
    SortedSidesPositive(balances);
    SortedSplit(balances, 0);
    GreedyCount(Debtors(balances), Creditors(balances), 0);
  }

  lemma {:induction false} TotalIsPrefixSum(sides: seq<Side>, paid: nat)
    requires sides != [] && Positive(sides)
    ensures paid + Sum(sides, Remaining()) in PrefixSums(sides, paid)
  {
    SumCons(sides, Remaining());
    if |sides| > 1 {
      TotalIsPrefixSum(sides[1..], paid + sides[0].remaining);
    }
  }

  /** How many prefix sums there are, and the total among them. */
  lemma PrefixSumsHold(sides: seq<Side>, sums: set<nat>, paid: nat, total: nat)
    requires sides != [] && Positive(sides) && sums == PrefixSums(sides, paid) && total == paid + Sum(sides, Remaining())
    ensures |sums| == |sides| && total in sums
  {
    PrefixSumsAbove(sides, paid);
    TotalIsPrefixSum(sides, paid);
  }

  lemma PrefixSumsShared(ds: seq<Side>, cs: seq<Side>, a: set<nat>, b: set<nat>, total: nat)
    requires |a| == |ds| && |b| == |cs| && total in a && total in b
    ensures |a + b| <= |ds| + |cs| - 1
  {
    UnionWithCommon(a, b, total);
  }

  /** At least one party is saved: creditors plus debtors, less one. */
  lemma PlanBound(balances: seq<NetBalance>)
    requires Sum(balances, NetMinor()) == 0
    ensures Plan(balances) != [] ==> |Plan(balances)| <= |Creditors(balances)| + |Debtors(balances)| - 1
    ensures Creditors(balances) == [] || Debtors(balances) == [] ==> Plan(balances) == []
  {
    PlanCount(balances);
    SortedSplit(balances, 0);
    if Debtors(balances) != [] && Creditors(balances) != [] {
      var ds, cs := Debtors(balances), Creditors(balances);
      var a, b := PrefixSums(ds, 0), PrefixSums(cs, 0);
      NoSideLeft(ds);
      PrefixSumsHold(ds, a, 0, Sum(ds, Remaining()));
      PrefixSumsHold(cs, b, 0, Sum(ds, Remaining()));
      PrefixSumsShared(ds, cs, a, b, Sum(ds, Remaining()));
    }
  }

  /** Less than twice as many transfers as any plan that settles the same balances. */
  lemma PlanIsShort(balances: seq<NetBalance>, plan: seq<Transfer>)
    requires Distinct(Ids(balances)) && Sum(balances, NetMinor()) == 0
    requires Settles(plan, balances)
    ensures if plan == [] then Plan(balances) == [] else |Plan(balances)| < 2 * |plan|
  {
    PlanBound(balances);
    PlanTouchesEverySide(balances, plan);
  }

  lemma UnionWithCommon(a: set<nat>, b: set<nat>, x: nat)
    requires x in a && x in b
    ensures |a + b| <= |a| + |b| - 1
  {
    assert a + b == a + (b - {x});
  }

  lemma UnionNoLarger(a: set<nat>, b: set<nat>)
    ensures |a + b| <= |a| <==> b <= a
  {
    if b <= a {
      assert a + b == a;
    } else {
      var x :| x in b && x !in a;
      assert a + b == (a + {x}) + (b - {x} - a);
    }
  }

  /**
   The bound max(creditors, debtors) of the engine's comment holds exactly for the
   balances where every prefix sum of one sorted side is a prefix sum of the other.
   */
  lemma MaxBoundIff(balances: seq<NetBalance>)
    requires Sum(balances, NetMinor()) == 0
    ensures Positive(Debtors(balances)) && Positive(Creditors(balances))
    ensures var d, c := PrefixSums(Debtors(balances), 0), PrefixSums(Creditors(balances), 0);
            (|Plan(balances)| <= |Creditors(balances)| || |Plan(balances)| <= |Debtors(balances)|) <==> (d <= c || c <= d)
  {
    PlanCount(balances);
    var d, c := PrefixSums(Debtors(balances), 0), PrefixSums(Creditors(balances), 0);
    PrefixSumsAbove(Debtors(balances), 0);
    PrefixSumsAbove(Creditors(balances), 0);
    UnionNoLarger(d, c);
    UnionNoLarger(c, d);
    assert d + c == c + d;
  }

  lemma Append(balances: seq<NetBalance>, b: NetBalance)
    ensures Sum(balances + [b], NetMinor()) == Sum(balances, NetMinor()) + b.netMinor
    ensures Sides(balances + [b], 1) == Sides(balances, 1) + if b.netMinor > 0 then [Side(b.userId, b.netMinor)] else []
    ensures Sides(balances + [b], -1) == Sides(balances, -1) + if b.netMinor < 0 then [Side(b.userId, -b.netMinor)] else []
  {
  }

  /** Credits of 3 and 3 against debts of 2, 2 and 2. */
  lemma ThreesAndTwos() returns (balances: seq<NetBalance>, ds: seq<Side>, cs: seq<Side>)
    ensures Sum(balances, NetMinor()) == 0 && Distinct(Ids(balances))
    ensures Sides(balances, 1) == cs && Sides(balances, -1) == ds
    ensures Sorted(ds, ByRemaining()) && Sorted(cs, ByRemaining())
    ensures |cs| == 2 && |ds| == 3 && |Greedy(ds, cs)| == 4
  {
    ThreesAndTwosWalk();
    ds, cs := [Side(3, 2), Side(4, 2), Side(5, 2)], [Side(1, 3), Side(2, 3)];
    balances := [];
    Append(balances, NetBalance(1, 3));
    balances := balances + [NetBalance(1, 3)];
    Append(balances, NetBalance(2, 3));
    balances := balances + [NetBalance(2, 3)];
    Append(balances, NetBalance(3, -2));
    balances := balances + [NetBalance(3, -2)];
    Append(balances, NetBalance(4, -2));
    balances := balances + [NetBalance(4, -2)];
    Append(balances, NetBalance(5, -2));
    balances := balances + [NetBalance(5, -2)];
  }

  lemma AlreadySorted(sides: seq<Side>)
    requires Sorted(sides, ByRemaining())
    ensures Sort(sides, ByRemaining()) == sides
  {
    ByRemainingAntisymmetric();
    SortedUnique(sides, Sort(sides, ByRemaining()), ByRemaining());
  }

  lemma GreedyUnfold(ds: seq<Side>, cs: seq<Side>, pay: int, ds': seq<Side>, cs': seq<Side>)
    requires ds != [] && cs != [] && pay == Pay(ds[0], cs[0])
    requires ds' == AfterPaying(ds, pay) && cs' == AfterPaying(cs, pay)
    ensures Greedy(ds, cs) == [Transfer(ds[0].userId, cs[0].userId, pay)] + Greedy(ds', cs')
  {
  }

  lemma ThreesAndTwosWalk()
    ensures Greedy([Side(3, 2), Side(4, 2), Side(5, 2)], [Side(1, 3), Side(2, 3)]) ==
      [Transfer(3, 1, 2), Transfer(4, 1, 1), Transfer(4, 2, 1), Transfer(5, 2, 2)]
  {
    GreedyUnfold([Side(3, 2), Side(4, 2), Side(5, 2)], [Side(1, 3), Side(2, 3)], 2,
                 [Side(4, 2), Side(5, 2)], [Side(1, 1), Side(2, 3)]);
    GreedyUnfold([Side(4, 2), Side(5, 2)], [Side(1, 1), Side(2, 3)], 1, [Side(4, 1), Side(5, 2)], [Side(2, 3)]);
    GreedyUnfold([Side(4, 1), Side(5, 2)], [Side(2, 3)], 1, [Side(5, 2)], [Side(2, 2)]);
    GreedyUnfold([Side(5, 2)], [Side(2, 2)], 2, [], []);
  }

  lemma PlanOf(balances: seq<NetBalance>, ds: seq<Side>, cs: seq<Side>)
    requires Sides(balances, -1) == ds && Sorted(ds, ByRemaining())
    requires Sides(balances, 1) == cs && Sorted(cs, ByRemaining())
    ensures Debtors(balances) == ds && Creditors(balances) == cs && Plan(balances) == Greedy(ds, cs)
  {
    AlreadySorted(ds);
    AlreadySorted(cs);
  }

  /** Two creditors of 3 against three debtors of 2 take four transfers, more than either side has users. */
  lemma MaxBoundFails() returns (balances: seq<NetBalance>)
    ensures Sum(balances, NetMinor()) == 0 && Distinct(Ids(balances))
    ensures |Creditors(balances)| == 2 && |Debtors(balances)| == 3 && |Plan(balances)| == 4
  {
    var ds, cs;
    balances, ds, cs := ThreesAndTwos();
    PlanOf(balances, ds, cs);
  }
}
