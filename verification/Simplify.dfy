/**
 `simplify`: the greedy settle-up that pairs the largest debtor with the largest
 creditor.  It is compared with every possible plan that settles the same
 balances: no plan moves less money, and none needs fewer than half as many
 transfers.  The exact number of transfers is the number of distinct prefix sums
 of the two sorted sides, which decides when the documented bound holds.
 */
module Simplify {
  import opened Sums
  import opened Sorting
  import opened Ledger
  import opened NetBalances

  /** A debtor or a creditor with what they still have to pay or receive. */
  datatype Side = Side(userId: UserId, remaining: int)

  /** Largest remaining first, ties by id. */
  function ByRemaining(): (Side, Side) -> bool {
    (a: Side, b: Side) => a.remaining > b.remaining || (a.remaining == b.remaining && a.userId <= b.userId)
  }

  lemma ByRemainingAntisymmetric()
    ensures Antisymmetric(ByRemaining())
  {
    forall a: Side, b: Side | ByRemaining()(a, b) && ByRemaining()(b, a) ensures a == b {
      assert a == Side(a.userId, a.remaining) && b == Side(b.userId, b.remaining);
    }
  }

  /** The users whose net has the given sign, with its magnitude. */
  function Sides(balances: seq<NetBalance>, sign: int): seq<Side> {
    if balances == [] then []
    else
      var b := balances[|balances| - 1];
      Sides(balances[..|balances| - 1], sign) +
      if sign * b.netMinor > 0 then [Side(b.userId, sign * b.netMinor)] else []
  }

  function Creditors(balances: seq<NetBalance>): seq<Side> { Sort(Sides(balances, 1), ByRemaining()) }

  function Debtors(balances: seq<NetBalance>): seq<Side> { Sort(Sides(balances, -1), ByRemaining()) }

  ghost predicate Positive(sides: seq<Side>) { forall i :: 0 <= i < |sides| ==> sides[i].remaining > 0 }

  function Pay(d: Side, c: Side): int { if d.remaining < c.remaining then d.remaining else c.remaining }

  function AfterPaying(sides: seq<Side>, pay: int): seq<Side>
    requires sides != []
  {
    if sides[0].remaining == pay then sides[1..]
    else [Side(sides[0].userId, sides[0].remaining - pay)] + sides[1..]
  }

  /** The two-pointer walk, on what is left of both sides. */
  function Greedy(debtors: seq<Side>, creditors: seq<Side>): seq<Transfer>
    decreases |debtors| + |creditors|
  {
    if debtors == [] || creditors == [] then []
    else
      var d, c := debtors[0], creditors[0];
      var pay := Pay(d, c);
      [Transfer(d.userId, c.userId, pay)] + Greedy(AfterPaying(debtors, pay), AfterPaying(creditors, pay))
  }

  lemma {:induction false} SidesArePositive(balances: seq<NetBalance>, sign: int)
    ensures Positive(Sides(balances, sign))
  {
    if balances != [] {
      SidesArePositive(balances[..|balances| - 1], sign);
    }
  }

  lemma PositivePermuted(xs: seq<Side>, ys: seq<Side>)
    requires Positive(xs) && multiset(xs) == multiset(ys)
    ensures Positive(ys)
  {
    SameMembers(xs, ys);
    forall i | 0 <= i < |ys| ensures ys[i].remaining > 0 {
      assert ys[i] in xs;
    }
  }

  lemma SortedSidesPositive(balances: seq<NetBalance>)
    ensures Positive(Creditors(balances)) && Positive(Debtors(balances))
  {
    SidesArePositive(balances, 1);
    SidesArePositive(balances, -1);
    PositivePermuted(Sides(balances, 1), Creditors(balances));
    PositivePermuted(Sides(balances, -1), Debtors(balances));
  }

  // ── The two pointers ───────────────────────────────────────────────────────

  function Reduce(sides: seq<Side>, i: nat, pay: int): seq<Side>
    requires i < |sides|
  {
    sides[i := Side(sides[i].userId, sides[i].remaining - pay)]
  }

  function Advance(sides: seq<Side>, i: nat): nat
    requires i < |sides|
  {
    if sides[i].remaining == 0 then i + 1 else i
  }

  /** Reducing the entry under the pointer, and stepping over it once it is settled. */
  lemma PointerStep(sides: seq<Side>, i: nat, pay: int)
    requires i < |sides| && 0 < pay <= sides[i].remaining && Positive(sides[i..])
    ensures var reduced := Reduce(sides, i, pay);
            reduced[Advance(reduced, i)..] == AfterPaying(sides[i..], pay)
    ensures Positive(AfterPaying(sides[i..], pay))
  {
    var reduced := Reduce(sides, i, pay);
    assert reduced[i + 1..] == sides[i..][1..];
    assert reduced[i..] == [reduced[i]] + reduced[i + 1..];
    PayingKeepsPositive(sides[i..], pay);
  }

  lemma GreedyStep(done: seq<Transfer>, ds: seq<Side>, cs: seq<Side>)
    requires ds != [] && cs != []
    ensures var pay := Pay(ds[0], cs[0]);
            done + Greedy(ds, cs) ==
            done + [Transfer(ds[0].userId, cs[0].userId, pay)] + Greedy(AfterPaying(ds, pay), AfterPaying(cs, pay))
  {
  }

  lemma PayBounds(ds: seq<Side>, cs: seq<Side>, i: nat, j: nat)
    requires i < |ds| && j < |cs| && Positive(ds[i..]) && Positive(cs[j..])
    ensures ds[i..][0] == ds[i] && cs[j..][0] == cs[j]
    ensures 0 < Pay(ds[i], cs[j]) <= ds[i].remaining && Pay(ds[i], cs[j]) <= cs[j].remaining
  {
    assert ds[i..][0] == ds[i] && cs[j..][0] == cs[j];
  }

  method Walk(allDebtors: seq<Side>, allCreditors: seq<Side>) returns (transfers: seq<Transfer>)
    requires Positive(allDebtors) && Positive(allCreditors)
    ensures transfers == Greedy(allDebtors, allCreditors)
  {
    var debtors, creditors := allDebtors, allCreditors;
    transfers := [];
    var i, j := 0, 0;
    ghost var ds, cs := debtors, creditors;
    while i < |debtors| && j < |creditors|
      invariant 0 <= i <= |debtors| && 0 <= j <= |creditors|
      invariant ds == debtors[i..] && cs == creditors[j..]
      invariant Positive(ds) && Positive(cs)
      invariant transfers + Greedy(ds, cs) == Greedy(allDebtors, allCreditors)
      decreases |debtors| - i + |creditors| - j
    {
      var d, c := debtors[i], creditors[j];
      var pay := if d.remaining < c.remaining then d.remaining else c.remaining;
      PayBounds(debtors, creditors, i, j);
      GreedyStep(transfers, ds, cs);
      PointerStep(debtors, i, pay);
      PointerStep(creditors, j, pay);
      ds, cs := AfterPaying(ds, pay), AfterPaying(cs, pay);
      if pay > 0 {
        transfers := transfers + [Transfer(d.userId, c.userId, pay)];
      }
      debtors := Reduce(debtors, i, pay);
      creditors := Reduce(creditors, j, pay);
      i := Advance(debtors, i);
      j := Advance(creditors, j);
    }
  }

  /** The engine's `simplify`. */
  method SimplifyDebts(balances: seq<NetBalance>) returns (transfers: seq<Transfer>)
    ensures transfers == Greedy(Debtors(balances), Creditors(balances))
  {
    SortedSidesPositive(balances);
    var creditors := Sort(Sides(balances, 1), ByRemaining());
    var debtors := Sort(Sides(balances, -1), ByRemaining());
    transfers := Walk(debtors, creditors);
  }

  lemma PayingKeepsPositive(sides: seq<Side>, pay: int)
    requires sides != [] && Positive(sides) && 0 < pay <= sides[0].remaining
    ensures Positive(AfterPaying(sides, pay))
  {
  }

  // ── What the walk moves ────────────────────────────────────────────────────

  function Remaining(): Side -> int { (s: Side) => s.remaining }

  function RemainingOf(u: UserId): Side -> int { (s: Side) => if s.userId == u then s.remaining else 0 }

  function Moved(): Transfer -> int { (t: Transfer) => t.amountMinor }

  function TotalMoved(ts: seq<Transfer>): int { Sum(ts, Moved()) }

  lemma PayingReduces(sides: seq<Side>, pay: int, u: UserId)
    requires sides != []
    ensures Sum(AfterPaying(sides, pay), Remaining()) == Sum(sides, Remaining()) - pay
    ensures Sum(AfterPaying(sides, pay), RemainingOf(u)) ==
      Sum(sides, RemainingOf(u)) - (if sides[0].userId == u then pay else 0)
  {
    SumCons(sides, Remaining());
    SumCons(sides, RemainingOf(u));
    if sides[0].remaining != pay {
      SumCons(AfterPaying(sides, pay), Remaining());
      SumCons(AfterPaying(sides, pay), RemainingOf(u));
      assert AfterPaying(sides, pay)[1..] == sides[1..];
    }
  }

  lemma {:induction false} NoSideLeft(sides: seq<Side>)
    requires Positive(sides)
    ensures Sum(sides, Remaining()) >= 0
    ensures Sum(sides, Remaining()) == 0 ==> sides == []
  {
    if sides != [] {
      NoSideLeft(sides[..|sides| - 1]);
    }
  }

  /** With equal sides, every debtor pays and every creditor receives exactly their part. */
  lemma {:induction false} GreedyMoves(ds: seq<Side>, cs: seq<Side>, u: UserId)
    requires Positive(ds) && Positive(cs)
    requires Sum(ds, Remaining()) == Sum(cs, Remaining())
    ensures Flow(Greedy(ds, cs), u) == Sum(ds, RemainingOf(u)) - Sum(cs, RemainingOf(u))
    ensures TotalMoved(Greedy(ds, cs)) == Sum(ds, Remaining())
    decreases |ds| + |cs|
  {
    NoSideLeft(ds);
    NoSideLeft(cs);
    if ds != [] && cs != [] {
      var pay := Pay(ds[0], cs[0]);
      PayingKeepsPositive(ds, pay);
      PayingKeepsPositive(cs, pay);
      PayingReduces(ds, pay, u);
      PayingReduces(cs, pay, u);
      var rest := Greedy(AfterPaying(ds, pay), AfterPaying(cs, pay));
      GreedyMoves(AfterPaying(ds, pay), AfterPaying(cs, pay), u);
      var first := Transfer(ds[0].userId, cs[0].userId, pay);
      SumConcat([first], rest, TransferNet(u));
      SumConcat([first], rest, Moved());
      SumOne(first, TransferNet(u));
      SumOne(first, Moved());
    }
  }

  function SideIds(sides: seq<Side>): set<UserId> { set s | s in sides :: s.userId }

  /** Transfers are strictly positive and run from a debtor to a creditor. */
  lemma {:induction false} GreedyDirection(ds: seq<Side>, cs: seq<Side>)
    requires Positive(ds) && Positive(cs)
    ensures forall t :: t in Greedy(ds, cs) ==>
      t.amountMinor > 0 && t.fromUserId in SideIds(ds) && t.toUserId in SideIds(cs)
    decreases |ds| + |cs|
  {
    if ds != [] && cs != [] {
      var pay := Pay(ds[0], cs[0]);
      PayingKeepsPositive(ds, pay);
      PayingKeepsPositive(cs, pay);
      PayingKeepsIds(ds, pay);
      PayingKeepsIds(cs, pay);
      GreedyDirection(AfterPaying(ds, pay), AfterPaying(cs, pay));
    }
  }

  lemma PayingKeepsIds(sides: seq<Side>, pay: int)
    requires sides != []
    ensures SideIds(AfterPaying(sides, pay)) <= SideIds(sides)
  {
    forall u | u in SideIds(AfterPaying(sides, pay)) ensures u in SideIds(sides) {
      var s :| s in AfterPaying(sides, pay) && s.userId == u;
      assert sides[0] in sides && forall x :: x in sides[1..] ==> x in sides;
    }
  }
}
