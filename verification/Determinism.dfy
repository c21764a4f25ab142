/**
 Nothing the engine returns depends on the order in which the database hands it
 rows: of balances, of expenses and the rows inside them, of settlements, or of
 members.
 */
module Determinism {
  import opened Wrappers
  import opened Sums
  import opened Sorting
  import opened Ledger
  import opened NetBalances
  import opened Simplify
  import opened SettleUp
  import opened NorthWestFill
  import opened PairLists
  import opened PairwiseDebts

  function IsSide(sign: int, s: Side): NetBalance -> int {
    (b: NetBalance) => if sign * b.netMinor > 0 && s == Side(b.userId, sign * b.netMinor) then 1 else 0
  }

  lemma {:induction false} SideCount(balances: seq<NetBalance>, sign: int, s: Side)
    ensures multiset(Sides(balances, sign))[s] == Sum(balances, IsSide(sign, s))
  {
    if balances != [] {
      SideCount(balances[..|balances| - 1], sign, s);
    }
  }

  lemma SidesPermuted(xs: seq<NetBalance>, ys: seq<NetBalance>, sign: int)
    requires multiset(xs) == multiset(ys)
    ensures multiset(Sides(xs, sign)) == multiset(Sides(ys, sign))
  {
    forall s: Side ensures multiset(Sides(xs, sign))[s] == multiset(Sides(ys, sign))[s] {
      SideCount(xs, sign, s);
      SideCount(ys, sign, s);
      SumPermuted(xs, ys, IsSide(sign, s));
    }
  }

  /** `simplify` returns the identical list for any reordering of its input. */
  lemma SimplifyIgnoresOrder(xs: seq<NetBalance>, ys: seq<NetBalance>)
    requires multiset(xs) == multiset(ys)
    ensures Plan(xs) == Plan(ys)
  {
    ByRemainingAntisymmetric();
    SidesPermuted(xs, ys, 1);
    SidesPermuted(xs, ys, -1);
    SortedUnique(Creditors(xs), Creditors(ys), ByRemaining());
    SortedUnique(Debtors(xs), Debtors(ys), ByRemaining());
  }

  // ── Books that differ in row order only ────────────────────────────────────

  ghost predicate SameRows(d: Expense, e: Expense) {
    && d.amountMinor == e.amountMinor
    && multiset(d.payments) == multiset(e.payments)
    && multiset(d.participants) == multiset(e.participants)
  }

  /** `c` reorders the expenses of `b`, then the rows inside each of them, and the settlements. */
  ghost predicate Reordered(b: Book, middle: seq<Expense>, c: Book) {
    && multiset(b.expenses) == multiset(middle)
    && |middle| == |c.expenses|
    && (forall i :: 0 <= i < |middle| ==> SameRows(middle[i], c.expenses[i]))
    && multiset(b.settlements) == multiset(c.settlements)
  }

  lemma SameRowsSameDebts(d: Expense, e: Expense)
    requires SameRows(d, e)
    ensures forall u, v :: Owed(d, u, v) == Owed(e, u, v)
    ensures forall u :: ExpenseNet(u)(d) == ExpenseNet(u)(e)
    ensures ValidExpense(d) <==> ValidExpense(e)
  {
    LayoutPermuted(d.participants, e.participants);
    LayoutPermuted(d.payments, e.payments);
    forall u ensures ExpenseNet(u)(d) == ExpenseNet(u)(e) {
      SumPermuted(d.payments, e.payments, MinorOf(u));
      SumPermuted(d.participants, e.participants, MinorOf(u));
    }
    SumPermuted(d.payments, e.payments, Minor());
    SumPermuted(d.participants, e.participants, Minor());
    SameMembers(d.payments, e.payments);
    if DistinctUsers(d.payments) {
      DistinctPermuted(d.payments, e.payments);
    }
    if DistinctUsers(e.payments) {
      DistinctPermuted(e.payments, d.payments);
    }
  }

  lemma {:induction false} RowwiseSum(ds: seq<Expense>, es: seq<Expense>, f: Expense -> int)
    requires |ds| == |es| && forall i :: 0 <= i < |ds| ==> f(ds[i]) == f(es[i])
    ensures Sum(ds, f) == Sum(es, f)
  {
    if ds != [] {
      RowwiseSum(ds[..|ds| - 1], es[..|es| - 1], f);
    }
  }

  lemma ReorderedDebts(b: Book, middle: seq<Expense>, c: Book, u: UserId, v: UserId)
    requires Reordered(b, middle, c)
    ensures Gross(b, u, v) == Gross(c, u, v)
    ensures Net(b, u) == Net(c, u)
  {
    forall i | 0 <= i < |middle| ensures Owed(middle[i], u, v) == Owed(c.expenses[i], u, v)
    {
      SameRowsSameDebts(middle[i], c.expenses[i]);
    }
    forall i | 0 <= i < |middle| ensures ExpenseNet(u)(middle[i]) == ExpenseNet(u)(c.expenses[i])
    {
      SameRowsSameDebts(middle[i], c.expenses[i]);
    }
    SumPermuted(b.expenses, middle, OwedBetween(u, v));
    SumPermuted(b.expenses, middle, ExpenseNet(u));
    RowwiseSum(middle, c.expenses, OwedBetween(u, v));
    RowwiseSum(middle, c.expenses, ExpenseNet(u));
    SumPermuted(b.settlements, c.settlements, CreditBetween(u, v));
    SumPermuted(b.settlements, c.settlements, TransferNet(u));
  }

  /** `computePairwiseDebts` returns the identical list for any reordering of the book. */
  lemma PairwiseIgnoresOrder(b: Book, middle: seq<Expense>, c: Book, xs: seq<Transfer>, ys: seq<Transfer>)
    requires Reordered(b, middle, c)
    requires IsPairwise(b, xs) && IsPairwise(c, ys)
    ensures xs == ys
  {
    forall u, v ensures NetDebt(b, u, v) == NetDebt(c, u, v) {
      ReorderedDebts(b, middle, c, u, v);
      ReorderedDebts(b, middle, c, v, u);
    }
    PairwiseUnique(b, xs, ys);
  }

  /** Acceptance does not depend on the order of the rows either. */
  lemma AcceptanceIgnoresOrder(b: Book, middle: seq<Expense>, c: Book)
    requires Reordered(b, middle, c)
    ensures BookFault(b) == None <==> BookFault(c) == None
  {
    FaultlessIffValid(b);
    FaultlessIffValid(c);
    SameMembers(b.expenses, middle);
    SameMembers(b.settlements, c.settlements);
    forall i | 0 <= i < |middle| ensures ValidExpense(middle[i]) <==> ValidExpense(c.expenses[i]) {
      SameRowsSameDebts(middle[i], c.expenses[i]);
    }
    assert (forall e :: e in middle ==> ValidExpense(e)) <==> (forall i :: 0 <= i < |middle| ==> ValidExpense(middle[i]));
    assert (forall e :: e in c.expenses ==> ValidExpense(e)) <==>
      (forall i :: 0 <= i < |c.expenses| ==> ValidExpense(c.expenses[i]));
  }
}
