/**
 How many debts one expense decomposes into: a fill of m rows and n columns has at
 most m + n - 1 positive cells, because each of them ends where a row or a column
 ends, no two end at the same place, and the last row and the last column end
 together.
 */
module FillCells {
  import opened Sums
  import opened Ledger
  import opened NorthWestFill
  import opened Reconciliation

  ghost function Cells(e: Expense): set<(UserId, UserId)> {
    set u, v | u in Users(e.participants) && v in Users(e.payments) && Owed(e, u, v) > 0 :: (u, v)
  }

  /** Where a cell ends on the common line. */
  ghost function CellEnd(e: Expense, c: (UserId, UserId)): (x: nat)
    ensures x == Min(End(e.participants, c.0), End(e.payments, c.1))
  {
    NoMoreThanLength(e.participants, c.0);
    NoMoreThanLength(e.payments, c.1);
    Min(End(e.participants, c.0), End(e.payments, c.1))
  }

  /** Stretches are laid out in id order without overlapping. */
  lemma {:induction false} EndsBeforeStart(ps: seq<Portion>, u: UserId, w: UserId)
    requires u < w
    ensures End(ps, u) <= Start(ps, w)
  {
    if ps != [] {
      EndsBeforeStart(ps[..|ps| - 1], u, w);
    }
  }

  lemma SameStretch(ps: seq<Portion>, u: UserId, w: UserId, x: int)
    requires Start(ps, u) < x <= End(ps, u) && Start(ps, w) < x <= End(ps, w)
    ensures u == w
  {
    if u < w {
      EndsBeforeStart(ps, u, w);
    } else if w < u {
      EndsBeforeStart(ps, w, u);
    }
  }

  lemma CellsEndApart(e: Expense, c: (UserId, UserId), d: (UserId, UserId))
    requires Owed(e, c.0, c.1) > 0 && Owed(e, d.0, d.1) > 0 && CellEnd(e, c) == CellEnd(e, d)
    ensures c == d
  {
    SameStretch(e.participants, c.0, d.0, CellEnd(e, c));
    SameStretch(e.payments, c.1, d.1, CellEnd(e, c));
  }

  lemma {:induction false} CellsFit(e: Expense, cells: set<(UserId, UserId)>, ends: set<nat>)
    requires forall c :: c in cells ==> Owed(e, c.0, c.1) > 0 && CellEnd(e, c) in ends
    ensures |cells| <= |ends|
    decreases |cells|
  {
    if cells != {} {
      var c :| c in cells;
      forall d | d in cells - {c} ensures CellEnd(e, d) in ends - {CellEnd(e, c)} {
        if CellEnd(e, d) == CellEnd(e, c) {
          CellsEndApart(e, c, d);
        }
      }
      CellsFit(e, cells - {c}, ends - {CellEnd(e, c)});
    }
  }

  /** The ends of the stretches of `ps` that belong to users of `qs`. */
  ghost function Ends(qs: seq<Portion>, ps: seq<Portion>): (ends: set<nat>)
    ensures |ends| <= |qs|
    ensures forall u :: u in Users(qs) ==> End(ps, u) >= 0 && End(ps, u) in ends
  {
    if qs == [] then {}
    else
      var u := qs[|qs| - 1].userId;
      NoMoreThanLength(ps, u);
      Ends(qs[..|qs| - 1], ps) + {End(ps, u)}
  }

  lemma {:induction false} LastUser(ps: seq<Portion>) returns (u: UserId)
    requires ps != []
    ensures u in Users(ps) && forall p :: p in ps ==> p.userId <= u
  {
    var n := |ps| - 1;
    Snoc(ps);
    if n == 0 {
      u := ps[0].userId;
    } else {
      u := LastUser(ps[..n]);
      if u < ps[n].userId {
        u := ps[n].userId;
      }
    }
  }

  lemma LengthIsEnd(ps: seq<Portion>)
    requires ps != []
    ensures Length(ps) >= 0 && Length(ps) in Ends(ps, ps)
  {
    var u := LastUser(ps);
    StartBeyond(ps, u);
    NoMoreThanLength(ps, u);
  }

  lemma OneShared(a: set<nat>, b: set<nat>, x: nat)
    requires x in a && x in b
    ensures |a + b| <= |a| + |b| - 1
  {
    assert |a + b| == |a| + |b| - |a * b|;
    assert x in a * b;
  }

  /** An accepted expense puts at most |payers| + |participants| - 1 debts on the table. */
  lemma FewCells(e: Expense)
    requires ValidExpense(e) && NonNegativeShares(e)
    ensures |Cells(e)| <= |e.payments| + |e.participants| - 1
  {
    var rows, columns := Ends(e.participants, e.participants), Ends(e.payments, e.payments);
    var u := e.payments[0].userId;
    SizeIsAt(e.payments, u);
    SizeIsAt(e.participants, u);
    PositiveTotal(e.payments);
    LengthIsEnd(e.participants);
    LengthIsEnd(e.payments);
    OneShared(rows, columns, Length(e.payments));
    CellsFit(e, Cells(e), rows + columns);
  }

  lemma {:induction false} PositiveTotal(ps: seq<Portion>)
    requires ps != [] && forall p :: p in ps ==> p.minor > 0
    ensures Total(ps) > 0
  {
    var init := ps[..|ps| - 1];
    Snoc(ps);
    assert ps[|ps| - 1] in ps;
    if init != [] {
      PositiveTotal(init);
    }
    assert Total(ps) == Total(init) + ps[|ps| - 1].minor;
  }

  /**
   The fill goes down both sides in id order: whoever owes with a larger id owes no payer
   with a smaller id than the ones before.
   */
  lemma Staircase(e: Expense, u: UserId, v: UserId, x: UserId, y: UserId)
    requires Owed(e, u, v) > 0 && Owed(e, x, y) > 0 && u < x
    ensures v <= y
  {
    EndsBeforeStart(e.participants, u, x);
    if y < v {
      EndsBeforeStart(e.payments, y, v);
    }
  }
}
