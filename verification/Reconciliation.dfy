/**
 The pairwise view reconciles to the aggregate one.

 Per expense, the fill consumes both margins exactly: a participant owes their
 share and a payer is owed their contribution.  Summed over a book, what the
 pairwise list makes a user pay, less what it makes them receive, is the negation
 of the net that `computeNetBalances` reports for them.
 */
module Reconciliation {
  import opened Sums
  import opened Sorting
  import opened Ledger
  import opened NorthWestFill
  import opened PairLists
  import opened PairwiseDebts
  import NetBalances

  // ── Stretches tile the line ────────────────────────────────────────────────

  function OverlapWith(ps: seq<Portion>, lo: int, hi: int): UserId -> int {
    (v: UserId) => Overlap(lo, hi, Start(ps, v), End(ps, v))
  }

  lemma {:induction false} NextStart(ps: seq<Portion>, u: UserId, bound: UserId)
    requires u < bound && forall w :: w in Users(ps) ==> w <= u || bound <= w
    ensures Start(ps, bound) == End(ps, u)
  {
    if ps != [] {
      assert Users(ps) == Users(ps[..|ps| - 1]) + {ps[|ps| - 1].userId};
      NextStart(ps[..|ps| - 1], u, bound);
    }
  }

  lemma {:induction false} StartOfLeast(ps: seq<Portion>, bound: UserId)
    requires forall w :: w in Users(ps) ==> bound <= w
    ensures Start(ps, bound) == 0
  {
    if ps != [] {
      assert Users(ps) == Users(ps[..|ps| - 1]) + {ps[|ps| - 1].userId};
      StartOfLeast(ps[..|ps| - 1], bound);
    }
  }

  /** The ids are the users of `ps` below the bound, ascending. */
  ghost predicate IdsBelow(ids: seq<UserId>, bound: UserId, ps: seq<Portion>) {
    && Ascending(ids)
    && (forall u :: u in ids ==> u < bound)
    && forall w :: w in Users(ps) && w < bound ==> w in ids
  }

  lemma DropLastId(ids: seq<UserId>, bound: UserId, ps: seq<Portion>)
    requires ids != [] && IdsBelow(ids, bound, ps)
    ensures var last := ids[|ids| - 1];
            last < bound && IdsBelow(ids[..|ids| - 1], last, ps) && forall w :: w in Users(ps) ==> w <= last || bound <= w
  {
    var init, last := ids[..|ids| - 1], ids[|ids| - 1];
    Snoc(ids);
    assert last in ids;
    assert forall i :: 0 <= i < |init| ==> init[i] < last;
    forall w | w in Users(ps) && w < bound ensures w <= last && (w < last ==> w in init) {
      assert w in ids;
    }
  }

  lemma OverlapExtends(lo: int, hi: int, x: int, y: int)
    requires 0 <= lo <= hi && 0 <= x <= y
    ensures Overlap(lo, hi, 0, x) + Overlap(lo, hi, x, y) == Overlap(lo, hi, 0, y)
  {
  }

  lemma {:induction false} StretchesTile(ids: seq<UserId>, bound: UserId, ps: seq<Portion>, lo: int, hi: int)
    requires IdsBelow(ids, bound, ps) && 0 <= lo <= hi
    ensures Sum(ids, OverlapWith(ps, lo, hi)) == Overlap(lo, hi, 0, Start(ps, bound))
  {
    if ids == [] {
      StartOfLeast(ps, bound);
    } else {
      var last := ids[|ids| - 1];
      DropLastId(ids, bound, ps);
      StretchesTile(ids[..|ids| - 1], last, ps, lo, hi);
      NextStart(ps, last, bound);
      NoMoreThanLength(ps, last);
      OverlapExtends(lo, hi, Start(ps, last), End(ps, last));
    }
  }

  lemma {:induction false} AllBelow(ps: seq<Portion>, bound: UserId)
    requires forall w :: w in Users(ps) ==> w < bound
    ensures Start(ps, bound) == Length(ps)
  {
    if ps != [] {
      assert Users(ps) == Users(ps[..|ps| - 1]) + {ps[|ps| - 1].userId};
      AllBelow(ps[..|ps| - 1], bound);
    }
  }

  ghost predicate Covering(ids: seq<UserId>, bound: UserId, users: set<UserId>) {
    && Ascending(ids)
    && (forall u :: u in ids ==> u < bound)
    && forall u :: u in users ==> u in ids
  }

  lemma OverlapOfAll(ids: seq<UserId>, bound: UserId, ps: seq<Portion>, lo: int, hi: int)
    requires Covering(ids, bound, Users(ps)) && 0 <= lo <= hi
    ensures Sum(ids, OverlapWith(ps, lo, hi)) == Overlap(lo, hi, 0, Length(ps))
  {
    StretchesTile(ids, bound, ps, lo, hi);
    AllBelow(ps, bound);
  }

  // ── Both margins of one expense ────────────────────────────────────────────

  function OwedFrom(e: Expense, u: UserId): UserId -> int { (v: UserId) => Owed(e, u, v) }

  function OwedTo(e: Expense, v: UserId): UserId -> int { (u: UserId) => Owed(e, u, v) }

  lemma {:induction false} SizeIsAt(ps: seq<Portion>, u: UserId)
    requires forall p :: p in ps ==> p.minor >= 0
    ensures Size(ps, u) == At(ps, u) && Length(ps) == Total(ps)
  {
    if ps != [] {
      Snoc(ps);
      SizeIsAt(ps[..|ps| - 1], u);
    }
  }

  lemma OverlapCommutes(lo: int, hi: int, a: int, b: int)
    ensures Overlap(lo, hi, a, b) == Overlap(a, b, lo, hi)
  {
  }

  /** Row and column sums of the fill, whatever the signs of the shares. */
  lemma Margins(ids: seq<UserId>, bound: UserId, e: Expense, u: UserId)
    requires Covering(ids, bound, Users(e.payments) + Users(e.participants))
    ensures Sum(ids, OwedFrom(e, u)) == Overlap(Start(e.participants, u), End(e.participants, u), 0, Length(e.payments))
    ensures Sum(ids, OwedTo(e, u)) == Overlap(Start(e.payments, u), End(e.payments, u), 0, Length(e.participants))
  {
    NoMoreThanLength(e.participants, u);
    NoMoreThanLength(e.payments, u);
    OverlapOfAll(ids, bound, e.payments, Start(e.participants, u), End(e.participants, u));
    SumCongruent(ids, OwedFrom(e, u), OverlapWith(e.payments, Start(e.participants, u), End(e.participants, u)));
    OverlapOfAll(ids, bound, e.participants, Start(e.payments, u), End(e.payments, u));
    forall v ensures Owed(e, v, u) == Overlap(Start(e.payments, u), End(e.payments, u), Start(e.participants, v), End(e.participants, v)) {
      OverlapCommutes(Start(e.participants, v), End(e.participants, v), Start(e.payments, u), End(e.payments, u));
    }
    SumCongruent(ids, OwedTo(e, u), OverlapWith(e.participants, Start(e.payments, u), End(e.payments, u)));
  }

  /** Every participant owes exactly their share, every payer is owed exactly their contribution. */
  lemma MarginsConsumed(ids: seq<UserId>, bound: UserId, e: Expense, u: UserId)
    requires Covering(ids, bound, Users(e.payments) + Users(e.participants))
    requires ValidExpense(e) && NonNegativeShares(e)
    ensures Sum(ids, OwedFrom(e, u)) == At(e.participants, u)
    ensures Sum(ids, OwedTo(e, u)) == At(e.payments, u)
  {
    Margins(ids, bound, e, u);
    SizeIsAt(e.participants, u);
    SizeIsAt(e.payments, u);
    NoMoreThanLength(e.participants, u);
    NoMoreThanLength(e.payments, u);
  }

  // ── Reconciliation of a book ───────────────────────────────────────────────

  function OwedNet(es: seq<Expense>, u: UserId): UserId -> int {
    (v: UserId) => Sum(es, OwedBetween(u, v)) - Sum(es, OwedBetween(v, u))
  }

  function OwedNetOf(e: Expense, u: UserId): UserId -> int { (v: UserId) => Owed(e, u, v) - Owed(e, v, u) }

  lemma ExpenseReconciles(ids: seq<UserId>, bound: UserId, e: Expense, u: UserId)
    requires Covering(ids, bound, Users(e.payments) + Users(e.participants))
    requires ValidExpense(e) && NonNegativeShares(e)
    ensures Sum(ids, OwedNetOf(e, u)) == -ExpenseNet(u)(e)
  {
    MarginsConsumed(ids, bound, e, u);
    NetBalances.SumNegated(ids, OwedTo(e, u));
    SumLinear(ids, OwedFrom(e, u), NetBalances.Negated(OwedTo(e, u)), OwedNetOf(e, u));
  }

  lemma {:induction false} ExpensesReconcile(ids: seq<UserId>, bound: UserId, es: seq<Expense>, u: UserId)
    requires Covering(ids, bound, ExpenseParties(es))
    requires forall e :: e in es ==> ValidExpense(e) && NonNegativeShares(e)
    ensures Sum(ids, OwedNet(es, u)) == -Sum(es, ExpenseNet(u))
  {
    if es == [] {
      SumZero(ids, OwedNet(es, u));
    } else {
      var init, last := es[..|es| - 1], es[|es| - 1];
      Snoc(es);
      ExpensesReconcile(ids, bound, init, u);
      ExpenseReconciles(ids, bound, last, u);
      SumLinear(ids, OwedNet(init, u), OwedNetOf(last, u), OwedNet(es, u));
    }
  }

  function CreditNet(ts: seq<Transfer>, u: UserId): UserId -> int {
    (v: UserId) => Sum(ts, CreditBetween(u, v)) - Sum(ts, CreditBetween(v, u))
  }

  function ReceivedFrom(t: Transfer, u: UserId): UserId -> int {
    (v: UserId) => if t.toUserId == u && t.fromUserId == v then t.amountMinor else 0
  }

  function SentTo(t: Transfer, u: UserId): UserId -> int {
    (v: UserId) => if t.toUserId == v && t.fromUserId == u then -t.amountMinor else 0
  }

  function CreditNetOf(t: Transfer, u: UserId): UserId -> int {
    (v: UserId) => CreditBetween(u, v)(t) - CreditBetween(v, u)(t)
  }

  lemma {:induction false} CreditsReconcile(ids: seq<UserId>, ts: seq<Transfer>, u: UserId)
    requires Ascending(ids) && forall w :: w in TransferParties(ts) ==> w in ids
    ensures Sum(ids, CreditNet(ts, u)) == -Flow(ts, u)
  {
    if ts == [] {
      SumZero(ids, CreditNet(ts, u));
    } else {
      var init, last := ts[..|ts| - 1], ts[|ts| - 1];
      CreditsReconcile(ids, init, u);
      SumSingle(ids, last.fromUserId, ReceivedFrom(last, u));
      SumSingle(ids, last.toUserId, SentTo(last, u));
      SumLinear(ids, ReceivedFrom(last, u), SentTo(last, u), CreditNetOf(last, u));
      SumLinear(ids, CreditNet(init, u), CreditNetOf(last, u), CreditNet(ts, u));
    }
  }

  function NetFrom(net: NetTable, u: UserId): UserId -> int { (v: UserId) => net(u, v) }

  lemma NetDebtsReconcile(ids: seq<UserId>, bound: UserId, book: Book, u: UserId)
    requires Covering(ids, bound, Parties(book)) && ValidBook(book)
    requires forall e :: e in book.expenses ==> NonNegativeShares(e)
    ensures Sum(ids, NetFrom(NetsOf(book), u)) == -Net(book, u)
  {
    ExpensesReconcile(ids, bound, book.expenses, u);
    CreditsReconcile(ids, book.settlements, u);
    SumLinear(ids, OwedNet(book.expenses, u), CreditNet(book.settlements, u), NetFrom(NetsOf(book), u));
  }

  // ── From the net table to the printed list ─────────────────────────────────

  lemma {:induction false} RowFlow(net: NetTable, a: UserId, ids: seq<UserId>, u: UserId)
    requires Netted(net) && Ascending(ids) && forall b :: b in ids ==> a < b
    ensures Flow(Row(net, a, ids), u) ==
      if u == a then Sum(ids, NetFrom(net, a)) else if u in ids then net(u, a) else 0
  {
    if ids != [] {
      var b, rest := ids[0], ids[1..];
      assert forall c :: c in ids <==> c == b || c in rest;
      assert b in ids && forall c :: c in rest ==> b < c;
      RowFlow(net, a, rest, u);
      SumConcat(PairEntry(net, a, b), Row(net, a, rest), TransferNet(u));
      SumCons(ids, NetFrom(net, a));
      EntryFlow(net, a, b, u);
    }
  }

  lemma EntryFlow(net: NetTable, a: UserId, b: UserId, u: UserId)
    requires Netted(net) && a != b
    ensures Flow(PairEntry(net, a, b), u) == if u == a then net(a, b) else if u == b then net(b, a) else 0
  {
    if net(a, b) > 0 {
      SumOne(Transfer(a, b, net(a, b)), TransferNet(u));
    } else if net(a, b) < 0 {
      SumOne(Transfer(b, a, -net(a, b)), TransferNet(u));
    }
  }

  lemma {:induction false} ListFlow(net: NetTable, ids: seq<UserId>, u: UserId)
    requires Netted(net) && Ascending(ids)
    ensures Flow(PairList(net, ids), u) == if u in ids then Sum(ids, NetFrom(net, u)) else 0
  {
    if ids != [] {
      var a, rest := ids[0], ids[1..];
      assert forall c :: c in ids <==> c == a || c in rest;
      assert forall c :: c in rest ==> a < c;
      RowFlow(net, a, rest, u);
      ListFlow(net, rest, u);
      SumConcat(Row(net, a, rest), PairList(net, rest), TransferNet(u));
      SumCons(ids, NetFrom(net, u));
    }
  }

  /** An ascending list of all parties, with one extra user and a bound above them. */
  lemma {:induction false} EnumerateUsers(users: set<UserId>) returns (ids: seq<UserId>, bound: UserId)
    ensures Covering(ids, bound, users)
    ensures forall u :: u in ids ==> u in users
  {
    if users == {} {
      ids, bound := [], 0;
    } else {
      var x :| x in users;
      ids, bound := EnumerateUsers(users - {x});
      ids := InsertId(ids, x);
      bound := bound + x + 1;
    }
  }

  /**
   Parity: the pairwise list pays out of every user exactly what their aggregate
   net says they owe, and into them what it says they are owed.
   */
  lemma PairwiseReconciles(book: Book, list: seq<Transfer>, u: UserId)
    requires ValidBook(book) && IsPairwise(book, list)
    requires forall e :: e in book.expenses ==> NonNegativeShares(e)
    ensures Flow(list, u) == -Net(book, u)
  {
    var ids, bound := EnumerateUsers(Parties(book) + {u});
    assert Covering(ids, bound, Parties(book));
    forall v: UserId, w: UserId ensures NetDebt(book, v, w) != 0 ==> v in ids && w in ids {
      DebtsBetweenParties(book, v, w);
    }
    PairListIsPairwise(book, NetsOf(book), ids);
    PairwiseUnique(book, list, PairList(NetsOf(book), ids));
    ListFlow(NetsOf(book), ids, u);
    NetDebtsReconcile(ids, bound, book, u);
  }

  // ── Where reconciliation stops: negative shares ────────────────────────────

  /** The pairwise list of a book holding `e` alone reconciles for every user. */
  ghost predicate ReconcilesAlone(e: Expense) {
    forall list, u :: IsPairwise(Book([e], []), list) ==> Flow(list, u) == -Net(Book([e], []), u)
  }

  lemma {:induction false} StrangerAt(ps: seq<Portion>, u: UserId)
    requires forall p :: p in ps ==> p.userId != u
    ensures At(ps, u) == 0 == Size(ps, u)
  {
    if ps != [] {
      Snoc(ps);
      StrangerAt(ps[..|ps| - 1], u);
    }
  }

  lemma {:induction false} DistinctAt(ps: seq<Portion>, k: nat)
    requires DistinctUsers(ps) && k < |ps|
    ensures At(ps, ps[k].userId) == ps[k].minor && Size(ps, ps[k].userId) == Max(0, ps[k].minor)
  {
    var n := |ps| - 1;
    if k < n {
      DistinctAt(ps[..n], k);
    } else {
      StrangerAt(ps[..n], ps[k].userId);
    }
  }

  lemma {:induction false} LengthAtLeastTotal(ps: seq<Portion>)
    ensures Length(ps) >= Total(ps)
  {
    if ps != [] {
      LengthAtLeastTotal(ps[..|ps| - 1]);
    }
  }

  lemma AloneDebts(e: Expense, u: UserId, v: UserId)
    ensures NetDebt(Book([e], []), u, v) == Owed(e, u, v) - Owed(e, v, u)
  {
    SumOne(e, OwedBetween(u, v));
    SumOne(e, OwedBetween(v, u));
  }

  lemma AloneParties(e: Expense)
    ensures Parties(Book([e], [])) == Users(e.payments) + Users(e.participants)
  {
    assert [e][..0] == [];
    assert ExpenseParties([e]) == ExpenseParties([e][..0]) + Users(e.payments) + Users(e.participants);
  }

  /** The list of a single expense and what it moves for `u`, whatever the signs of the shares. */
  lemma AloneList(e: Expense, u: UserId) returns (list: seq<Transfer>)
    ensures IsPairwise(Book([e], []), list)
    ensures Flow(list, u) ==
      Overlap(Start(e.participants, u), End(e.participants, u), 0, Length(e.payments))
      - Overlap(Start(e.payments, u), End(e.payments, u), 0, Length(e.participants))
  {
    var book := Book([e], []);
    var ids, bound := EnumerateUsers(Parties(book) + {u});
    forall v: UserId, w: UserId ensures NetDebt(book, v, w) != 0 ==> v in ids && w in ids {
      DebtsBetweenParties(book, v, w);
    }
    list := PairList(NetsOf(book), ids);
    PairListIsPairwise(book, NetsOf(book), ids);
    ListFlow(NetsOf(book), ids, u);
    AloneParties(e);
    forall v: UserId ensures NetFrom(NetsOf(book), u)(v) == OwedNetOf(e, u)(v) {
      AloneDebts(e, u, v);
    }
    SumCongruent(ids, NetFrom(NetsOf(book), u), OwedNetOf(e, u));
    NetBalances.SumNegated(ids, OwedTo(e, u));
    SumLinear(ids, OwedFrom(e, u), NetBalances.Negated(OwedTo(e, u)), OwedNetOf(e, u));
    Margins(ids, bound, e, u);
  }

  /** A user with a negative share is charged nothing for it, which their net does not show. */
  lemma NegativeShareDiverges(e: Expense, k: nat)
    requires ValidExpense(e) && DistinctUsers(e.participants)
    requires k < |e.participants| && e.participants[k].minor < 0
    ensures !ReconcilesAlone(e)
  {
    var u := e.participants[k].userId;
    var list := AloneList(e, u);
    DistinctAt(e.participants, k);
    SizeIsAt(e.payments, u);
    NoMoreThanLength(e.payments, u);
    NoMoreThanLength(e.participants, u);
    LengthAtLeastTotal(e.participants);
    SumOne(e, ExpenseNet(u));
    assert Flow(list, u) == -At(e.payments, u);
  }

  /** One accepted expense reconciles for every user if and only if no share in it is negative. */
  lemma ReconcilesIffNonNegative(e: Expense)
    requires ValidExpense(e) && DistinctUsers(e.participants)
    ensures ReconcilesAlone(e) <==> NonNegativeShares(e)
  {
    if NonNegativeShares(e) {
      forall list, u | IsPairwise(Book([e], []), list) ensures Flow(list, u) == -Net(Book([e], []), u) {
        PairwiseReconciles(Book([e], []), list, u);
      }
    } else {
      var p :| p in e.participants && p.minor < 0;
      var k :| 0 <= k < |e.participants| && e.participants[k] == p;
      NegativeShareDiverges(e, k);
    }
  }
}
