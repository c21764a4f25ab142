/**
 The engine computes in double-precision numbers, which are exact for integers up
 to 2^53 - 1.  With amounts capped, a trip of at most 90,071 records keeps every
 accumulator of the net, pairwise and settle-up computations in that range, so the
 integer model and the program agree; one record more can already leave it.
 */
module ExactRange {
  import opened Sums
  import opened Sorting
  import opened Ledger
  import opened NetBalances
  import opened NorthWestFill
  import opened PairLists
  import opened PairwiseDebts
  import opened Reconciliation
  import opened Simplify
  import opened SettleUp
  import opened TripLedger

  const MAX_SAFE_INTEGER := 9_007_199_254_740_991
  const MAX_RECORDS := 90_071

  predicate Exact(x: int) { -MAX_SAFE_INTEGER <= x <= MAX_SAFE_INTEGER }

  /** A ledger the services can have written, of limited length. */
  ghost predicate Bounded(b: Book) {
    && (forall e :: e in b.expenses ==> ExpenseOk(e))
    && (forall t :: t in b.settlements ==> ValidTransfer(t) && AmountInRange(t.amountMinor))
    && |b.expenses| + |b.settlements| <= MAX_RECORDS
  }

  /** Everything that was ever moved. */
  function Volume(es: seq<Expense>, ts: seq<Transfer>): int { Sum(es, AmountOf()) + TotalMoved(ts) }

  lemma {:induction false} ExpenseVolume(es: seq<Expense>)
    requires forall e :: e in es ==> ExpenseOk(e)
    ensures 0 <= Sum(es, AmountOf()) <= |es| * MAX_AMOUNT_MINOR
  {
    if es != [] {
      Snoc(es);
      assert es[|es| - 1] in es;
      ExpenseVolume(es[..|es| - 1]);
    }
  }

  lemma {:induction false} SettlementVolume(ts: seq<Transfer>)
    requires forall t :: t in ts ==> ValidTransfer(t) && AmountInRange(t.amountMinor)
    ensures 0 <= TotalMoved(ts) <= |ts| * MAX_AMOUNT_MINOR
  {
    if ts != [] {
      Snoc(ts);
      assert ts[|ts| - 1] in ts;
      SettlementVolume(ts[..|ts| - 1]);
    }
  }

  lemma VolumeIsExact(b: Book)
    requires Bounded(b)
    ensures 0 <= Sum(b.expenses, AmountOf()) && 0 <= TotalMoved(b.settlements)
    ensures Volume(b.expenses, b.settlements) <= MAX_SAFE_INTEGER
  {
    ExpenseVolume(b.expenses);
    SettlementVolume(b.settlements);
  }

  lemma {:induction false} PrefixVolume<T>(xs: seq<T>, f: T -> int, i: nat)
    requires i <= |xs| && forall x :: x in xs ==> f(x) >= 0
    ensures 0 <= Sum(xs[..i], f) <= Sum(xs, f)
    decreases |xs|
  {
    if i == |xs| {
      assert xs[..i] == xs;
    }
    if xs != [] {
      Snoc(xs);
      if i < |xs| {
        assert xs[..|xs| - 1][..i] == xs[..i];
        PrefixVolume(xs[..|xs| - 1], f, i);
      } else {
        PrefixVolume(xs[..|xs| - 1], f, |xs| - 1);
        assert xs[..|xs| - 1][..|xs| - 1] == xs[..|xs| - 1];
      }
    }
  }

  // ── One expense ────────────────────────────────────────────────────────────

  /** A user's part of any prefix of one side is between nothing and the whole. */
  lemma PartWithinTotal(ps: seq<Portion>, k: nat, u: UserId)
    requires k <= |ps| && forall p :: p in ps ==> p.minor >= 0
    ensures 0 <= At(ps[..k], u) <= Total(ps[..k]) <= Total(ps)
  {
    forall p | p in ps[..k] ensures p in ps {
    }
    PrefixVolume(ps, Minor(), k);
    PrefixVolume(ps[..k], MinorOf(u), 0);
    SumMonotone(ps[..k], MinorOf(u), Minor());
    assert ps[..k][..0] == [];
  }

  lemma {:induction false} NetWithinVolume(es: seq<Expense>, u: UserId)
    requires forall e :: e in es ==> ExpenseOk(e)
    ensures -Sum(es, AmountOf()) <= Sum(es, ExpenseNet(u)) <= Sum(es, AmountOf())
  {
    if es != [] {
      var e := es[|es| - 1];
      Snoc(es);
      assert e in es;
      NetWithinVolume(es[..|es| - 1], u);
      PartWithinTotal(e.payments, |e.payments|, u);
      PartWithinTotal(e.participants, |e.participants|, u);
      assert e.payments[..|e.payments|] == e.payments && e.participants[..|e.participants|] == e.participants;
    }
  }

  lemma {:induction false} FlowWithinVolume(ts: seq<Transfer>, u: UserId)
    requires forall t :: t in ts ==> ValidTransfer(t)
    ensures -TotalMoved(ts) <= Flow(ts, u) <= TotalMoved(ts)
  {
    if ts != [] {
      Snoc(ts);
      assert ts[|ts| - 1] in ts;
      FlowWithinVolume(ts[..|ts| - 1], u);
    }
  }

  lemma {:induction false} GrossWithinVolume(es: seq<Expense>, u: UserId, v: UserId)
    requires forall e :: e in es ==> ExpenseOk(e)
    ensures 0 <= Sum(es, OwedBetween(u, v)) <= Sum(es, AmountOf())
  {
    if es != [] {
      var e := es[|es| - 1];
      Snoc(es);
      assert e in es;
      GrossWithinVolume(es[..|es| - 1], u, v);
      NoMoreThanLength(e.participants, u);
      SizeIsAt(e.participants, u);
    }
  }

  lemma {:induction false} CreditWithinVolume(ts: seq<Transfer>, u: UserId, v: UserId)
    requires forall t :: t in ts ==> ValidTransfer(t)
    ensures 0 <= Sum(ts, CreditBetween(u, v)) <= TotalMoved(ts)
  {
    if ts != [] {
      Snoc(ts);
      assert ts[|ts| - 1] in ts;
      CreditWithinVolume(ts[..|ts| - 1], u, v);
    }
  }

  // ── The accumulators ───────────────────────────────────────────────────────

  lemma PrefixBounded(b: Book, i: nat, j: nat)
    requires Bounded(b) && i <= |b.expenses| && j <= |b.settlements|
    ensures Bounded(Book(b.expenses[..i], b.settlements[..j]))
    ensures Volume(b.expenses[..i], b.settlements[..j]) <= Volume(b.expenses, b.settlements) <= MAX_SAFE_INTEGER
    ensures 0 <= Sum(b.expenses[..i], AmountOf()) && 0 <= TotalMoved(b.settlements[..j])
  {
    forall e | e in b.expenses[..i] ensures e in b.expenses {
    }
    forall t | t in b.settlements[..j] ensures t in b.settlements {
    }
    VolumeIsExact(b);
    PrefixVolume(b.expenses, AmountOf(), i);
    PrefixVolume(b.settlements, Moved(), j);
  }

  /** While expense `i` is posted: `k` payments credited, or all of them and `l` shares debited. */
  lemma PostingIsExact(b: Book, i: nat, k: nat, l: nat, u: UserId)
    requires Bounded(b) && i < |b.expenses| && k <= |b.expenses[i].payments| && l <= |b.expenses[i].participants|
    ensures var e := b.expenses[i]; var net := Sum(b.expenses[..i], ExpenseNet(u));
            && Exact(net + At(e.payments[..k], u))
            && Exact(net + At(e.payments, u) - At(e.participants[..l], u))
            && Exact(Total(e.payments[..k])) && Exact(Total(e.participants[..l]))
  {
    var es, e := b.expenses, b.expenses[i];
    assert e in es;
    PrefixBounded(b, i + 1, 0);
    PrefixBounded(b, i, 0);
    SumPrefixStep(es, AmountOf(), i);
    NetWithinVolume(es[..i], u);
    PartWithinTotal(e.payments, k, u);
    PartWithinTotal(e.payments, |e.payments|, u);
    PartWithinTotal(e.participants, l, u);
    assert e.payments[..|e.payments|] == e.payments;
  }

  /** After all expenses and `j` settlements; in particular every reported net. */
  lemma NetIsExact(b: Book, j: nat, u: UserId)
    requires Bounded(b) && j <= |b.settlements|
    ensures Exact(Sum(b.expenses, ExpenseNet(u)) + Flow(b.settlements[..j], u))
  {
    PrefixBounded(b, |b.expenses|, j);
    assert b.expenses[..|b.expenses|] == b.expenses;
    NetWithinVolume(b.expenses, u);
    FlowWithinVolume(b.settlements[..j], u);
  }

  /** While expense `i` is filled, `x` of its debt being entered. */
  lemma FillIsExact(b: Book, i: nat, x: int, u: UserId, v: UserId)
    requires Bounded(b) && i < |b.expenses| && 0 <= x <= Owed(b.expenses[i], u, v)
    ensures Exact(Sum(b.expenses[..i], OwedBetween(u, v)) + x)
  {
    PrefixBounded(b, i + 1, 0);
    PrefixBounded(b, i, 0);
    SumPrefixStep(b.expenses, OwedBetween(u, v), i);
    GrossWithinVolume(b.expenses[..i], u, v);
    GrossWithinVolume(b.expenses[..i + 1], u, v);
  }

  /** What a column still offers, and what a row still asks for after `q` columns, never exceed the expense. */
  lemma MarginsAreExact(b: Book, e: Expense, payers: seq<Portion>, rows: seq<Portion>, k: nat, x: nat, i: nat, q: nat)
    requires Bounded(b) && e in b.expenses
    requires multiset(payers) == multiset(e.payments) && Payers(payers) && multiset(rows) == multiset(e.participants)
    requires k < |payers| && i < |rows| && q <= |payers|
    ensures var lo, hi := Length(rows[..i]), Length(rows[..i + 1]);
            && 0 <= Left(payers, k, x) <= MAX_AMOUNT_MINOR
            && 0 <= rows[i].minor == hi - lo
            && 0 <= hi - Max(lo, Min(hi, Length(payers[..q]))) <= MAX_AMOUNT_MINOR
            && Exact(Left(payers, k, x)) && Exact(hi - Max(lo, Min(hi, Length(payers[..q]))))
  {
    SameMembers(e.payments, payers);
    SameMembers(e.participants, rows);
    SumPermuted(e.payments, payers, Minor());
    SumPermuted(e.participants, rows, Minor());
    LengthWithinTotal(payers);
    LengthWithinTotal(rows);
    LengthMonotone(payers, k, k + 1);
    LengthMonotone(payers, k + 1, |payers|);
    LengthMonotone(rows, i, i + 1);
    LengthMonotone(rows, i + 1, |rows|);
    assert payers[..|payers|] == payers && rows[..|rows|] == rows;
    assert rows[..i + 1][..i] == rows[..i] && rows[i] in rows;
  }

  lemma {:induction false} LengthWithinTotal(ps: seq<Portion>)
    requires forall p :: p in ps ==> p.minor >= 0
    ensures Length(ps) == Total(ps)
  {
    if ps != [] {
      Snoc(ps);
      LengthWithinTotal(ps[..|ps| - 1]);
    }
  }

  /** A debt after all expenses and `j` settlements, and the net debt of a pair. */
  lemma PairwiseIsExact(b: Book, j: nat, u: UserId, v: UserId)
    requires Bounded(b) && j <= |b.settlements|
    ensures Exact(Sum(b.expenses, OwedBetween(u, v)) + Sum(b.settlements[..j], CreditBetween(u, v)))
    ensures Exact(NetDebt(b, u, v))
  {
    var ts := b.settlements;
    GrossIsExact(b, j, u, v);
    GrossIsExact(b, |ts|, u, v);
    GrossIsExact(b, |ts|, v, u);
    assert ts[..|ts|] == ts;
  }

  lemma GrossIsExact(b: Book, j: nat, u: UserId, v: UserId)
    requires Bounded(b) && j <= |b.settlements|
    ensures 0 <= Sum(b.expenses, OwedBetween(u, v)) + Sum(b.settlements[..j], CreditBetween(u, v)) <= MAX_SAFE_INTEGER
  {
    PrefixBounded(b, |b.expenses|, j);
    assert b.expenses[..|b.expenses|] == b.expenses;
    GrossWithinVolume(b.expenses, u, v);
    CreditWithinVolume(b.settlements[..j], u, v);
  }

  /** What is left of both sides after `k` steps of the two-pointer walk. */
  function AfterSteps(ds: seq<Side>, cs: seq<Side>, k: nat): (seq<Side>, seq<Side>)
    decreases k
  {
    if k == 0 || ds == [] || cs == [] then (ds, cs)
    else AfterSteps(AfterPaying(ds, Pay(ds[0], cs[0])), AfterPaying(cs, Pay(ds[0], cs[0])), k - 1)
  }

  /** The rest of the plan is the plan of what is left. */
  lemma {:induction false} StepsLeadOn(ds: seq<Side>, cs: seq<Side>, k: nat)
    requires k <= |Greedy(ds, cs)|
    ensures var (left, right) := AfterSteps(ds, cs, k); Greedy(left, right) == Greedy(ds, cs)[k..]
    decreases k
  {
    if k > 0 {
      var pay := Pay(ds[0], cs[0]);
      var ds', cs' := AfterPaying(ds, pay), AfterPaying(cs, pay);
      GreedyUnfold(ds, cs, pay, ds', cs');
      assert Greedy(ds, cs)[1..] == Greedy(ds', cs');
      StepsLeadOn(ds', cs', k - 1);
      assert AfterSteps(ds, cs, k) == AfterSteps(ds', cs', k - 1);
      assert Greedy(ds, cs)[1..][k - 1..] == Greedy(ds, cs)[k..];
    }
  }

  ghost predicate Capped(sides: seq<Side>, cap: int) { forall i :: 0 <= i < |sides| ==> 0 < sides[i].remaining <= cap }

  lemma PayingStaysWithin(ds: seq<Side>, cs: seq<Side>, cap: int)
    requires ds != [] && cs != [] && Capped(ds, cap) && Capped(cs, cap)
    ensures var pay := Pay(ds[0], cs[0]);
            0 < pay <= cap && Capped(AfterPaying(ds, pay), cap) && Capped(AfterPaying(cs, pay), cap)
  {
  }

  /** The remaining amounts of the settle-up start as nets and only shrink. */
  lemma {:induction false} StepsStayWithin(ds: seq<Side>, cs: seq<Side>, cap: int, k: nat)
    requires Capped(ds, cap) && Capped(cs, cap)
    ensures var (left, right) := AfterSteps(ds, cs, k); Capped(left, cap) && Capped(right, cap)
    decreases k
  {
    if k > 0 && ds != [] && cs != [] {
      var pay := Pay(ds[0], cs[0]);
      PayingStaysWithin(ds, cs, cap);
      StepsStayWithin(AfterPaying(ds, pay), AfterPaying(cs, pay), cap, k - 1);
    }
  }

  lemma {:induction false} TransfersWithin(ds: seq<Side>, cs: seq<Side>, cap: int)
    requires Capped(ds, cap) && Capped(cs, cap)
    ensures forall t :: t in Greedy(ds, cs) ==> 0 < t.amountMinor <= cap
    decreases |ds| + |cs|
  {
    if ds != [] && cs != [] {
      var pay := Pay(ds[0], cs[0]);
      PayingStaysWithin(ds, cs, cap);
      TransfersWithin(AfterPaying(ds, pay), AfterPaying(cs, pay), cap);
    }
  }

  lemma {:induction false} SidesWithin(balances: seq<NetBalance>, sign: int, cap: int)
    requires sign == 1 || sign == -1
    requires forall i :: 0 <= i < |balances| ==> -cap <= balances[i].netMinor <= cap
    ensures forall i :: 0 <= i < |Sides(balances, sign)| ==> Sides(balances, sign)[i].remaining <= cap
  {
    if balances != [] {
      SidesWithin(balances[..|balances| - 1], sign, cap);
    }
  }

  lemma SortedWithin(xs: seq<Side>, ys: seq<Side>, cap: int)
    requires multiset(xs) == multiset(ys) && forall i :: 0 <= i < |xs| ==> xs[i].remaining <= cap
    ensures forall i :: 0 <= i < |ys| ==> ys[i].remaining <= cap
  {
    SameMembers(xs, ys);
    forall i | 0 <= i < |ys| ensures ys[i].remaining <= cap {
      assert ys[i] in xs;
    }
  }

  /** Every reported net, every remaining amount after `k` steps of the walk, and every transfer. */
  lemma PlanIsExact(memberIds: seq<UserId>, b: Book, report: seq<NetBalance>, k: nat)
    requires Bounded(b) && IsReport(memberIds, b, report)
    ensures forall i :: 0 <= i < |report| ==> Exact(report[i].netMinor)
    ensures var (ds, cs) := AfterSteps(Debtors(report), Creditors(report), k);
            (forall i :: 0 <= i < |ds| ==> Exact(ds[i].remaining)) && (forall i :: 0 <= i < |cs| ==> Exact(cs[i].remaining))
    ensures forall t :: t in Plan(report) ==> Exact(t.amountMinor)
  {
    forall i | 0 <= i < |report| ensures Exact(report[i].netMinor) {
      NetIsExact(b, |b.settlements|, report[i].userId);
      assert b.settlements[..|b.settlements|] == b.settlements;
    }
    SidesWithin(report, 1, MAX_SAFE_INTEGER);
    SidesWithin(report, -1, MAX_SAFE_INTEGER);
    SortedWithin(Sides(report, 1), Creditors(report), MAX_SAFE_INTEGER);
    SortedWithin(Sides(report, -1), Debtors(report), MAX_SAFE_INTEGER);
    SortedSidesPositive(report);
    StepsStayWithin(Debtors(report), Creditors(report), MAX_SAFE_INTEGER, k);
    TransfersWithin(Debtors(report), Creditors(report), MAX_SAFE_INTEGER);
  }

  // ── The bound is tight ─────────────────────────────────────────────────────

  function Repeated(e: Expense, n: nat): seq<Expense> { seq(n, i requires 0 <= i < n => e) }

  lemma {:induction false} RepeatedNet(e: Expense, n: nat, u: UserId)
    ensures Sum(Repeated(e, n), ExpenseNet(u)) == n * ExpenseNet(u)(e)
  {
    if n > 0 {
      assert Repeated(e, n)[..n - 1] == Repeated(e, n - 1);
      RepeatedNet(e, n - 1, u);
    }
  }

  /** The largest expense, paid by one user for another, repeated: exact up to the bound and not beyond. */
  lemma BoundIsTight(u: UserId, v: UserId, n: nat) returns (e: Expense)
    requires u != v
    ensures ExpenseOk(e)
    ensures Exact(Net(Book(Repeated(e, n), []), u)) <==> n <= MAX_RECORDS
  {
    var payment, own, share := Portion(u, MAX_AMOUNT_MINOR), Portion(u, 0), Portion(v, MAX_AMOUNT_MINOR);
    e := Expense(MAX_AMOUNT_MINOR, [payment], [own, share]);
    SumOne(payment, Minor());
    SumOne(payment, MinorOf(u));
    SumTwo(own, share, Minor());
    SumTwo(own, share, MinorOf(u));
    assert PortionIds(e.payments)[0] == PortionIds(e.participants)[0];
    RepeatedNet(e, n, u);
  }
}
