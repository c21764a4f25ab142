/**
 `computePairwiseDebts`: who owes whom, without global minimisation.  Each
 expense is decomposed by the north-west fill, settlements are credited in the
 opposite direction, and every unordered pair is netted into at most one transfer.
 The list is determined by the book alone: `Reconciliation` compares it with the
 aggregate path.
 */
module PairwiseDebts {
  import opened Wrappers
  import opened Sums
  import opened Sorting
  import opened Ledger
  import opened NorthWestFill
  import opened PairLists
  import NetBalances

  function OwedBetween(u: UserId, v: UserId): Expense -> int { (e: Expense) => Owed(e, u, v) }

  function CreditBetween(u: UserId, v: UserId): Transfer -> int {
    (t: Transfer) => if t.toUserId == u && t.fromUserId == v then t.amountMinor else 0
  }

  /** What `u` owes `v` before netting: shares covered by `v`, and settlements `v` paid to `u`. */
  function Gross(book: Book, u: UserId, v: UserId): int {
    if u == v then 0 else Sum(book.expenses, OwedBetween(u, v)) + Sum(book.settlements, CreditBetween(u, v))
  }

  function NetDebt(book: Book, u: UserId, v: UserId): int { Gross(book, u, v) - Gross(book, v, u) }

  // ── What the list says ─────────────────────────────────────────────────────

  /** One transfer for every pair with a non-zero net debt, and no other. */
  ghost predicate IsPairwise(book: Book, list: seq<Transfer>) {
    && (forall i, j :: 0 <= i < j < |list| ==> PairBefore(list[i], list[j]))
    && forall t: Transfer :: t in list <==> t.amountMinor > 0 && t.amountMinor == NetDebt(book, t.fromUserId, t.toUserId)
  }

  /** The pairwise list of a book is unique. */
  lemma {:induction false} PairwiseUnique(book: Book, xs: seq<Transfer>, ys: seq<Transfer>)
    requires IsPairwise(book, xs) && IsPairwise(book, ys)
    ensures xs == ys
  {
    SameStrictlyOrdered(xs, ys);
  }

  /** No self-pair, and at most one transfer for each unordered pair of users. */
  lemma OnePerPair(book: Book, list: seq<Transfer>)
    requires IsPairwise(book, list)
    ensures forall i :: 0 <= i < |list| ==> list[i].fromUserId != list[i].toUserId
    ensures forall i, j :: 0 <= i < j < |list| ==>
      !(list[j].fromUserId in {list[i].fromUserId, list[i].toUserId} && list[j].toUserId in {list[i].fromUserId, list[i].toUserId})
  {
    forall i | 0 <= i < |list| ensures list[i].fromUserId != list[i].toUserId {
      assert list[i] in list;
    }
    forall i, j | 0 <= i < j < |list|
      ensures !(list[j].fromUserId in {list[i].fromUserId, list[i].toUserId}
                && list[j].toUserId in {list[i].fromUserId, list[i].toUserId})
    {
      assert PairBefore(list[i], list[j]);
      assert list[j].fromUserId != list[j].toUserId;
    }
  }

  lemma {:induction false} OwedNonNegative(es: seq<Expense>, u: UserId, v: UserId)
    ensures Sum(es, OwedBetween(u, v)) >= 0
    ensures u !in ExpenseParties(es) || v !in ExpenseParties(es) ==> Sum(es, OwedBetween(u, v)) == 0
  {
    if es != [] {
      OwedNonNegative(es[..|es| - 1], u, v);
      SizeOfStranger(es[|es| - 1].participants, u);
      SizeOfStranger(es[|es| - 1].payments, v);
    }
  }

  lemma {:induction false} SizeOfStranger(ps: seq<Portion>, u: UserId)
    ensures Size(ps, u) >= 0 && (u !in Users(ps) ==> Size(ps, u) == 0)
  {
    if ps != [] {
      SizeOfStranger(ps[..|ps| - 1], u);
    }
  }

  lemma {:induction false} CreditOfStranger(ts: seq<Transfer>, u: UserId, v: UserId)
    ensures u !in TransferParties(ts) || v !in TransferParties(ts) ==> Sum(ts, CreditBetween(u, v)) == 0
  {
    if ts != [] {
      CreditOfStranger(ts[..|ts| - 1], u, v);
    }
  }

  lemma DebtsBetweenParties(book: Book, u: UserId, v: UserId)
    ensures NetDebt(book, u, v) != 0 ==> u != v && u in Parties(book) && v in Parties(book)
  {
    OwedNonNegative(book.expenses, u, v);
    OwedNonNegative(book.expenses, v, u);
    CreditOfStranger(book.settlements, u, v);
    CreditOfStranger(book.settlements, v, u);
  }

  function NetsOf(book: Book): NetTable { (u: UserId, v: UserId) => NetDebt(book, u, v) }

  lemma PairListIsPairwise(book: Book, net: NetTable, ids: seq<UserId>)
    requires forall u, v :: net(u, v) == NetDebt(book, u, v)
    requires Ascending(ids)
    requires forall u, v :: NetDebt(book, u, v) != 0 ==> u in ids && v in ids
    ensures IsPairwise(book, PairList(net, ids))
  {
    PairListMembers(net, ids);
  }

  // ── The engine ─────────────────────────────────────────────────────────────

  /** The shared notion of a valid expense, with the fault it is rejected for. */
  method AssertExpenseIntegrity(e: Expense) returns (fault: Option<Fault>)
    ensures fault == ExpenseFault(e)
  {
    if e.payments == [] { return Some(NoPayments); }
    var contributorsSeen: set<UserId> := {};
    var contributionSum := 0;
    for i := 0 to |e.payments|
      invariant PaymentsFault(e.payments[..i]) == None
      invariant contributorsSeen == Users(e.payments[..i])
      invariant contributionSum == Total(e.payments[..i])
    {
      var payment := e.payments[i];
      NetBalances.PortionStep(e.payments, i);
      if payment.minor <= 0 {
        PaymentsFaultSticks(e.payments, i + 1);
        return Some(BadContribution);
      }
      if payment.userId in contributorsSeen {
        PaymentsFaultSticks(e.payments, i + 1);
        return Some(DuplicateContributor);
      }
      contributorsSeen := contributorsSeen + {payment.userId};
      contributionSum := contributionSum + payment.minor;
    }
    assert e.payments[..|e.payments|] == e.payments;
    if contributionSum != e.amountMinor { return Some(ContributionMismatch); }
    var shareSum := 0;
    for i := 0 to |e.participants|
      invariant shareSum == Total(e.participants[..i])
    {
      NetBalances.PortionStep(e.participants, i);
      shareSum := shareSum + e.participants[i].minor;
    }
    assert e.participants[..|e.participants|] == e.participants;
    if shareSum != e.amountMinor { return Some(ShareMismatch); }
    return None;
  }

  /** The table holds what the expenses make everyone owe, and nothing on the diagonal. */
  ghost predicate Filled(debt: DebtTable, es: seq<Expense>) {
    forall u, v :: Owing(debt, u, v) == if u == v then 0 else Sum(es, OwedBetween(u, v))
  }

  lemma OwedStep(es: seq<Expense>, i: nat, u: UserId, v: UserId)
    requires i < |es|
    ensures Sum(es[..i + 1], OwedBetween(u, v)) == Sum(es[..i], OwedBetween(u, v)) + Owed(es[i], u, v)
  {
    SumPrefixStep(es, OwedBetween(u, v), i);
  }

  lemma FilledNextFor(debt: DebtTable, next: DebtTable, es: seq<Expense>, i: nat, u: UserId, v: UserId)
    requires i < |es| && Filled(debt, es[..i])
    requires Owing(next, u, v) == Owing(debt, u, v) + if u == v then 0 else Owed(es[i], u, v)
    ensures Owing(next, u, v) == if u == v then 0 else Sum(es[..i + 1], OwedBetween(u, v))
  {
    if u != v {
      OwedStep(es, i, u, v);
      assert Owing(debt, u, v) == Sum(es[..i], OwedBetween(u, v));
    }
  }

  lemma FilledNext(debt: DebtTable, next: DebtTable, es: seq<Expense>, i: nat)
    requires i < |es| && Filled(debt, es[..i])
    requires forall u, v :: Owing(next, u, v) == (Owing(debt, u, v) + if u == v then 0 else Owed(es[i], u, v))
    ensures Filled(next, es[..i + 1])
  {
    forall u: UserId, v: UserId ensures Owing(next, u, v) == if u == v then 0 else Sum(es[..i + 1], OwedBetween(u, v)) {
      FilledNextFor(debt, next, es, i, u, v);
    }
  }

  method FillExpenses(es: seq<Expense>) returns (r: Result<DebtTable>)
    ensures r.Err? ==> ExpensesFault(es) == Some(r.fault)
    ensures r.Ok? ==> ExpensesFault(es) == None
    ensures r.Ok? ==> Filled(r.value, es)
  {
    var debt: DebtTable := map[];
    for i := 0 to |es|
      invariant ExpensesFault(es[..i]) == None
      invariant Filled(debt, es[..i])
    {
      assert es[..i + 1][..i] == es[..i];
      var fault := AssertExpenseIntegrity(es[i]);
      if fault.Some? {
        ExpensesFaultSticks(es, i + 1);
        return Err(fault.value);
      }
      var next := FillExpense(debt, es[i]);
      FilledNext(debt, next, es, i);
      debt := next;
    }
    assert es[..|es|] == es;
    return Ok(debt);
  }

  /** On top of `start`, every settlement counts as a debt of its receiver to its payer. */
  ghost predicate Credited(start: DebtTable, debt: DebtTable, ts: seq<Transfer>) {
    forall u, v :: Owing(debt, u, v) == (Owing(start, u, v) + if u == v then 0 else Sum(ts, CreditBetween(u, v)))
  }

  lemma CreditedNext(start: DebtTable, debt: DebtTable, ts: seq<Transfer>, i: nat)
    requires i < |ts| && ValidTransfer(ts[i]) && Credited(start, debt, ts[..i])
    ensures Credited(start, AddDebt(debt, ts[i].toUserId, ts[i].fromUserId, ts[i].amountMinor), ts[..i + 1])
  {
    var next := AddDebt(debt, ts[i].toUserId, ts[i].fromUserId, ts[i].amountMinor);
    forall u, v ensures Owing(next, u, v) == (Owing(start, u, v) + if u == v then 0 else Sum(ts[..i + 1], CreditBetween(u, v))) {
      SumPrefixStep(ts, CreditBetween(u, v), i);
    }
  }

  method CreditSettlements(start: DebtTable, ts: seq<Transfer>) returns (r: Result<DebtTable>)
    ensures r.Err? ==> SettlementsFault(ts) == Some(r.fault)
    ensures r.Ok? ==> SettlementsFault(ts) == None
    ensures r.Ok? ==> Credited(start, r.value, ts)
  {
    var debt := start;
    for i := 0 to |ts|
      invariant SettlementsFault(ts[..i]) == None
      invariant Credited(start, debt, ts[..i])
    {
      var s := ts[i];
      assert ts[..i + 1][..i] == ts[..i];
      if s.amountMinor <= 0 {
        SettlementsFaultSticks(ts, i + 1);
        return Err(BadSettlementAmount);
      }
      if s.fromUserId == s.toUserId {
        SettlementsFaultSticks(ts, i + 1);
        return Err(SelfSettlement);
      }
      CreditedNext(start, debt, ts, i);
      debt := AddDebt(debt, s.toUserId, s.fromUserId, s.amountMinor);
    }
    assert ts[..|ts|] == ts;
    return Ok(debt);
  }

  function TableNets(debt: DebtTable): NetTable {
    (u: UserId, v: UserId) => Owing(debt, u, v) - Owing(debt, v, u)
  }

  /** The inner loop: net `a` against every later id. */
  method NetRow(debt: DebtTable, a: UserId, later: seq<UserId>) returns (row: seq<Transfer>)
    ensures row == Row(TableNets(debt), a, later)
  {
    row := [];
    ghost var net, whole := TableNets(debt), Row(TableNets(debt), a, later);
    assert later[0..] == later && [] + whole == whole;
    for j := 0 to |later|
      invariant row + Row(net, a, later[j..]) == whole
    {
      var b := later[j];
      RowStep(row, net, a, later, j, whole);
      var entry := Entry(a, b, Owing(debt, a, b) - Owing(debt, b, a));
      assert entry == PairEntry(net, a, b);
      row := row + entry;
    }
    assert later[|later|..] == [] && row + [] == row;
  }

  method NetPairs(debt: DebtTable, sortedIds: seq<UserId>) returns (transfers: seq<Transfer>)
    ensures transfers == PairList(TableNets(debt), sortedIds)
  {
    transfers := [];
    for i := 0 to |sortedIds|
      invariant transfers + PairList(TableNets(debt), sortedIds[i..]) == PairList(TableNets(debt), sortedIds)
    {
      var a := sortedIds[i];
      assert sortedIds[i..][0] == a && sortedIds[i..][1..] == sortedIds[i + 1..];
      ghost var before, rest := transfers, PairList(TableNets(debt), sortedIds[i + 1..]);
      var row := NetRow(debt, a, sortedIds[i + 1..]);
      transfers := transfers + row;
      assert before + (row + rest) == transfers + rest;
    }
    assert sortedIds[|sortedIds|..] == [];
  }

  /** The engine's `computePairwiseDebts`. */
  method ComputePairwiseDebts(memberIds: seq<UserId>, book: Book) returns (r: Result<seq<Transfer>>)
    ensures r.Err? ==> BookFault(book) == Some(r.fault)
    ensures r.Ok? ==> BookFault(book) == None && IsPairwise(book, r.value)
  {
    var filled := FillExpenses(book.expenses);
    if filled.Err? { return Err(filled.fault); }
    var credited := CreditSettlements(filled.value, book.settlements);
    if credited.Err? { return Err(credited.fault); }
    var debt := credited.value;
    assert forall u, v :: Owing(debt, u, v) == Gross(book, u, v);
    var ids: set<UserId> := (set u | u in memberIds) + (set p | p in debt :: p.0) + (set p | p in debt :: p.1);
    var sortedIds := SortIds(ids);
    var transfers := NetPairs(debt, sortedIds);
    forall u: UserId, v: UserId | NetDebt(book, u, v) != 0 ensures u in sortedIds && v in sortedIds {
      assert Owing(debt, u, v) != 0 || Owing(debt, v, u) != 0;
      assert (u, v) in debt || (v, u) in debt;
      if (u, v) in debt {
        assert (u, v).0 in ids && (u, v).1 in ids;
      } else {
        assert (v, u).0 in ids && (v, u).1 in ids;
      }
    }
    PairListIsPairwise(book, TableNets(debt), sortedIds);
    return Ok(transfers);
  }
}
