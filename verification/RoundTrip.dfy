/**
 Carrying out a suggested plan: recording its transfers as completed settlements
 closes every balance, and asking again suggests nothing.
 */
module RoundTrip {
  import opened Wrappers
  import opened Sums
  import opened Sorting
  import opened Ledger
  import opened NetBalances
  import opened Simplify
  import opened SettleUp
  import opened PairLists
  import opened PairwiseDebts
  import opened Reconciliation

  function Record(book: Book, plan: seq<Transfer>): Book { Book(book.expenses, book.settlements + plan) }

  lemma RecordNet(book: Book, plan: seq<Transfer>, u: UserId)
    ensures Net(Record(book, plan), u) == Net(book, u) + Flow(plan, u)
  {
    SumConcat(book.settlements, plan, TransferNet(u));
  }

  lemma RecordValid(book: Book, plan: seq<Transfer>)
    requires ValidBook(book) && forall t :: t in plan ==> ValidTransfer(t)
    ensures ValidBook(Record(book, plan))
  {
  }

  // ── The simplified plan ────────────────────────────────────────────────────

  lemma {:induction false} UnlistedUser(es: seq<Expense>, u: UserId)
    requires u !in ExpenseParties(es)
    ensures Sum(es, ExpenseNet(u)) == 0
  {
    if es != [] {
      UnlistedUser(es[..|es| - 1], u);
      UnlistedPortion(es[|es| - 1].payments, u);
      UnlistedPortion(es[|es| - 1].participants, u);
    }
  }

  lemma {:induction false} UnlistedPortion(ps: seq<Portion>, u: UserId)
    requires u !in Users(ps)
    ensures At(ps, u) == 0
  {
    if ps != [] {
      UnlistedPortion(ps[..|ps| - 1], u);
    }
  }

  lemma {:induction false} UnlistedTransfer(ts: seq<Transfer>, u: UserId)
    requires u !in TransferParties(ts)
    ensures Flow(ts, u) == 0
  {
    if ts != [] {
      UnlistedTransfer(ts[..|ts| - 1], u);
    }
  }

  /** A report holds the net of every user, listed or not. */
  lemma ReportHoldsNets(memberIds: seq<UserId>, book: Book, report: seq<NetBalance>, u: UserId)
    requires Distinct(memberIds) && IsReport(memberIds, book, report)
    ensures BalanceOf(report, u) == Net(book, u)
  {
    ReportCovers(memberIds, book, report);
    if u in Ids(report) {
      var k :| 0 <= k < |report| && Ids(report)[k] == u;
      BalanceOfEntry(report, k);
    } else {
      forall b | b in report ensures BalanceFor(u)(b) == 0 {
        var k :| 0 <= k < |report| && report[k] == b;
        assert Ids(report)[k] in Ids(report);
      }
      SumZero(report, BalanceFor(u));
      UnlistedUser(book.expenses, u);
      UnlistedTransfer(book.settlements, u);
    }
  }

  /** Every transfer of the plan may be recorded: its two ends are different users. */
  lemma PlanIsRecordable(balances: seq<NetBalance>)
    requires Distinct(Ids(balances))
    ensures forall t :: t in Plan(balances) ==> ValidTransfer(t)
  {
    SortedSidesPositive(balances);
    GreedyDirection(Debtors(balances), Creditors(balances));
    CreditorFacts(balances);
    forall t | t in Plan(balances) ensures t.fromUserId != t.toUserId {
      var d :| d in Debtors(balances) && d.userId == t.fromUserId;
      var c :| c in Creditors(balances) && c.userId == t.toUserId;
      var i :| 0 <= i < |Debtors(balances)| && Debtors(balances)[i] == d;
      var j :| 0 <= j < |Creditors(balances)| && Creditors(balances)[j] == c;
    }
  }

  lemma {:induction false} NothingToSettle(balances: seq<NetBalance>)
    requires forall i :: 0 <= i < |balances| ==> balances[i].netMinor == 0
    ensures Sides(balances, 1) == [] && Sides(balances, -1) == []
  {
    if balances != [] {
      NothingToSettle(balances[..|balances| - 1]);
    }
  }

  lemma SettledPlanIsEmpty(balances: seq<NetBalance>)
    requires forall i :: 0 <= i < |balances| ==> balances[i].netMinor == 0
    ensures Plan(balances) == []
  {
    NothingToSettle(balances);
  }

  /**
   Recording the simplified plan is accepted, brings every net to zero, and leaves
   nothing to simplify.
   */
  lemma SimplifiedRoundTrip(memberIds: seq<UserId>, book: Book, report: seq<NetBalance>, again: seq<NetBalance>)
    requires Distinct(memberIds) && BookFault(book) == None
    requires IsReport(memberIds, book, report)
    requires IsReport(memberIds, Record(book, Plan(report)), again)
    ensures BookFault(Record(book, Plan(report))) == None
    ensures forall u :: Net(Record(book, Plan(report)), u) == 0
    ensures Plan(again) == []
  {
    var plan := Plan(report);
    FaultlessIffValid(book);
    ReportCovers(memberIds, book, report);
    ReportSumsToZero(memberIds, book, report);
    PlanSettles(report);
    PlanIsRecordable(report);
    RecordValid(book, plan);
    FaultlessIffValid(Record(book, plan));
    forall u: UserId ensures Net(Record(book, plan), u) == 0 {
      RecordNet(book, plan, u);
      ReportHoldsNets(memberIds, book, report, u);
      assert BalanceOf(report, u) + Flow(plan, u) == 0;
    }
    SettledPlanIsEmpty(again);
  }

  // ── The pairwise plan ──────────────────────────────────────────────────────

  /** What a pairwise list pays from `v` to `u`: the debt of `v` to `u`, when there is one. */
  lemma ListCredits(book: Book, list: seq<Transfer>, u: UserId, v: UserId)
    requires IsPairwise(book, list)
    ensures Sum(list, CreditBetween(u, v)) == if NetDebt(book, v, u) > 0 then NetDebt(book, v, u) else 0
  {
    var key := Transfer(v, u, NetDebt(book, v, u));
    assert key in list <==> key.amountMinor > 0;
    forall i, j | 0 <= i < j < |list| ensures list[i] != list[j] {
      assert PairBefore(list[i], list[j]);
    }
    forall t | t in list ensures t.toUserId == u && t.fromUserId == v ==> t == key {
      assert t == Transfer(t.fromUserId, t.toUserId, t.amountMinor);
    }
    SumSingle(list, key, CreditBetween(u, v));
  }

  lemma RecordNetDebt(book: Book, list: seq<Transfer>, u: UserId, v: UserId)
    requires IsPairwise(book, list)
    ensures NetDebt(Record(book, list), u, v) == 0
  {
    SumConcat(book.settlements, list, CreditBetween(u, v));
    SumConcat(book.settlements, list, CreditBetween(v, u));
    ListCredits(book, list, u, v);
    ListCredits(book, list, v, u);
  }

  /**
   Recording the pairwise plan empties the pairwise list, for any accepted book;
   where no share is negative it also brings every net to zero, so that the
   simplified plan is empty too.
   */
  lemma PairwiseRoundTrip(memberIds: seq<UserId>, book: Book, list: seq<Transfer>, again: seq<Transfer>, report: seq<NetBalance>)
    requires BookFault(book) == None && IsPairwise(book, list)
    requires IsPairwise(Record(book, list), again)
    requires IsReport(memberIds, Record(book, list), report)
    ensures BookFault(Record(book, list)) == None
    ensures again == []
    ensures (forall e :: e in book.expenses ==> NonNegativeShares(e)) ==>
      (forall u :: Net(Record(book, list), u) == 0) && Plan(report) == []
  {
    FaultlessIffValid(book);
    forall t | t in list ensures ValidTransfer(t) {
      DebtsBetweenParties(book, t.fromUserId, t.toUserId);
    }
    RecordValid(book, list);
    FaultlessIffValid(Record(book, list));
    forall u, v ensures NetDebt(Record(book, list), u, v) == 0 {
      RecordNetDebt(book, list, u, v);
    }
    PairwiseUnique(Record(book, list), again, []);
    if forall e :: e in book.expenses ==> NonNegativeShares(e) {
      forall u: UserId ensures Net(Record(book, list), u) == 0 {
        RecordNet(book, list, u);
        PairwiseReconciles(book, list, u);
      }
      SettledPlanIsEmpty(report);
    }
  }
}
