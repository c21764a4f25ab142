/**
 `computeNetBalances`: one running map of nets, credited payment by payment and
 debited share by share, against `Ledger.Net`, the per-user closed form.
 */
module NetBalances {
  import opened Wrappers
  import opened Sums
  import opened Sorting
  import opened Ledger

  type Running = map<UserId, int>

  function Get(net: Running, u: UserId): int { if u in net then net[u] else 0 }

  function Bump(net: Running, u: UserId, delta: int): Running { net[u := Get(net, u) + delta] }

  // ── What the report says ───────────────────────────────────────────────────

  function Ids(report: seq<NetBalance>): seq<UserId> {
    seq(|report|, i requires 0 <= i < |report| => report[i].userId)
  }

  /**
   One entry per member in the given order, then the other users the book
   mentions in ascending id order; every entry carries that user's net.
   */
  ghost predicate IsReport(memberIds: seq<UserId>, book: Book, report: seq<NetBalance>) {
    && |memberIds| <= |report|
    && Ids(report)[..|memberIds|] == memberIds
    && (var extras := Ids(report)[|memberIds|..];
        Ascending(extras) && forall u :: u in extras <==> u in Parties(book) && u !in memberIds)
    && forall i :: 0 <= i < |report| ==> report[i].netMinor == Net(book, report[i].userId)
  }

  // ── The accumulation loops ─────────────────────────────────────────────────

  lemma PortionStep(ps: seq<Portion>, i: nat)
    requires i < |ps|
    ensures Users(ps[..i + 1]) == Users(ps[..i]) + {ps[i].userId}
    ensures Total(ps[..i + 1]) == Total(ps[..i]) + ps[i].minor
    ensures forall u :: At(ps[..i + 1], u) == At(ps[..i], u) + if ps[i].userId == u then ps[i].minor else 0
    ensures PaymentsFault(ps[..i]) == None ==>
      PaymentsFault(ps[..i + 1]) ==
      if ps[i].minor <= 0 then Some(BadContribution)
      else if ps[i].userId in Users(ps[..i]) then Some(DuplicateContributor)
      else None
  {
    assert ps[..i + 1][..i] == ps[..i];
  }

  method CreditPayments(net: Running, payments: seq<Portion>) returns (r: Result<(Running, int)>)
    ensures r.Err? ==> PaymentsFault(payments) == Some(r.fault)
    ensures r.Ok? ==>
      && PaymentsFault(payments) == None
      && (forall u :: Get(r.value.0, u) == Get(net, u) + At(payments, u))
      && r.value.0.Keys == net.Keys + Users(payments)
      && r.value.1 == Total(payments)
  {
    var posted := net;
    var contributorsSeen: set<UserId> := {};
    var contributionSum := 0;
    for i := 0 to |payments|
      invariant PaymentsFault(payments[..i]) == None
      invariant contributorsSeen == Users(payments[..i])
      invariant contributionSum == Total(payments[..i])
      invariant posted.Keys == net.Keys + contributorsSeen
      invariant forall u :: Get(posted, u) == Get(net, u) + At(payments[..i], u)
    {
      var payment := payments[i];
      PortionStep(payments, i);
      if payment.minor <= 0 {
        PaymentsFaultSticks(payments, i + 1);
        return Err(BadContribution);
      }
      if payment.userId in contributorsSeen {
        PaymentsFaultSticks(payments, i + 1);
        return Err(DuplicateContributor);
      }
      contributorsSeen := contributorsSeen + {payment.userId};
      contributionSum := contributionSum + payment.minor;
      posted := Bump(posted, payment.userId, payment.minor);
    }
    assert payments[..|payments|] == payments;
    return Ok((posted, contributionSum));
  }

  method DebitShares(net: Running, participants: seq<Portion>) returns (posted: Running, shareSum: int)
    ensures forall u :: Get(posted, u) == Get(net, u) - At(participants, u)
    ensures posted.Keys == net.Keys + Users(participants)
    ensures shareSum == Total(participants)
  {
    posted, shareSum := net, 0;
    for i := 0 to |participants|
      invariant shareSum == Total(participants[..i])
      invariant posted.Keys == net.Keys + Users(participants[..i])
      invariant forall u :: Get(posted, u) == Get(net, u) - At(participants[..i], u)
    {
      var p := participants[i];
      PortionStep(participants, i);
      posted := Bump(posted, p.userId, -p.minor);
      shareSum := shareSum + p.minor;
    }
    assert participants[..|participants|] == participants;
  }

  /** Validate one expense while posting it; nothing is returned on a fault. */
  method PostExpense(net: Running, e: Expense) returns (r: Result<Running>)
    ensures r.Err? ==> ExpenseFault(e) == Some(r.fault)
    ensures r.Ok? ==>
      && ExpenseFault(e) == None
      && (forall u :: Get(r.value, u) == Get(net, u) + At(e.payments, u) - At(e.participants, u))
      && r.value.Keys == net.Keys + Users(e.payments) + Users(e.participants)
  {
    if e.payments == [] { return Err(NoPayments); }
    var credited := CreditPayments(net, e.payments);
    if credited.Err? { return Err(credited.fault); }
    if credited.value.1 != e.amountMinor { return Err(ContributionMismatch); }
    var posted, shareSum := DebitShares(credited.value.0, e.participants);
    if shareSum != e.amountMinor { return Err(ShareMismatch); }
    return Ok(posted);
  }

  method PostExpenses(start: Running, es: seq<Expense>) returns (r: Result<Running>)
    ensures r.Err? ==> ExpensesFault(es) == Some(r.fault)
    ensures r.Ok? ==>
      && ExpensesFault(es) == None
      && (forall u :: Get(r.value, u) == Get(start, u) + Sum(es, ExpenseNet(u)))
      && r.value.Keys == start.Keys + ExpenseParties(es)
  {
    var net := start;
    for i := 0 to |es|
      invariant ExpensesFault(es[..i]) == None
      invariant forall u :: Get(net, u) == Get(start, u) + Sum(es[..i], ExpenseNet(u))
      invariant net.Keys == start.Keys + ExpenseParties(es[..i])
    {
      assert es[..i + 1][..i] == es[..i];
      var posted := PostExpense(net, es[i]);
      if posted.Err? {
        ExpensesFaultSticks(es, i + 1);
        return Err(posted.fault);
      }
      net := posted.value;
    }
    assert es[..|es|] == es;
    return Ok(net);
  }

  method PostSettlements(start: Running, ts: seq<Transfer>) returns (r: Result<Running>)
    ensures r.Err? ==> SettlementsFault(ts) == Some(r.fault)
    ensures r.Ok? ==>
      && SettlementsFault(ts) == None
      && (forall u :: Get(r.value, u) == Get(start, u) + Flow(ts, u))
      && r.value.Keys == start.Keys + TransferParties(ts)
  {
    var net := start;
    for i := 0 to |ts|
      invariant SettlementsFault(ts[..i]) == None
      invariant forall u :: Get(net, u) == Get(start, u) + Flow(ts[..i], u)
      invariant net.Keys == start.Keys + TransferParties(ts[..i])
    {
      var s := ts[i];
      assert ts[..i + 1][..i] == ts[..i];
      if s.amountMinor <= 0 {
        SettlementsFaultSticks(ts, i + 1);
        return Err(BadSettlementAmount);
      }
      if s.fromUserId == s.toUserId {
        SettlementsFaultSticks(ts, i + 1);
        return Err(SelfSettlement);
      }
      net := Bump(net, s.fromUserId, s.amountMinor);
      net := Bump(net, s.toUserId, -s.amountMinor);
    }
    assert ts[..|ts|] == ts;
    return Ok(net);
  }

  method Zeroed(memberIds: seq<UserId>) returns (net: Running)
    ensures forall u :: u in net <==> u in memberIds
    ensures forall u :: Get(net, u) == 0
  {
    net := map[];
    for i := 0 to |memberIds|
      invariant forall u :: u in net <==> u in memberIds[..i]
      invariant forall u :: u in net ==> net[u] == 0
    {
      net := net[memberIds[i] := 0];
    }
    assert memberIds[..|memberIds|] == memberIds;
  }

  method EntriesFor(ids: seq<UserId>, net: Running) returns (entries: seq<NetBalance>)
    ensures Ids(entries) == ids
    ensures forall i :: 0 <= i < |entries| ==> entries[i].netMinor == Get(net, entries[i].userId)
  {
    entries := [];
    for i := 0 to |ids|
      invariant |entries| == i
      invariant forall k :: 0 <= k < i ==> entries[k] == NetBalance(ids[k], Get(net, ids[k]))
    {
      entries := entries + [NetBalance(ids[i], Get(net, ids[i]))];
    }
  }

  /**
   The engine's `computeNetBalances`: it fails with the first fault of the book,
   and otherwise reports every member and every former party with its net.
   */
  method ComputeNetBalances(memberIds: seq<UserId>, book: Book) returns (r: Result<seq<NetBalance>>)
    ensures r.Err? ==> BookFault(book) == Some(r.fault)
    ensures r.Ok? ==> BookFault(book) == None && IsReport(memberIds, book, r.value)
  {
    var start := Zeroed(memberIds);
    var afterExpenses := PostExpenses(start, book.expenses);
    if afterExpenses.Err? { return Err(afterExpenses.fault); }
    var afterAll := PostSettlements(afterExpenses.value, book.settlements);
    if afterAll.Err? { return Err(afterAll.fault); }
    var net := afterAll.value;
    assert forall u :: Get(net, u) == Net(book, u);

    var listed := EntriesFor(memberIds, net);
    var extraIds := SortIds(set u | u in net && u !in memberIds);
    var extras := EntriesFor(extraIds, net);
    IdsConcat(listed, extras);
    return Ok(listed + extras);
  }

  lemma IdsConcat(xs: seq<NetBalance>, ys: seq<NetBalance>)
    ensures Ids(xs + ys) == Ids(xs) + Ids(ys)
  {
  }

  // ── Conservation ───────────────────────────────────────────────────────────

  ghost predicate Distinct(ids: seq<UserId>) {
    forall i, j :: 0 <= i < j < |ids| ==> ids[i] != ids[j]
  }

  ghost predicate Covers(ids: seq<UserId>, users: set<UserId>) {
    forall u :: u in users ==> u in ids
  }

  function AtAll(ps: seq<Portion>): UserId -> int { (u: UserId) => At(ps, u) }

  function MinorAt(p: Portion): UserId -> int { (u: UserId) => if p.userId == u then p.minor else 0 }

  /** Splitting a total by user loses nothing, provided every user is listed once. */
  lemma {:induction false} TotalByUser(ids: seq<UserId>, ps: seq<Portion>)
    requires Distinct(ids) && Covers(ids, Users(ps))
    ensures Sum(ids, AtAll(ps)) == Total(ps)
  {
    if ps == [] {
      SumZero(ids, AtAll(ps));
    } else {
      var init, last := ps[..|ps| - 1], ps[|ps| - 1];
      TotalByUser(ids, init);
      SumSingle(ids, last.userId, MinorAt(last));
      SumLinear(ids, AtAll(init), MinorAt(last), AtAll(ps));
    }
  }

  function FlowAll(ts: seq<Transfer>): UserId -> int { (u: UserId) => Flow(ts, u) }

  function PaidBy(t: Transfer): UserId -> int { (u: UserId) => if t.fromUserId == u then t.amountMinor else 0 }

  function ReceivedBy(t: Transfer): UserId -> int { (u: UserId) => if t.toUserId == u then -t.amountMinor else 0 }

  function FlowOf(t: Transfer): UserId -> int {
    (u: UserId) => (if t.fromUserId == u then t.amountMinor else 0) - (if t.toUserId == u then t.amountMinor else 0)
  }

  lemma {:induction false} FlowConserved(ids: seq<UserId>, ts: seq<Transfer>)
    requires Distinct(ids) && Covers(ids, TransferParties(ts))
    ensures Sum(ids, FlowAll(ts)) == 0
  {
    if ts == [] {
      SumZero(ids, FlowAll(ts));
    } else {
      var init, last := ts[..|ts| - 1], ts[|ts| - 1];
      FlowConserved(ids, init);
      SumSingle(ids, last.fromUserId, PaidBy(last));
      SumSingle(ids, last.toUserId, ReceivedBy(last));
      SumLinear(ids, PaidBy(last), ReceivedBy(last), FlowOf(last));
      SumLinear(ids, FlowAll(init), FlowOf(last), FlowAll(ts));
    }
  }

  function ExpensesNetAll(es: seq<Expense>): UserId -> int { (u: UserId) => Sum(es, ExpenseNet(u)) }

  function Negated(f: UserId -> int): UserId -> int { (u: UserId) => -f(u) }

  lemma {:induction false} SumNegated(ids: seq<UserId>, f: UserId -> int)
    ensures Sum(ids, Negated(f)) == -Sum(ids, f)
  {
    if ids != [] {
      SumNegated(ids[..|ids| - 1], f);
    }
  }

  function ExpenseNetOf(e: Expense): UserId -> int { (u: UserId) => ExpenseNet(u)(e) }

  lemma {:induction false} ExpensesConserved(ids: seq<UserId>, es: seq<Expense>)
    requires Distinct(ids) && Covers(ids, ExpenseParties(es))
    requires forall e :: e in es ==> Total(e.payments) == Total(e.participants)
    ensures Sum(ids, ExpensesNetAll(es)) == 0
  {
    if es == [] {
      SumZero(ids, ExpensesNetAll(es));
    } else {
      var init, last := es[..|es| - 1], es[|es| - 1];
      Snoc(es);
      ExpensesConserved(ids, init);
      TotalByUser(ids, last.payments);
      TotalByUser(ids, last.participants);
      SumNegated(ids, AtAll(last.participants));
      SumLinear(ids, AtAll(last.payments), Negated(AtAll(last.participants)), ExpenseNetOf(last));
      SumLinear(ids, ExpensesNetAll(init), ExpenseNetOf(last), ExpensesNetAll(es));
    }
  }

  function NetAll(book: Book): UserId -> int { (u: UserId) => Net(book, u) }

  lemma NetsSumToZeroOver(ids: seq<UserId>, book: Book)
    requires ValidBook(book) && Distinct(ids) && Covers(ids, Parties(book))
    ensures Sum(ids, NetAll(book)) == 0
  {
    ExpensesConserved(ids, book.expenses);
    FlowConserved(ids, book.settlements);
    SumLinear(ids, ExpensesNetAll(book.expenses), FlowAll(book.settlements), NetAll(book));
  }

  function NetMinor(): NetBalance -> int { (b: NetBalance) => b.netMinor }

  lemma {:induction false} SumOverReport(report: seq<NetBalance>, book: Book)
    requires forall i :: 0 <= i < |report| ==> report[i].netMinor == Net(book, report[i].userId)
    ensures Sum(report, NetMinor()) == Sum(Ids(report), NetAll(book))
  {
    if report != [] {
      var n := |report| - 1;
      assert Ids(report)[..n] == Ids(report[..n]);
      SumOverReport(report[..n], book);
    }
  }

  lemma ReportCovers(memberIds: seq<UserId>, book: Book, report: seq<NetBalance>)
    requires Distinct(memberIds) && IsReport(memberIds, book, report)
    ensures Distinct(Ids(report)) && Covers(Ids(report), Parties(book))
  {
    var ids, m := Ids(report), |memberIds|;
    var extras := ids[m..];
    assert ids == memberIds + extras;
    forall i, j | 0 <= i < j < |ids| ensures ids[i] != ids[j] {
      if i < m <= j {
        assert ids[j] == extras[j - m] && ids[j] in extras;
        assert ids[i] == memberIds[i];
      } else if m <= i {
        assert ids[i] == extras[i - m] && ids[j] == extras[j - m];
      } else {
        assert ids[i] == memberIds[i] && ids[j] == memberIds[j];
      }
    }
    forall u | u in Parties(book) ensures u in ids {
      assert u in memberIds || u in extras;
    }
  }

  /** No minor unit is lost or created: the reported nets sum to zero. */
  lemma ReportSumsToZero(memberIds: seq<UserId>, book: Book, report: seq<NetBalance>)
    requires Distinct(memberIds)
    requires BookFault(book) == None && IsReport(memberIds, book, report)
    ensures Sum(report, NetMinor()) == 0
  {
    FaultlessIffValid(book);
    ReportCovers(memberIds, book, report);
    NetsSumToZeroOver(Ids(report), book);
    SumOverReport(report, book);
  }
}
