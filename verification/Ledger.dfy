/**
 The ledger the balance engine reads: expenses with a payment side and an
 obligation side, and completed settlements.

 Amounts are integer minor units.  A user id is represented by its rank in the
 collation order: the engine only ever compares ids for equality and for order.
 */
module Ledger {
  import opened Wrappers
  import opened Sums

  type UserId = nat

  /** One user's part of an expense: a contribution, or a share owed. */
  datatype Portion = Portion(userId: UserId, minor: int)

  datatype Expense = Expense(amountMinor: int, payments: seq<Portion>, participants: seq<Portion>)

  datatype Transfer = Transfer(fromUserId: UserId, toUserId: UserId, amountMinor: int)

  datatype NetBalance = NetBalance(userId: UserId, netMinor: int)

  datatype Book = Book(expenses: seq<Expense>, settlements: seq<Transfer>)

  // ── Faults ─────────────────────────────────────────────────────────────────

  datatype Fault =
    | NoPayments
    | BadContribution
    | DuplicateContributor
    | ContributionMismatch
    | ShareMismatch
    | BadSettlementAmount
    | SelfSettlement

  datatype Result<+T> = Ok(value: T) | Err(fault: Fault)

  function Users(ps: seq<Portion>): set<UserId> {
    if ps == [] then {} else Users(ps[..|ps| - 1]) + {ps[|ps| - 1].userId}
  }

  /** The fault met first when the payments are read from the front. */
  function PaymentsFault(ps: seq<Portion>): Option<Fault> {
    if ps == [] then None
    else
      var init, last := ps[..|ps| - 1], ps[|ps| - 1];
      if PaymentsFault(init).Some? then PaymentsFault(init)
      else if last.minor <= 0 then Some(BadContribution)
      else if last.userId in Users(init) then Some(DuplicateContributor)
      else None
  }

  function ExpenseFault(e: Expense): Option<Fault> {
    if e.payments == [] then Some(NoPayments)
    else if PaymentsFault(e.payments).Some? then PaymentsFault(e.payments)
    else if Total(e.payments) != e.amountMinor then Some(ContributionMismatch)
    else if Total(e.participants) != e.amountMinor then Some(ShareMismatch)
    else None
  }

  function ExpensesFault(es: seq<Expense>): Option<Fault> {
    if es == [] then None
    else if ExpensesFault(es[..|es| - 1]).Some? then ExpensesFault(es[..|es| - 1])
    else ExpenseFault(es[|es| - 1])
  }

  function SettlementFault(t: Transfer): Option<Fault> {
    if t.amountMinor <= 0 then Some(BadSettlementAmount)
    else if t.fromUserId == t.toUserId then Some(SelfSettlement)
    else None
  }

  function SettlementsFault(ts: seq<Transfer>): Option<Fault> {
    if ts == [] then None
    else if SettlementsFault(ts[..|ts| - 1]).Some? then SettlementsFault(ts[..|ts| - 1])
    else SettlementFault(ts[|ts| - 1])
  }

  function BookFault(b: Book): Option<Fault> {
    if ExpensesFault(b.expenses).Some? then ExpensesFault(b.expenses)
    else SettlementsFault(b.settlements)
  }

  // ── What a well-formed book is, said without an order of checks ────────────

  ghost predicate DistinctUsers(ps: seq<Portion>) {
    forall i, j :: 0 <= i < j < |ps| ==> ps[i].userId != ps[j].userId
  }

  ghost predicate ValidExpense(e: Expense) {
    && e.payments != []
    && (forall p :: p in e.payments ==> p.minor > 0)
    && DistinctUsers(e.payments)
    && Total(e.payments) == e.amountMinor
    && Total(e.participants) == e.amountMinor
  }

  ghost predicate ValidTransfer(t: Transfer) {
    t.amountMinor > 0 && t.fromUserId != t.toUserId
  }

  ghost predicate ValidBook(b: Book) {
    && (forall e :: e in b.expenses ==> ValidExpense(e))
    && (forall t :: t in b.settlements ==> ValidTransfer(t))
  }

  ghost predicate NonNegativeShares(e: Expense) {
    forall p :: p in e.participants ==> p.minor >= 0
  }

  lemma {:induction false} UsersAre(ps: seq<Portion>)
    ensures forall u :: u in Users(ps) <==> exists p :: p in ps && p.userId == u
  {
    if ps != [] {
      UsersAre(ps[..|ps| - 1]);
      Snoc(ps);
    }
  }

  lemma {:induction false} PaymentsFaultless(ps: seq<Portion>)
    ensures PaymentsFault(ps) == None <==> (forall p :: p in ps ==> p.minor > 0) && DistinctUsers(ps)
  {
    if ps != [] {
      var init, last := ps[..|ps| - 1], ps[|ps| - 1];
      assert ps == init + [last];
      PaymentsFaultless(init);
      UsersAre(init);
      if last.userId in Users(init) {
        var p :| p in init && p.userId == last.userId;
        var i :| 0 <= i < |init| && init[i] == p;
        assert ps[i].userId == ps[|ps| - 1].userId;
      }
      if PaymentsFault(ps) == None {
        forall i, j | 0 <= i < j < |ps| ensures ps[i].userId != ps[j].userId {
          if j < |ps| - 1 {
            assert init[i].userId != init[j].userId;
          } else {
            assert init[i] in init;
          }
        }
      } else if PaymentsFault(init).Some? && DistinctUsers(ps) {
        assert DistinctUsers(init) by {
          forall i, j | 0 <= i < j < |init| ensures init[i].userId != init[j].userId {
            assert ps[i].userId != ps[j].userId;
          }
        }
      }
    }
  }

  lemma {:induction false} ExpensesFaultless(es: seq<Expense>)
    ensures ExpensesFault(es) == None <==> forall e :: e in es ==> ValidExpense(e)
  {
    if es != [] {
      var init, last := es[..|es| - 1], es[|es| - 1];
      Snoc(es);
      ExpensesFaultless(init);
      PaymentsFaultless(last.payments);
      assert ExpenseFault(last) == None <==> ValidExpense(last);
      assert (forall e :: e in es ==> ValidExpense(e)) <==> (forall e :: e in init ==> ValidExpense(e)) && ValidExpense(last);
    }
  }

  lemma {:induction false} SettlementsFaultless(ts: seq<Transfer>)
    ensures SettlementsFault(ts) == None <==> forall t :: t in ts ==> ValidTransfer(t)
  {
    if ts != [] {
      var init, last := ts[..|ts| - 1], ts[|ts| - 1];
      Snoc(ts);
      SettlementsFaultless(init);
      assert (forall t :: t in ts ==> ValidTransfer(t)) <==> (forall t :: t in init ==> ValidTransfer(t)) && ValidTransfer(last);
    }
  }

  /** The checks, in the engine's order, reject exactly the malformed books. */
  lemma FaultlessIffValid(b: Book)
    ensures BookFault(b) == None <==> ValidBook(b)
  {
    ExpensesFaultless(b.expenses);
    SettlementsFaultless(b.settlements);
  }

  lemma {:induction false} ExpensesFaultSticks(es: seq<Expense>, i: nat)
    requires i <= |es| && ExpensesFault(es[..i]).Some?
    ensures ExpensesFault(es) == ExpensesFault(es[..i])
  {
    if i == |es| {
      assert es[..i] == es;
    } else {
      assert es[..|es| - 1][..i] == es[..i];
      ExpensesFaultSticks(es[..|es| - 1], i);
    }
  }

  lemma {:induction false} SettlementsFaultSticks(ts: seq<Transfer>, i: nat)
    requires i <= |ts| && SettlementsFault(ts[..i]).Some?
    ensures SettlementsFault(ts) == SettlementsFault(ts[..i])
  {
    if i == |ts| {
      assert ts[..i] == ts;
    } else {
      assert ts[..|ts| - 1][..i] == ts[..i];
      SettlementsFaultSticks(ts[..|ts| - 1], i);
    }
  }

  lemma {:induction false} PaymentsFaultSticks(ps: seq<Portion>, i: nat)
    requires i <= |ps| && PaymentsFault(ps[..i]).Some?
    ensures PaymentsFault(ps) == PaymentsFault(ps[..i])
  {
    if i == |ps| {
      assert ps[..i] == ps;
    } else {
      assert ps[..|ps| - 1][..i] == ps[..i];
      PaymentsFaultSticks(ps[..|ps| - 1], i);
    }
  }

  // ── Which fault is reported ────────────────────────────────────────────────

  /** Every contribution before `k` is positive and by someone new. */
  ghost predicate SoundUpTo(ps: seq<Portion>, k: nat)
    requires k <= |ps|
  {
    && (forall i :: 0 <= i < k ==> ps[i].minor > 0)
    && forall i, j :: 0 <= i < j < k ==> ps[i].userId != ps[j].userId
  }

  lemma SoundPrefix(ps: seq<Portion>, k: nat)
    requires k <= |ps|
    ensures PaymentsFault(ps[..k]) == None <==> SoundUpTo(ps, k)
  {
    PaymentsFaultless(ps[..k]);
    if SoundUpTo(ps, k) {
      forall p | p in ps[..k] ensures p.minor > 0 {
      }
    }
    if PaymentsFault(ps[..k]) == None {
      forall i | 0 <= i < k ensures ps[i].minor > 0 {
        assert ps[..k][i] in ps[..k];
      }
      forall i, j | 0 <= i < j < k ensures ps[i].userId != ps[j].userId {
        assert ps[..k][i].userId != ps[..k][j].userId;
      }
    }
  }

  /** The first contribution that is not positive, or by someone seen before, gives the fault. */
  lemma PaymentsFaultMeans(ps: seq<Portion>, k: nat)
    requires k < |ps| && SoundUpTo(ps, k) && !SoundUpTo(ps, k + 1)
    ensures PaymentsFault(ps) == Some(if ps[k].minor <= 0 then BadContribution else DuplicateContributor)
  {
    SoundPrefix(ps, k);
    SoundPrefix(ps, k + 1);
    assert ps[..k + 1][..k] == ps[..k];
    PaymentsFaultSticks(ps, k + 1);
  }

  /**
   An expense without payments, with a bad contribution, with contributions that miss
   the amount, or with shares that miss it, is reported as just that, in this order.
   */
  lemma ExpenseFaultMeans(e: Expense)
    ensures e.payments == [] ==> ExpenseFault(e) == Some(NoPayments)
    ensures e.payments != [] && !SoundUpTo(e.payments, |e.payments|) ==>
      ExpenseFault(e) == Some(BadContribution) || ExpenseFault(e) == Some(DuplicateContributor)
    ensures forall k :: 0 <= k < |e.payments| && SoundUpTo(e.payments, k) && !SoundUpTo(e.payments, k + 1) ==>
      ExpenseFault(e) == Some(if e.payments[k].minor <= 0 then BadContribution else DuplicateContributor)
    ensures e.payments != [] && SoundUpTo(e.payments, |e.payments|) ==>
      ExpenseFault(e) == if Sum(e.payments, Minor()) != e.amountMinor then Some(ContributionMismatch)
                         else if Sum(e.participants, Minor()) != e.amountMinor then Some(ShareMismatch) else None
  {
    var ps := e.payments;
    SoundPrefix(ps, |ps|);
    assert ps[..|ps|] == ps;
    OnlyPaymentFaults(ps);
    forall k | 0 <= k < |ps| && SoundUpTo(ps, k) && !SoundUpTo(ps, k + 1)
      ensures ExpenseFault(e) == Some(if ps[k].minor <= 0 then BadContribution else DuplicateContributor)
    {
      PaymentsFaultMeans(ps, k);
    }
  }

  lemma {:induction false} OnlyPaymentFaults(ps: seq<Portion>)
    ensures PaymentsFault(ps) in {None, Some(BadContribution), Some(DuplicateContributor)}
  {
    if ps != [] {
      OnlyPaymentFaults(ps[..|ps| - 1]);
    }
  }

  /** The first faulty expense is reported before any later one and before any settlement. */
  lemma FirstExpenseFault(b: Book, i: nat)
    requires i < |b.expenses| && ExpenseFault(b.expenses[i]).Some?
    requires forall j :: 0 <= j < i ==> ExpenseFault(b.expenses[j]) == None
    ensures BookFault(b) == ExpenseFault(b.expenses[i])
  {
    NoExpenseFault(b.expenses, i);
    assert b.expenses[..i + 1][..i] == b.expenses[..i];
    ExpensesFaultSticks(b.expenses, i + 1);
  }

  lemma {:induction false} NoExpenseFault(es: seq<Expense>, i: nat)
    requires i <= |es| && forall j :: 0 <= j < i ==> ExpenseFault(es[j]) == None
    ensures ExpensesFault(es[..i]) == None
  {
    if i > 0 {
      NoExpenseFault(es, i - 1);
      assert es[..i][..i - 1] == es[..i - 1];
    }
  }

  /** Past faultless expenses, the first settlement of nothing, or to oneself, is reported. */
  lemma FirstSettlementFault(b: Book, i: nat)
    requires (forall j :: 0 <= j < |b.expenses| ==> ExpenseFault(b.expenses[j]) == None) && i < |b.settlements|
    requires forall j :: 0 <= j < i ==> b.settlements[j].amountMinor > 0 && b.settlements[j].fromUserId != b.settlements[j].toUserId
    requires b.settlements[i].amountMinor <= 0 || b.settlements[i].fromUserId == b.settlements[i].toUserId
    ensures BookFault(b) == Some(if b.settlements[i].amountMinor <= 0 then BadSettlementAmount else SelfSettlement)
  {
    var ts := b.settlements;
    NoExpenseFault(b.expenses, |b.expenses|);
    assert b.expenses[..|b.expenses|] == b.expenses;
    SettlementsFaultless(ts[..i]);
    assert ts[..i + 1][..i] == ts[..i];
    SettlementsFaultSticks(ts, i + 1);
  }

  // ── Amounts ────────────────────────────────────────────────────────────────

  function Minor(): Portion -> int { (p: Portion) => p.minor }

  function MinorOf(u: UserId): Portion -> int { (p: Portion) => if p.userId == u then p.minor else 0 }

  function Total(ps: seq<Portion>): int { Sum(ps, Minor()) }

  /** What `u` contributed to, or owes of, one side of an expense. */
  function At(ps: seq<Portion>, u: UserId): int { Sum(ps, MinorOf(u)) }

  function ExpenseNet(u: UserId): Expense -> int { (e: Expense) => At(e.payments, u) - At(e.participants, u) }

  /** Effect of a transfer on `u`: paying raises the net, receiving lowers it. */
  function TransferNet(u: UserId): Transfer -> int {
    (t: Transfer) => (if t.fromUserId == u then t.amountMinor else 0) - (if t.toUserId == u then t.amountMinor else 0)
  }

  /** Paid minus received by `u` over a list of transfers. */
  function Flow(ts: seq<Transfer>, u: UserId): int { Sum(ts, TransferNet(u)) }

  /** The net position of `u` in a book. */
  function Net(b: Book, u: UserId): int {
    Sum(b.expenses, ExpenseNet(u)) + Flow(b.settlements, u)
  }

  // ── Who a book mentions ────────────────────────────────────────────────────

  function ExpenseParties(es: seq<Expense>): set<UserId> {
    if es == [] then {}
    else
      var e := es[|es| - 1];
      ExpenseParties(es[..|es| - 1]) + Users(e.payments) + Users(e.participants)
  }

  function TransferParties(ts: seq<Transfer>): set<UserId> {
    if ts == [] then {}
    else TransferParties(ts[..|ts| - 1]) + {ts[|ts| - 1].fromUserId, ts[|ts| - 1].toUserId}
  }

  function Parties(b: Book): set<UserId> {
    ExpenseParties(b.expenses) + TransferParties(b.settlements)
  }

}
