/**
 What can enter the ledger of a trip: validated expense requests, soft deletes and
 settlements.  Every ledger these can produce is well formed in the sense the
 balance engine checks, so the engine never rejects one.
 */
module TripLedger {
  import opened Wrappers
  import opened Sums
  import opened Ledger
  import opened NetBalances
  import opened PairLists
  import opened PairwiseDebts
  import opened Simplify
  import opened SettleUp
  import opened Reconciliation
  import Splits

  type Raw = Splits.Raw

  const MIN_AMOUNT_MINOR := 1
  const MAX_AMOUNT_MINOR := 100_000_000_000

  // ── The request body and its schema ────────────────────────────────────────

  /** A create-expense request; `participantIds` is read by EQUAL, `participants` by the other types. */
  datatype Body = Body(
    amountMinor: int,
    splitType: Splits.SplitType,
    paidByUserId: Option<UserId>,
    payments: Option<seq<Portion>>,
    participantIds: Option<seq<UserId>>,
    participants: Option<seq<Raw>>)

  predicate AmountInRange(amountMinor: int) { MIN_AMOUNT_MINOR <= amountMinor <= MAX_AMOUNT_MINOR }

  /** The indexes the uniqueness refinement reports: those whose id occurred before. */
  method DuplicateIndexes(ids: seq<UserId>) returns (issues: seq<nat>)
    ensures forall i: nat :: i in issues <==> i < |ids| && ids[i] in ids[..i]
    ensures issues == [] <==> Distinct(ids)
  {
    issues := [];
    var seen: set<UserId> := {};
    for i := 0 to |ids|
      invariant forall u :: u in seen <==> u in ids[..i]
      invariant forall k: nat :: k in issues <==> k < i && ids[k] in ids[..k]
    {
      assert ids[..i + 1] == ids[..i] + [ids[i]];
      if ids[i] in seen { issues := issues + [i]; }
      seen := seen + {ids[i]};
    }
    NoRepeatIffDistinct(ids, issues);
  }

  lemma NoRepeatIffDistinct(ids: seq<UserId>, issues: seq<nat>)
    requires forall i: nat :: i in issues <==> i < |ids| && ids[i] in ids[..i]
    ensures issues == [] <==> Distinct(ids)
  {
    if issues == [] {
      forall i, j | 0 <= i < j < |ids| ensures ids[i] != ids[j] {
        assert j !in issues;
        assert ids[..j][i] == ids[i];
      }
    } else {
      var j := issues[0];
      assert j in issues;
      var i :| 0 <= i < j && ids[..j][i] == ids[j];
    }
  }

  function PortionIds(ps: seq<Portion>): seq<UserId> { seq(|ps|, i requires 0 <= i < |ps| => ps[i].userId) }

  predicate PaymentsInRange(ps: seq<Portion>) { ps != [] && forall i :: 0 <= i < |ps| ==> ps[i].minor >= 1 }

  function FigureRange(t: Splits.SplitType): (int, Option<int>) {
    match t
    case PERCENT => (1, Some(Splits.TOTAL_BASIS_POINTS))
    case SHARES => (1, Some(Splits.MAX_SHARE_UNITS))
    case _ => (0, None)
  }

  predicate FiguresAddUp(b: Body, ps: seq<Raw>) {
    && (b.splitType == Splits.EXACT ==> Splits.TotalFigures(ps) == b.amountMinor)
    && (b.splitType == Splits.PERCENT ==> Splits.TotalFigures(ps) == Splits.TOTAL_BASIS_POINTS)
  }

  ghost predicate PaymentsOk(b: Body) {
    && (b.paidByUserId.Some? || b.payments.Some?)
    && (b.payments.Some? ==>
          var ps := b.payments.value;
          PaymentsInRange(ps) && Distinct(PortionIds(ps)) && Total(ps) == b.amountMinor)
  }

  /** What the schema lets through. */
  ghost predicate SchemaOk(b: Body) {
    && AmountInRange(b.amountMinor)
    && PaymentsOk(b)
    && if b.splitType == Splits.EQUAL then
         b.participantIds.Some? ==> b.participantIds.value != [] && Distinct(b.participantIds.value)
       else
         && b.participants.Some?
         && var ps := b.participants.value; var (lo, hi) := FigureRange(b.splitType);
            ps != [] && Splits.FiguresWithin(ps, lo, hi) && Distinct(Splits.Ids(ps)) && FiguresAddUp(b, ps)
  }

  method SumOfPayments(ps: seq<Portion>) returns (sum: int)
    ensures sum == Total(ps)
  {
    sum := 0;
    for i := 0 to |ps|
      invariant sum == Total(ps[..i])
    {
      SumPrefixStep(ps, Minor(), i);
      sum := sum + ps[i].minor;
    }
    assert ps[..|ps|] == ps;
  }

  method PaymentsPass(b: Body) returns (ok: bool)
    ensures ok <==> PaymentsOk(b)
  {
    if b.payments.None? { return b.paidByUserId.Some?; }
    var ps := b.payments.value;
    if !PaymentsInRange(ps) { return false; }
    var issues := DuplicateIndexes(PortionIds(ps));
    var sum := SumOfPayments(ps);
    return issues == [] && sum == b.amountMinor;
  }

  method ValidateBody(b: Body) returns (ok: bool)
    ensures ok <==> SchemaOk(b)
  {
    if !AmountInRange(b.amountMinor) { return false; }
    var paid := PaymentsPass(b);
    if !paid { return false; }
    if b.splitType == Splits.EQUAL {
      if b.participantIds.None? { return true; }
      if b.participantIds.value == [] { return false; }
      var issues := DuplicateIndexes(b.participantIds.value);
      return issues == [];
    }
    if b.participants.None? || b.participants.value == [] { return false; }
    var ps := b.participants.value;
    var (lo, hi) := FigureRange(b.splitType);
    var total := Splits.SumFigures(ps, lo, hi);
    if total.None? { return false; }
    var issues := DuplicateIndexes(Splits.Ids(ps));
    return issues == [] && FiguresAddUp(b, ps);
  }

  // ── Creating an expense ────────────────────────────────────────────────────

  datatype ExpenseRow = ExpenseRow(expense: Expense, createdById: UserId, deleted: bool)

  /** A trip: its members in listing order, and the rows of its ledger. */
  datatype Trip = Trip(members: seq<UserId>, rows: seq<ExpenseRow>, settlements: seq<Transfer>)

  datatype Outcome = Accepted | BadRequest | Forbidden | NotFound | Broken

  function EffectivePayments(b: Body): seq<Portion> {
    if b.payments.Some? && b.payments.value != [] then b.payments.value
    else if b.paidByUserId.Some? then [Portion(b.paidByUserId.value, b.amountMinor)]
    else []
  }

  /** Position of the entry of `u`, or the length when there is none. */
  function EntryOf(seen: seq<Raw>, u: UserId): (k: nat)
    ensures k <= |seen| && forall i :: 0 <= i < k ==> seen[i].userId != u
    ensures k < |seen| ==> seen[k].userId == u
  {
    if seen == [] || seen[0].userId == u then 0
    else
      var k := 1 + EntryOf(seen[1..], u);
      assert forall i :: 1 <= i < k ==> seen[i] == seen[1..][i - 1];
      k
  }

  /** `Map.set`: a known user keeps the place and gets the new value, a new user goes last. */
  function SetEntry(seen: seq<Raw>, p: Raw): (r: seq<Raw>)
    ensures Splits.DistinctRaw(seen) ==> Splits.DistinctRaw(r)
  {
    var k := EntryOf(seen, p.userId);
    if k < |seen| then seen[k := p] else seen + [p]
  }

  function Deduplicated(ps: seq<Raw>): (r: seq<Raw>)
    ensures Splits.DistinctRaw(r)
  {
    if ps == [] then [] else SetEntry(Deduplicated(ps[..|ps| - 1]), ps[|ps| - 1])
  }

  function Bare(ids: seq<UserId>): seq<Raw> { seq(|ids|, i requires 0 <= i < |ids| => Splits.Raw(ids[i], None)) }

  /** Who takes part, and with what figure; empty when the request names nobody. */
  function RawParticipants(b: Body, members: seq<UserId>): seq<Raw> {
    if b.splitType == Splits.EQUAL then
      if b.participantIds.None? || b.participantIds.value == [] then Bare(members)
      else Deduplicated(Bare(b.participantIds.value))
    else if b.participants.None? then []
    else Deduplicated(b.participants.value)
  }

  predicate AllIn(ids: seq<UserId>, users: seq<UserId>) { forall i :: 0 <= i < |ids| ==> ids[i] in users }

  method EveryoneIn(ids: seq<UserId>, users: set<UserId>) returns (ok: bool)
    ensures ok <==> forall i :: 0 <= i < |ids| ==> ids[i] in users
  {
    for i := 0 to |ids|
      invariant forall k :: 0 <= k < i ==> ids[k] in users
    {
      if ids[i] !in users { return false; }
    }
    return true;
  }

  /** `actor` asks the service to create an expense; the split types other than EQUAL are behind a flag. */
  ghost function Create(t: Trip, actor: UserId, b: Body, splitTypesEnabled: bool): (Trip, Outcome) {
    var payments, participants := EffectivePayments(b), RawParticipants(b, t.members);
    if !SchemaOk(b) || (b.splitType != Splits.EQUAL && !splitTypesEnabled) then (t, BadRequest)
    else if actor !in t.members then (t, Forbidden)
    else if !AllIn(PortionIds(payments), t.members) || participants == [] then (t, BadRequest)
    else if !AllIn(Splits.Ids(participants), t.members) then (t, BadRequest)
    else if !AllIn(PortionIds(payments), Splits.Ids(participants)) then (t, BadRequest)
    else
      var split := Splits.Compute(b.splitType, b.amountMinor, participants, payments[0].userId);
      if split.Refused? then (t, BadRequest)
      else if Total(split.portions) != b.amountMinor then (t, Broken)
      else
        var row := ExpenseRow(Expense(b.amountMinor, payments, split.portions), actor, false);
        (t.(rows := t.rows + [row]), Accepted)
  }

  function SoftDelete(t: Trip, actor: UserId, id: nat): (Trip, Outcome) {
    if id >= |t.rows| || t.rows[id].deleted then (t, NotFound)
    else if actor !in t.members || t.rows[id].createdById != actor then (t, Forbidden)
    else (t.(rows := t.rows[id := t.rows[id].(deleted := true)]), Accepted)
  }

  /** The body schema, then the guards of the service in their order. */
  function Settle(t: Trip, actor: UserId, s: Transfer): (Trip, Outcome) {
    if !AmountInRange(s.amountMinor) || s.fromUserId == s.toUserId then (t, BadRequest)
    else if actor !in t.members then (t, Forbidden)
    else if s.fromUserId !in t.members || s.toUserId !in t.members then (t, BadRequest)
    else (t.(settlements := t.settlements + [s]), Accepted)
  }

  // ── The stored trip ────────────────────────────────────────────────────────

  function Active(rows: seq<ExpenseRow>): seq<Expense> {
    if rows == [] then []
    else Active(rows[..|rows| - 1]) + if rows[|rows| - 1].deleted then [] else [rows[|rows| - 1].expense]
  }

  /** What `findForBalances` and `findCompletedForBalances` hand to the engine. */
  function BookOf(t: Trip): Book { Book(Active(t.rows), t.settlements) }

  datatype Totals = Totals(paid: int, share: int)

  function PaidIn(u: UserId): Expense -> int { (e: Expense) => At(e.payments, u) }

  function OwedIn(u: UserId): Expense -> int { (e: Expense) => At(e.participants, u) }

  function AmountOf(): Expense -> int { (e: Expense) => e.amountMinor }

  function TotalsOf(totals: map<UserId, Totals>, u: UserId): Totals { if u in totals then totals[u] else Totals(0, 0) }

  datatype Summary = Summary(
    totalAmountMinor: int,
    totalReimbursedMinor: int,
    totals: map<UserId, Totals>,
    nets: seq<NetBalance>,
    pairwise: seq<Transfer>,
    simplified: seq<Transfer>)

  ghost predicate IsSummary(members: seq<UserId>, book: Book, includeSimplified: bool, s: Summary) {
    && s.totalAmountMinor == Sum(book.expenses, AmountOf())
    && s.totalReimbursedMinor == TotalMoved(book.settlements)
    && (forall u :: TotalsOf(s.totals, u) == Totals(Sum(book.expenses, PaidIn(u)), Sum(book.expenses, OwedIn(u))))
    && IsReport(members, book, s.nets)
    && IsPairwise(book, s.pairwise)
    && s.simplified == if includeSimplified then Plan(s.nets) else []
  }

  method AddPayments(start: map<UserId, Totals>, ps: seq<Portion>) returns (totals: map<UserId, Totals>)
    ensures forall u :: TotalsOf(totals, u) == TotalsOf(start, u).(paid := TotalsOf(start, u).paid + At(ps, u))
  {
    totals := start;
    for i := 0 to |ps|
      invariant forall u :: TotalsOf(totals, u) == TotalsOf(start, u).(paid := TotalsOf(start, u).paid + At(ps[..i], u))
    {
      PortionStep(ps, i);
      var p := ps[i];
      var t := TotalsOf(totals, p.userId);
      totals := totals[p.userId := t.(paid := t.paid + p.minor)];
    }
    assert ps[..|ps|] == ps;
  }

  method AddShares(start: map<UserId, Totals>, ps: seq<Portion>) returns (totals: map<UserId, Totals>)
    ensures forall u :: TotalsOf(totals, u) == TotalsOf(start, u).(share := TotalsOf(start, u).share + At(ps, u))
  {
    totals := start;
    for i := 0 to |ps|
      invariant forall u :: TotalsOf(totals, u) == TotalsOf(start, u).(share := TotalsOf(start, u).share + At(ps[..i], u))
    {
      PortionStep(ps, i);
      var p := ps[i];
      var t := TotalsOf(totals, p.userId);
      totals := totals[p.userId := t.(share := t.share + p.minor)];
    }
    assert ps[..|ps|] == ps;
  }

  method TotalsByUser(es: seq<Expense>) returns (totals: map<UserId, Totals>, totalAmountMinor: int)
    ensures forall u :: TotalsOf(totals, u) == Totals(Sum(es, PaidIn(u)), Sum(es, OwedIn(u)))
    ensures totalAmountMinor == Sum(es, AmountOf())
  {
    totals, totalAmountMinor := map[], 0;
    for i := 0 to |es|
      invariant forall u :: TotalsOf(totals, u) == Totals(Sum(es[..i], PaidIn(u)), Sum(es[..i], OwedIn(u)))
      invariant totalAmountMinor == Sum(es[..i], AmountOf())
    {
      assert es[..i + 1][..i] == es[..i];
      totalAmountMinor := totalAmountMinor + es[i].amountMinor;
      totals := AddPayments(totals, es[i].payments);
      totals := AddShares(totals, es[i].participants);
    }
    assert es[..|es|] == es;
  }

  method Reimbursed(ts: seq<Transfer>) returns (sum: int)
    ensures sum == TotalMoved(ts)
  {
    sum := 0;
    for i := 0 to |ts|
      invariant sum == TotalMoved(ts[..i])
    {
      SumPrefixStep(ts, Moved(), i);
      sum := sum + ts[i].amountMinor;
    }
    assert ts[..|ts|] == ts;
  }

  class TripStore {
    var members: seq<UserId>
    var rows: seq<ExpenseRow>
    var settlements: seq<Transfer>

    ghost function State(): Trip
      reads this
    {
      Trip(members, rows, settlements)
    }

    constructor (members: seq<UserId>)
      ensures State() == Trip(members, [], [])
    {
      this.members, rows, settlements := members, [], [];
    }

    method CreateExpense(actor: UserId, b: Body, splitTypesEnabled: bool) returns (outcome: Outcome)
      modifies this`rows
      ensures (State(), outcome) == Create(old(State()), actor, b, splitTypesEnabled)
    {
      var ok := ValidateBody(b);
      if !ok || (b.splitType != Splits.EQUAL && !splitTypesEnabled) { return BadRequest; }
      if actor !in members { return Forbidden; }
      var memberIds := set u | u in members;
      var effectivePayments := EffectivePayments(b);
      var payersIn := EveryoneIn(PortionIds(effectivePayments), memberIds);
      var rawParticipants := RawParticipants(b, members);
      if !payersIn || rawParticipants == [] { return BadRequest; }
      var participantsIn := EveryoneIn(Splits.Ids(rawParticipants), memberIds);
      if !participantsIn { return BadRequest; }
      var participantUserIds := set u | u in Splits.Ids(rawParticipants);
      var payersTakePart := EveryoneIn(PortionIds(effectivePayments), participantUserIds);
      if !payersTakePart { return BadRequest; }
      var split := Splits.Calculate(b.splitType, b.amountMinor, rawParticipants, effectivePayments[0].userId);
      if split.Refused? { return BadRequest; }
      var shareSum := SumOfPayments(split.portions);
      if shareSum != b.amountMinor { return Broken; }
      rows := rows + [ExpenseRow(Expense(b.amountMinor, effectivePayments, split.portions), actor, false)];
      return Accepted;
    }

    method SoftDeleteExpense(actor: UserId, id: nat) returns (outcome: Outcome)
      modifies this`rows
      ensures (State(), outcome) == SoftDelete(old(State()), actor, id)
    {
      if id >= |rows| || rows[id].deleted { return NotFound; }
      if actor !in members { return Forbidden; }
      if rows[id].createdById != actor { return Forbidden; }
      rows := rows[id := rows[id].(deleted := true)];
      return Accepted;
    }

    method CreateSettlement(actor: UserId, s: Transfer) returns (outcome: Outcome)
      modifies this`settlements
      ensures (State(), outcome) == Settle(old(State()), actor, s)
    {
      if !AmountInRange(s.amountMinor) { return BadRequest; }
      if s.fromUserId == s.toUserId { return BadRequest; }
      if actor !in members { return Forbidden; }
      if s.fromUserId !in members { return BadRequest; }
      if s.toUserId !in members { return BadRequest; }
      settlements := settlements + [s];
      return Accepted;
    }

    /** The balances endpoint: on a well-formed trip it never throws. */
    method Balances(includeSimplified: bool) returns (r: Result<Summary>)
      ensures r.Err? ==> BookFault(BookOf(State())) == Some(r.fault)
      ensures r.Ok? ==> IsSummary(members, BookOf(State()), includeSimplified, r.value)
      ensures TripOk(State()) ==> r.Ok?
    {
      var book := Book(Active(rows), settlements);
      var totals, totalAmountMinor := TotalsByUser(book.expenses);
      var totalReimbursedMinor := Reimbursed(book.settlements);
      if TripOk(State()) { TripOkIsValid(State()); }
      var nets := ComputeNetBalances(members, book);
      if nets.Err? { return Err(nets.fault); }
      var pairwise := ComputePairwiseDebts(members, book);
      // Both engine functions accept the same ledgers: the second cannot throw here.
      assert pairwise.Ok?;
      var simplified: seq<Transfer> := [];
      if includeSimplified {
        simplified := SimplifyDebts(nets.value);
      }
      return Ok(Summary(totalAmountMinor, totalReimbursedMinor, totals, nets.value, pairwise.value, simplified));
    }
  }

  // ── What every reachable trip satisfies ────────────────────────────────────

  /** Valid, in range, with non-negative shares of distinct users among whom are the payers. */
  ghost predicate ExpenseOk(e: Expense) {
    && ValidExpense(e) && NonNegativeShares(e)
    && AmountInRange(e.amountMinor)
    && DistinctUsers(e.participants)
    && AllIn(PortionIds(e.payments), PortionIds(e.participants))
  }

  ghost predicate TripOk(t: Trip) {
    && Distinct(t.members)
    && (forall i :: 0 <= i < |t.rows| ==> ExpenseOk(t.rows[i].expense))
    && forall i :: 0 <= i < |t.settlements| ==> ValidTransfer(t.settlements[i]) && AmountInRange(t.settlements[i].amountMinor)
  }

  lemma {:induction false} ActiveAreRows(rows: seq<ExpenseRow>)
    ensures forall e :: e in Active(rows) ==> exists i :: 0 <= i < |rows| && rows[i].expense == e && !rows[i].deleted
  {
    if rows != [] {
      var n := |rows| - 1;
      ActiveAreRows(rows[..n]);
      forall e | e in Active(rows) ensures exists i :: 0 <= i < |rows| && rows[i].expense == e && !rows[i].deleted {
        if e in Active(rows[..n]) {
          var i :| 0 <= i < n && rows[..n][i].expense == e && !rows[..n][i].deleted;
          assert rows[i].expense == e;
        } else {
          assert rows[n].expense == e;
        }
      }
    }
  }

  lemma TripOkIsValid(t: Trip)
    requires TripOk(t)
    ensures BookFault(BookOf(t)) == None
    ensures forall e :: e in BookOf(t).expenses ==> ExpenseOk(e)
  {
    ActiveAreRows(t.rows);
    FaultlessIffValid(BookOf(t));
  }

  // ── Creation keeps the trip well formed ────────────────────────────────────

  /** On a request the schema let through, deduplication changes nothing. */
  lemma {:induction false} DistinctStay(ps: seq<Raw>)
    requires Splits.DistinctRaw(ps)
    ensures Deduplicated(ps) == ps
  {
    if ps != [] {
      var n := |ps| - 1;
      DistinctStay(ps[..n]);
      forall i | 0 <= i < n ensures ps[..n][i].userId != ps[n].userId {
      }
      assert ps == ps[..n] + [ps[n]];
    }
  }

  lemma ParticipantsDistinct(b: Body, members: seq<UserId>)
    requires Distinct(members)
    ensures Splits.DistinctRaw(RawParticipants(b, members))
  {
  }

  lemma DistinctPortions(ps: seq<Portion>)
    requires Distinct(PortionIds(ps))
    ensures DistinctUsers(ps)
  {
    forall i, j | 0 <= i < j < |ps| ensures ps[i].userId != ps[j].userId {
      assert PortionIds(ps)[i] != PortionIds(ps)[j];
    }
  }

  lemma PaymentsValid(b: Body)
    requires SchemaOk(b)
    ensures var ps := EffectivePayments(b);
            ps != [] && DistinctUsers(ps) && Total(ps) == b.amountMinor && forall p :: p in ps ==> p.minor > 0
  {
    if b.payments.Some? {
      DistinctPortions(b.payments.value);
    } else {
      SumOne(Portion(b.paidByUserId.value, b.amountMinor), Minor());
    }
  }

  lemma CreateKeepsOk(t: Trip, actor: UserId, b: Body, splitTypesEnabled: bool)
    requires TripOk(t)
    ensures TripOk(Create(t, actor, b, splitTypesEnabled).0)
    ensures !Create(t, actor, b, splitTypesEnabled).1.Broken?
  {
    var payments, participants := EffectivePayments(b), RawParticipants(b, t.members);
    if SchemaOk(b) {
      PaymentsValid(b);
      ParticipantsDistinct(b, t.members);
      CreatedExpenseOk(b, payments, participants);
    }
  }

  lemma CreatedExpenseOk(b: Body, payments: seq<Portion>, participants: seq<Raw>)
    requires AmountInRange(b.amountMinor) && Splits.DistinctRaw(participants)
    requires payments != [] && DistinctUsers(payments) && Total(payments) == b.amountMinor
    requires forall p :: p in payments ==> p.minor > 0
    ensures var split := Splits.Compute(b.splitType, b.amountMinor, participants, payments[0].userId);
            split.Shares? ==>
              && Total(split.portions) == b.amountMinor
              && (AllIn(PortionIds(payments), Splits.Ids(participants)) ==>
                    ExpenseOk(Expense(b.amountMinor, payments, split.portions)))
  {
    Splits.ComputeIsSound(b.splitType, b.amountMinor, participants, payments[0].userId);
    var split := Splits.Compute(b.splitType, b.amountMinor, participants, payments[0].userId);
    if split.Shares? {
      assert PortionIds(split.portions) == Splits.Ids(participants);
      forall i, j | 0 <= i < j < |split.portions| ensures split.portions[i].userId != split.portions[j].userId {
        assert participants[i].userId != participants[j].userId;
      }
    }
  }

  lemma DistinctIdsAreDistinct(ps: seq<Raw>)
    requires Distinct(Splits.Ids(ps))
    ensures Splits.DistinctRaw(ps)
  {
    forall i, j | 0 <= i < j < |ps| ensures ps[i].userId != ps[j].userId {
      assert Splits.Ids(ps)[i] != Splits.Ids(ps)[j];
    }
  }

  /** The calculators never refuse what the schema let through. */
  lemma CalculatorAccepts(b: Body, members: seq<UserId>)
    requires SchemaOk(b) && RawParticipants(b, members) != []
    requires AllIn(PortionIds(EffectivePayments(b)), Splits.Ids(RawParticipants(b, members)))
    ensures EffectivePayments(b) != []
    ensures Splits.Compute(b.splitType, b.amountMinor, RawParticipants(b, members), EffectivePayments(b)[0].userId).Shares?
  {
    PaymentsValid(b);
    if b.splitType == Splits.EQUAL {
      assert PortionIds(EffectivePayments(b))[0] == EffectivePayments(b)[0].userId;
    } else {
      DistinctIdsAreDistinct(b.participants.value);
      DistinctStay(b.participants.value);
    }
  }

  /** Everyone named in the request has a place in it: members all, and each payer a participant. */
  ghost predicate Placed(t: Trip, actor: UserId, b: Body) {
    var payers, participants := PortionIds(EffectivePayments(b)), Splits.Ids(RawParticipants(b, t.members));
    && actor in t.members && participants != []
    && AllIn(payers, t.members) && AllIn(participants, t.members) && AllIn(payers, participants)
  }

  /** An expense is accepted exactly when its body passes the schema, its type is enabled and everyone is placed. */
  lemma AcceptedIff(t: Trip, actor: UserId, b: Body, splitTypesEnabled: bool)
    requires TripOk(t)
    ensures Create(t, actor, b, splitTypesEnabled).1.Accepted?
            <==> SchemaOk(b) && (b.splitType == Splits.EQUAL || splitTypesEnabled) && Placed(t, actor, b)
  {
    var participants := RawParticipants(b, t.members);
    assert |Splits.Ids(participants)| == |participants|;
    CreateKeepsOk(t, actor, b, splitTypesEnabled);
    if SchemaOk(b) && Placed(t, actor, b) {
      CalculatorAccepts(b, t.members);
    }
  }

  // ── What a request asks for, and what is recorded of it ────────────────────

  /** Who is said to have paid, and how much. */
  ghost predicate AsPaid(b: Body, payments: seq<Portion>) {
    if b.payments.Some? then payments == b.payments.value
    else b.paidByUserId.Some? && payments == [Portion(b.paidByUserId.value, b.amountMinor)]
  }

  /** Who is to take part: those named, or all members when an EQUAL request names nobody. */
  ghost predicate AsNamed(b: Body, members: seq<UserId>, ids: seq<UserId>) {
    if b.splitType == Splits.EQUAL then ids == if b.participantIds.Some? then b.participantIds.value else members
    else b.participants.Some? && |ids| == |b.participants.value| && forall i :: 0 <= i < |ids| ==> ids[i] == b.participants.value[i].userId
  }

  lemma PaidAsAsked(b: Body)
    requires SchemaOk(b)
    ensures AsPaid(b, EffectivePayments(b))
  {
  }

  lemma BareDistinct(ids: seq<UserId>)
    requires Distinct(ids)
    ensures Splits.DistinctRaw(Bare(ids)) && Splits.Ids(Bare(ids)) == ids
  {
  }

  lemma NamedAsAsked(b: Body, members: seq<UserId>)
    requires SchemaOk(b)
    ensures AsNamed(b, members, Splits.Ids(RawParticipants(b, members)))
    ensures b.splitType != Splits.EQUAL ==> RawParticipants(b, members) == b.participants.value
  {
    if b.splitType == Splits.EQUAL {
      BareDistinctMembers(members);
      if b.participantIds.Some? {
        BareDistinct(b.participantIds.value);
        DistinctStay(Bare(b.participantIds.value));
      }
    } else {
      DistinctIdsAreDistinct(b.participants.value);
      DistinctStay(b.participants.value);
    }
  }

  lemma BareDistinctMembers(members: seq<UserId>)
    ensures Splits.Ids(Bare(members)) == members
  {
  }

  /**
   An accepted request appends one row and changes nothing else: its creator and amount
   are the request's, its payments those the request lists, else the one payer's of the
   whole, and its participants those the request names, in order.
   */
  lemma CreateRecords(t: Trip, actor: UserId, b: Body, splitTypesEnabled: bool)
    requires Create(t, actor, b, splitTypesEnabled).1.Accepted?
    ensures var r := Create(t, actor, b, splitTypesEnabled).0;
            && |r.rows| == |t.rows| + 1 && r.rows[..|t.rows|] == t.rows
            && r.members == t.members && r.settlements == t.settlements
            && var row := r.rows[|t.rows|];
               && row.createdById == actor && !row.deleted && row.expense.amountMinor == b.amountMinor
               && AsPaid(b, row.expense.payments)
               && exists ids :: AsNamed(b, t.members, ids) && |ids| == |row.expense.participants|
                                && forall i :: 0 <= i < |ids| ==> row.expense.participants[i].userId == ids[i]
  {
    var r := Create(t, actor, b, splitTypesEnabled).0;
    var payments, participants := EffectivePayments(b), RawParticipants(b, t.members);
    PaidAsAsked(b);
    NamedAsAsked(b, t.members);
    assert r.rows[..|t.rows|] == t.rows;
    SharesKeepIds(b, participants, payments[0].userId);
    assert AsNamed(b, t.members, Splits.Ids(participants));
  }

  lemma SharesKeepIds(b: Body, participants: seq<Raw>, payer: UserId)
    requires b.amountMinor >= 0 && Splits.Compute(b.splitType, b.amountMinor, participants, payer).Shares?
    ensures var portions := Splits.Compute(b.splitType, b.amountMinor, participants, payer).portions;
            |portions| == |participants| && forall i :: 0 <= i < |portions| ==> portions[i].userId == Splits.Ids(participants)[i]
  {
  }

  /**
   And each participant's share: in an EQUAL split the same for all, with what is left
   over for the first payer; the stated amount in an EXACT one; the stated proportion,
   within one minor unit, in the others.
   */
  lemma CreateShares(t: Trip, actor: UserId, b: Body, splitTypesEnabled: bool, i: nat)
    requires TripOk(t) && Create(t, actor, b, splitTypesEnabled).1.Accepted?
    requires i < |Create(t, actor, b, splitTypesEnabled).0.rows[|t.rows|].expense.participants|
    ensures var e := Create(t, actor, b, splitTypesEnabled).0.rows[|t.rows|].expense; var p := e.participants[i];
            && e.payments != []
            && if b.splitType == Splits.EQUAL then
                 p.minor == b.amountMinor / |e.participants|
                            + if p.userId == e.payments[0].userId then b.amountMinor % |e.participants| else 0
               else
                 && b.participants.Some? && i < |b.participants.value| && b.participants.value[i].figure.Some?
                 && var figure := b.participants.value[i].figure.value;
                    && (b.splitType == Splits.EXACT ==> p.minor == figure)
                    && (b.splitType == Splits.PERCENT ==> Splits.WithinUnit(p.minor, figure, b.amountMinor, 10_000))
                    && (b.splitType == Splits.SHARES ==>
                          Splits.WithinUnit(p.minor, figure, b.amountMinor, Sum(b.participants.value, Splits.Figure())))
  {
    var payments, participants := EffectivePayments(b), RawParticipants(b, t.members);
    NamedAsAsked(b, t.members);
    ParticipantsDistinct(b, t.members);
    SharesKeepIds(b, participants, payments[0].userId);
    Splits.ComputeFigures(b.splitType, b.amountMinor, participants, payments[0].userId, i);
  }

  /** The ids that must be the trip's: payers and participants. */
  function PayerIds(b: Body): seq<UserId> {
    if b.payments.Some? then PortionIds(b.payments.value) else if b.paidByUserId.Some? then [b.paidByUserId.value] else []
  }

  function NamedIds(b: Body, members: seq<UserId>): seq<UserId> {
    if b.splitType == Splits.EQUAL then (if b.participantIds.Some? then b.participantIds.value else members)
    else if b.participants.Some? then Splits.Ids(b.participants.value)
    else []
  }

  /** A body in the figures of the schema: amounts, uniqueness, ranges and sums. */
  ghost predicate WellFormed(b: Body) {
    && 1 <= b.amountMinor <= 100_000_000_000
    && (if b.payments.Some? then
          && b.payments.value != [] && (forall p :: p in b.payments.value ==> p.minor >= 1)
          && Distinct(PayerIds(b)) && Sum(b.payments.value, Minor()) == b.amountMinor
        else b.paidByUserId.Some?)
    && if b.splitType == Splits.EQUAL then
         b.participantIds.Some? ==> b.participantIds.value != [] && Distinct(b.participantIds.value)
       else
         && b.participants.Some?
         && var ps := b.participants.value;
            && ps != [] && Distinct(Splits.Ids(ps)) && (forall i :: 0 <= i < |ps| ==> ps[i].figure.Some?)
            && (b.splitType == Splits.EXACT ==>
                  (forall i :: 0 <= i < |ps| ==> ps[i].figure.value >= 0) && Sum(ps, Splits.Figure()) == b.amountMinor)
            && (b.splitType == Splits.PERCENT ==>
                  (forall i :: 0 <= i < |ps| ==> 1 <= ps[i].figure.value <= 10_000) && Sum(ps, Splits.Figure()) == 10_000)
            && (b.splitType == Splits.SHARES ==> forall i :: 0 <= i < |ps| ==> 1 <= ps[i].figure.value <= 1_000_000)
  }

  lemma SchemaIsWellFormed(b: Body)
    ensures SchemaOk(b) <==> WellFormed(b)
  {
    if b.payments.Some? {
      PositivePayments(b.payments.value);
    }
  }

  lemma PositivePayments(ps: seq<Portion>)
    ensures PaymentsInRange(ps) <==> ps != [] && forall p :: p in ps ==> p.minor >= 1
  {
    if forall p :: p in ps ==> p.minor >= 1 {
      forall i | 0 <= i < |ps| ensures ps[i].minor >= 1 {
        assert ps[i] in ps;
      }
    }
  }

  lemma SameMembersNamed(b: Body, members: seq<UserId>)
    requires SchemaOk(b)
    ensures PortionIds(EffectivePayments(b)) == PayerIds(b)
    ensures Splits.Ids(RawParticipants(b, members)) == NamedIds(b, members)
  {
    NamedAsAsked(b, members);
  }

  /**
   The outcome of a request, in its own figures: a malformed or disabled one is bad, an
   outsider's is forbidden, and then it is accepted exactly when it names somebody, all
   of them members, and every payer takes part.
   */
  lemma CreateOutcome(t: Trip, actor: UserId, b: Body, splitTypesEnabled: bool)
    requires TripOk(t)
    ensures Create(t, actor, b, splitTypesEnabled).1 ==
            if !WellFormed(b) || (b.splitType != Splits.EQUAL && !splitTypesEnabled) then BadRequest
            else if actor !in t.members then Forbidden
            else if NamedIds(b, t.members) != []
                    && (forall u :: u in PayerIds(b) ==> u in t.members && u in NamedIds(b, t.members))
                    && (forall u :: u in NamedIds(b, t.members) ==> u in t.members)
            then Accepted else BadRequest
    ensures !Create(t, actor, b, splitTypesEnabled).1.Accepted? ==> Create(t, actor, b, splitTypesEnabled).0 == t
  {
    SchemaIsWellFormed(b);
    AcceptedIff(t, actor, b, splitTypesEnabled);
    CreateKeepsOk(t, actor, b, splitTypesEnabled);
    if SchemaOk(b) {
      SameMembersNamed(b, t.members);
    }
  }

  /** Only a live expense is deleted, only by its creator while a member, and nothing else changes. */
  lemma DeletionOutcome(t: Trip, actor: UserId, id: nat)
    ensures var (r, outcome) := SoftDelete(t, actor, id);
            && (outcome.NotFound? <==> id >= |t.rows| || t.rows[id].deleted)
            && (outcome.Accepted? <==> id < |t.rows| && !t.rows[id].deleted && actor in t.members && actor == t.rows[id].createdById)
            && (outcome.NotFound? || outcome.Accepted? || outcome.Forbidden?)
            && (!outcome.Accepted? ==> r == t)
            && (outcome.Accepted? ==>
                  && r.members == t.members && r.settlements == t.settlements && |r.rows| == |t.rows|
                  && forall k :: 0 <= k < |t.rows| ==> r.rows[k] == if k == id then t.rows[k].(deleted := true) else t.rows[k])
  {
  }

  /** A settlement between two different members, asked for by a member, is appended; any other is refused. */
  lemma SettlementOutcome(t: Trip, actor: UserId, s: Transfer)
    ensures var (r, outcome) := Settle(t, actor, s);
            && (outcome.Accepted? <==>
                  && 1 <= s.amountMinor <= 100_000_000_000 && s.fromUserId != s.toUserId
                  && actor in t.members && s.fromUserId in t.members && s.toUserId in t.members)
            && (outcome.Forbidden? <==> 1 <= s.amountMinor <= 100_000_000_000 && s.fromUserId != s.toUserId && actor !in t.members)
            && (outcome.Accepted? || outcome.Forbidden? || outcome.BadRequest?)
            && r == if outcome.Accepted? then Trip(t.members, t.rows, t.settlements + [s]) else t
  {
  }

  // ── Runs ───────────────────────────────────────────────────────────────────

  datatype Command =
    | CreateExpense(actor: UserId, body: Body, splitTypesEnabled: bool)
    | DeleteExpense(actor: UserId, id: nat)
    | CreateSettlement(actor: UserId, transfer: Transfer)
    | SetMembers(members: seq<UserId>)

  /** Membership may change in any way that lists nobody twice. */
  ghost function Execute(t: Trip, c: Command): Trip {
    match c
    case CreateExpense(actor, body, enabled) => Create(t, actor, body, enabled).0
    case DeleteExpense(actor, id) => SoftDelete(t, actor, id).0
    case CreateSettlement(actor, transfer) => Settle(t, actor, transfer).0
    case SetMembers(members) => if Distinct(members) then t.(members := members) else t
  }

  ghost function Run(t: Trip, commands: seq<Command>): Trip {
    if commands == [] then t else Execute(Run(t, commands[..|commands| - 1]), commands[|commands| - 1])
  }

  lemma {:induction false} RunKeepsOk(t: Trip, commands: seq<Command>)
    requires TripOk(t)
    ensures TripOk(Run(t, commands))
  {
    if commands != [] {
      var before, last := Run(t, commands[..|commands| - 1]), commands[|commands| - 1];
      RunKeepsOk(t, commands[..|commands| - 1]);
      if last.CreateExpense? {
        CreateKeepsOk(before, last.actor, last.body, last.splitTypesEnabled);
      }
    }
  }

  /** Both engine functions accept a well-formed trip, and what they report settles and reconciles. */
  lemma OkLedger(t: Trip, nets: seq<NetBalance>, pairwise: seq<Transfer>)
    requires TripOk(t)
    ensures BookFault(BookOf(t)) == None
    ensures IsReport(t.members, BookOf(t), nets) ==> Sum(nets, NetMinor()) == 0 && Settles(Plan(nets), nets)
    ensures IsPairwise(BookOf(t), pairwise) ==> forall u :: Flow(pairwise, u) == -Net(BookOf(t), u)
  {
    TripOkIsValid(t);
    FaultlessIffValid(BookOf(t));
    if IsReport(t.members, BookOf(t), nets) {
      ReportSumsToZero(t.members, BookOf(t), nets);
      PlanSettles(nets);
    }
    if IsPairwise(BookOf(t), pairwise) {
      forall u: UserId ensures Flow(pairwise, u) == -Net(BookOf(t), u) {
        PairwiseReconciles(BookOf(t), pairwise, u);
      }
    }
  }

  /**
   Whatever was created, deleted, settled and however the members changed, both
   engine functions accept the ledger, the nets sum to zero, the settle-up plan
   clears them, and the pairwise view reconciles with them for every user.
   */
  lemma ReachableLedger(members: seq<UserId>, commands: seq<Command>, nets: seq<NetBalance>, pairwise: seq<Transfer>)
    requires Distinct(members)
    ensures var t := Run(Trip(members, [], []), commands);
            && BookFault(BookOf(t)) == None
            && (IsReport(t.members, BookOf(t), nets) ==> Sum(nets, NetMinor()) == 0 && Settles(Plan(nets), nets))
            && (IsPairwise(BookOf(t), pairwise) ==> forall u :: Flow(pairwise, u) == -Net(BookOf(t), u))
  {
    RunKeepsOk(Trip(members, [], []), commands);
    OkLedger(Run(Trip(members, [], []), commands), nets, pairwise);
  }

  // ── Who may change what ────────────────────────────────────────────────────

  predicate DeletedBy(c: Command, row: ExpenseRow, id: nat) { c.DeleteExpense? && c.id == id && c.actor == row.createdById }

  predicate SettledBy(c: Command, transfer: Transfer) { c.CreateSettlement? && c.transfer == transfer }

  ghost predicate Deleted(commands: seq<Command>, row: ExpenseRow, id: nat) { exists c :: c in commands && DeletedBy(c, row, id) }

  ghost predicate Settled(commands: seq<Command>, transfer: Transfer) { exists c :: c in commands && SettledBy(c, transfer) }

  /** Nothing recorded is lost or altered, except that the creator of an expense marks it deleted. */
  ghost predicate Extends(before: Trip, after: Trip, commands: seq<Command>) {
    && |before.rows| <= |after.rows| && before.settlements <= after.settlements
    && (forall i :: 0 <= i < |before.rows| ==>
          after.rows[i] == before.rows[i]
          || (after.rows[i] == before.rows[i].(deleted := true) && Deleted(commands, before.rows[i], i)))
    && forall i :: |before.settlements| <= i < |after.settlements| ==> Settled(commands, after.settlements[i])
  }

  /** A command of someone outside the trip changes nothing, and a new settlement is between two members. */
  lemma ExecuteExtends(t: Trip, c: Command)
    ensures Extends(t, Execute(t, c), [c])
    ensures !c.SetMembers? && c.actor !in t.members ==> Execute(t, c) == t
    ensures |Execute(t, c).settlements| > |t.settlements| ==>
      c.transfer.fromUserId in t.members && c.transfer.toUserId in t.members && c.transfer.fromUserId != c.transfer.toUserId
  {
    assert c in [c];
  }

  lemma AskedStill(init: seq<Command>, last: Command)
    ensures forall row, id :: Deleted(init, row, id) || Deleted([last], row, id) ==> Deleted(init + [last], row, id)
    ensures forall transfer :: Settled(init, transfer) || Settled([last], transfer) ==> Settled(init + [last], transfer)
  {
    assert forall c :: c in init + [last] <==> c in init || c in [last];
  }

  lemma ExtendsThen(a: Trip, b: Trip, e: Trip, init: seq<Command>, last: Command)
    requires Extends(a, b, init) && Extends(b, e, [last])
    ensures Extends(a, e, init + [last])
  {
    AskedStill(init, last);
    forall i | |a.settlements| <= i < |e.settlements| ensures Settled(init + [last], e.settlements[i]) {
      if i < |b.settlements| {
        assert e.settlements[i] == b.settlements[i];
      }
    }
  }

  /**
   Over any history an expense stays as it was recorded until its own creator deletes
   it, and then only its flag changes; settlements are only ever added, by request.
   */
  lemma {:induction false} HistoryExtends(t: Trip, commands: seq<Command>)
    ensures Extends(t, Run(t, commands), commands)
  {
    if commands != [] {
      var init, last := commands[..|commands| - 1], commands[|commands| - 1];
      HistoryExtends(t, init);
      ExecuteExtends(Run(t, init), last);
      ExtendsThen(t, Run(t, init), Run(t, commands), init, last);
      assert commands == init + [last];
    }
  }

  /** The totals the summary shows beside a net account for it, up to settlements. */
  lemma {:induction false} TotalsExplainNet(es: seq<Expense>, u: UserId)
    ensures Sum(es, ExpenseNet(u)) == Sum(es, PaidIn(u)) - Sum(es, OwedIn(u))
  {
    if es != [] {
      TotalsExplainNet(es[..|es| - 1], u);
    }
  }

  // ── What one command does to the balances ──────────────────────────────────

  lemma ActiveLast(rows: seq<ExpenseRow>, f: Expense -> int)
    requires rows != []
    ensures var last := rows[|rows| - 1];
            Sum(Active(rows), f) == Sum(Active(rows[..|rows| - 1]), f) + if last.deleted then 0 else f(last.expense)
  {
    var init := Active(rows[..|rows| - 1]);
    assert init + [] == init;
    SumAppend(init, rows[|rows| - 1].expense, f);
  }

  /** Deleting one live row takes its expense out of the sum, whatever is summed. */
  lemma {:induction false} ActiveWithout(rows: seq<ExpenseRow>, id: nat, f: Expense -> int)
    requires id < |rows| && !rows[id].deleted
    ensures Sum(Active(rows[id := rows[id].(deleted := true)]), f) == Sum(Active(rows), f) - f(rows[id].expense)
  {
    var n := |rows| - 1;
    var after := rows[id := rows[id].(deleted := true)];
    ActiveLast(rows, f);
    ActiveLast(after, f);
    if id == n {
      assert after[..n] == rows[..n];
    } else {
      ActiveWithout(rows[..n], id, f);
      assert after[..n] == rows[..n][id := rows[id].(deleted := true)];
    }
  }

  /** A deletion takes back, from every net, exactly what the expense had put there. */
  lemma DeletionTakesBack(t: Trip, actor: UserId, id: nat, u: UserId)
    requires SoftDelete(t, actor, id).1.Accepted?
    ensures Net(BookOf(SoftDelete(t, actor, id).0), u) == Net(BookOf(t), u) - ExpenseNet(u)(t.rows[id].expense)
  {
    ActiveWithout(t.rows, id, ExpenseNet(u));
  }

  /** Creating an expense and deleting it again restores the ledger the engine reads. */
  lemma DeleteUndoesCreate(t: Trip, actor: UserId, b: Body, splitTypesEnabled: bool)
    requires Create(t, actor, b, splitTypesEnabled).1.Accepted?
    ensures var created := Create(t, actor, b, splitTypesEnabled).0;
            && SoftDelete(created, actor, |t.rows|).1.Accepted?
            && BookOf(SoftDelete(created, actor, |t.rows|).0) == BookOf(t)
  {
    var created := Create(t, actor, b, splitTypesEnabled).0;
    var gone := SoftDelete(created, actor, |t.rows|).0;
    assert created.rows[..|t.rows|] == t.rows && gone.rows[..|t.rows|] == t.rows;
    assert Active(gone.rows) == Active(t.rows) + [];
  }

  /** An accepted settlement moves its amount between the two nets it names and no other. */
  lemma SettlementMoves(t: Trip, actor: UserId, s: Transfer, u: UserId)
    requires Settle(t, actor, s).1.Accepted?
    ensures Net(BookOf(Settle(t, actor, s).0), u) == Net(BookOf(t), u) +
      if u == s.fromUserId then s.amountMinor else if u == s.toUserId then -s.amountMinor else 0
  {
    SumAppend(t.settlements, s, TransferNet(u));
  }

  // ── What a summary shows of a trip ─────────────────────────────────────────

  function LiveAmount(): ExpenseRow -> int { (r: ExpenseRow) => if r.deleted then 0 else r.expense.amountMinor }

  lemma {:induction false} LiveTotal(rows: seq<ExpenseRow>)
    ensures Sum(Active(rows), AmountOf()) == Sum(rows, LiveAmount())
  {
    if rows != [] {
      ActiveLast(rows, AmountOf());
      LiveTotal(rows[..|rows| - 1]);
    }
  }

  /**
   A summary totals the live expenses and the settlements, explains every net by what
   its user paid, owes and settled, and keeps the settle-up plan to those who asked for
   it; where it shows one, the plan clears the nets, as the pairwise list does.
   */
  lemma SummaryShows(t: Trip, includeSimplified: bool, s: Summary)
    requires TripOk(t) && IsSummary(t.members, BookOf(t), includeSimplified, s)
    ensures s.totalAmountMinor == Sum(t.rows, LiveAmount()) && s.totalReimbursedMinor == Sum(t.settlements, Moved())
    ensures forall u :: Net(BookOf(t), u) == TotalsOf(s.totals, u).paid - TotalsOf(s.totals, u).share + Flow(t.settlements, u)
    ensures Sum(s.nets, NetMinor()) == 0 && forall u :: Flow(s.pairwise, u) == -Net(BookOf(t), u)
    ensures if includeSimplified then Settles(s.simplified, s.nets) else s.simplified == []
  {
    LiveTotal(t.rows);
    OkLedger(t, s.nets, s.pairwise);
    forall u ensures Net(BookOf(t), u) == TotalsOf(s.totals, u).paid - TotalsOf(s.totals, u).share + Flow(t.settlements, u) {
      TotalsExplainNet(BookOf(t).expenses, u);
    }
  }
}
