/**
 The dashboard: one pass over the interleaved rows of many trips, against the full
 net matrix of each trip; and the per-trip check that guards account deletion.
 */
module Dashboard {
  import opened Wrappers
  import opened Sums
  import opened Ledger
  import opened NetBalances
  import opened RoundTrip
  import opened SettleUp
  import opened TripLedger

  type TripId = nat

  datatype TripExpense = TripExpense(tripId: TripId, expense: Expense, deleted: bool)

  datatype TripSettlement = TripSettlement(tripId: TripId, transfer: Transfer, completed: bool)

  function ExpensesOf(es: seq<TripExpense>, trip: TripId): seq<Expense> {
    if es == [] then []
    else
      var last := es[|es| - 1];
      ExpensesOf(es[..|es| - 1], trip) + if last.tripId == trip && !last.deleted then [last.expense] else []
  }

  function SettlementsOf(ss: seq<TripSettlement>, trip: TripId): seq<Transfer> {
    if ss == [] then []
    else
      var last := ss[|ss| - 1];
      SettlementsOf(ss[..|ss| - 1], trip) + if last.tripId == trip && last.completed then [last.transfer] else []
  }

  /** The ledger the balances endpoint reads for one trip. */
  function BookOfTrip(es: seq<TripExpense>, ss: seq<TripSettlement>, trip: TripId): Book {
    Book(ExpensesOf(es, trip), SettlementsOf(ss, trip))
  }

  function SettledOutBy(u: UserId): Transfer -> int { (t: Transfer) => if t.fromUserId == u then t.amountMinor else 0 }

  function SettledInTo(u: UserId): Transfer -> int { (t: Transfer) => if t.toUserId == u then t.amountMinor else 0 }

  /** `userNet`: the closed form of one user's net from four sums. */
  function UserNet(paidMinor: int, shareMinor: int, settledOutMinor: int, settledInMinor: int): int {
    paidMinor - shareMinor + settledOutMinor - settledInMinor
  }

  lemma {:induction false} FlowIsSentLessReceived(ts: seq<Transfer>, u: UserId)
    ensures Flow(ts, u) == Sum(ts, SettledOutBy(u)) - Sum(ts, SettledInTo(u))
  {
    if ts != [] {
      FlowIsSentLessReceived(ts[..|ts| - 1], u);
    }
  }

  /** The scalar form agrees with the user's entry of the matrix. */
  lemma UserNetIsNet(b: Book, u: UserId)
    ensures Net(b, u) == UserNet(
      Sum(b.expenses, PaidIn(u)), Sum(b.expenses, OwedIn(u)),
      Sum(b.settlements, SettledOutBy(u)), Sum(b.settlements, SettledInTo(u)))
  {
    TotalsExplainNet(b.expenses, u);
    FlowIsSentLessReceived(b.settlements, u);
  }

  // ── The grouped aggregates ─────────────────────────────────────────────────

  datatype Settled = Settled(settledOutMinor: int, settledInMinor: int)

  function ExpenseTotals(totals: map<TripId, Totals>, trip: TripId): Totals {
    if trip in totals then totals[trip] else Totals(0, 0)
  }

  function SettledTotals(totals: map<TripId, Settled>, trip: TripId): Settled {
    if trip in totals then totals[trip] else Settled(0, 0)
  }

  method AddOwnRows(start: int, ps: seq<Portion>, viewer: UserId) returns (sum: int)
    ensures sum == start + At(ps, viewer)
  {
    sum := start;
    for i := 0 to |ps|
      invariant sum == start + At(ps[..i], viewer)
    {
      PortionStep(ps, i);
      if ps[i].userId == viewer { sum := sum + ps[i].minor; }
    }
    assert ps[..|ps|] == ps;
  }

  /** What the viewer paid for and owes over the live expenses of one trip. */
  function TripTotals(es: seq<TripExpense>, trip: TripId, viewer: UserId): Totals {
    Totals(Sum(ExpensesOf(es, trip), PaidIn(viewer)), Sum(ExpensesOf(es, trip), OwedIn(viewer)))
  }

  function TripSettled(ss: seq<TripSettlement>, trip: TripId, viewer: UserId): Settled {
    Settled(Sum(SettlementsOf(ss, trip), SettledOutBy(viewer)), Sum(SettlementsOf(ss, trip), SettledInTo(viewer)))
  }

  lemma ExpensesStep(es: seq<TripExpense>, i: nat, trip: TripId)
    requires i < |es|
    ensures ExpensesOf(es[..i + 1], trip) ==
      if es[i].tripId == trip && !es[i].deleted then ExpensesOf(es[..i], trip) + [es[i].expense] else ExpensesOf(es[..i], trip)
  {
    assert es[..i + 1][..i] == es[..i] && es[..i + 1][i] == es[i];
  }

  lemma SettlementsStep(ss: seq<TripSettlement>, i: nat, trip: TripId)
    requires i < |ss|
    ensures SettlementsOf(ss[..i + 1], trip) ==
      if ss[i].tripId == trip && ss[i].completed then SettlementsOf(ss[..i], trip) + [ss[i].transfer] else SettlementsOf(ss[..i], trip)
  {
    assert ss[..i + 1][..i] == ss[..i] && ss[..i + 1][i] == ss[i];
  }

  lemma NextExpense(es: seq<TripExpense>, i: nat, trip: TripId, viewer: UserId)
    requires i < |es|
    ensures var e, before := es[i].expense, TripTotals(es[..i], trip, viewer);
            TripTotals(es[..i + 1], trip, viewer) ==
            if es[i].tripId == trip && !es[i].deleted
            then Totals(before.paid + At(e.payments, viewer), before.share + At(e.participants, viewer))
            else before
  {
    ExpensesStep(es, i, trip);
    SumAppend(ExpensesOf(es[..i], trip), es[i].expense, PaidIn(viewer));
    SumAppend(ExpensesOf(es[..i], trip), es[i].expense, OwedIn(viewer));
  }

  lemma NextSettlement(ss: seq<TripSettlement>, i: nat, trip: TripId, viewer: UserId)
    requires i < |ss|
    ensures var t, before := ss[i].transfer, TripSettled(ss[..i], trip, viewer);
            TripSettled(ss[..i + 1], trip, viewer) ==
            if ss[i].tripId == trip && ss[i].completed
            then Settled(before.settledOutMinor + SettledOutBy(viewer)(t), before.settledInMinor + SettledInTo(viewer)(t))
            else before
  {
    SettlementsStep(ss, i, trip);
    SumAppend(SettlementsOf(ss[..i], trip), ss[i].transfer, SettledOutBy(viewer));
    SumAppend(SettlementsOf(ss[..i], trip), ss[i].transfer, SettledInTo(viewer));
  }

  ghost predicate AllTotals(totals: map<TripId, Totals>, es: seq<TripExpense>, tripIds: set<TripId>, viewer: UserId) {
    forall t :: t in tripIds ==> ExpenseTotals(totals, t) == TripTotals(es, t, viewer)
  }

  ghost predicate AllSettled(totals: map<TripId, Settled>, ss: seq<TripSettlement>, tripIds: set<TripId>, viewer: UserId) {
    forall t :: t in tripIds ==> SettledTotals(totals, t) == TripSettled(ss, t, viewer)
  }

  /** One more row: the accumulator of its trip moves by the viewer's own part, the others stay. */
  lemma ExpenseRowAdded(
    totals: map<TripId, Totals>, next: map<TripId, Totals>, es: seq<TripExpense>, i: nat, tripIds: set<TripId>, viewer: UserId)
    requires i < |es| && AllTotals(totals, es[..i], tripIds, viewer)
    requires forall t :: t in tripIds && (t != es[i].tripId || es[i].deleted) ==> ExpenseTotals(next, t) == ExpenseTotals(totals, t)
    requires es[i].tripId in tripIds && !es[i].deleted ==>
      var acc, e := ExpenseTotals(totals, es[i].tripId), es[i].expense;
      ExpenseTotals(next, es[i].tripId) == Totals(acc.paid + At(e.payments, viewer), acc.share + At(e.participants, viewer))
    ensures AllTotals(next, es[..i + 1], tripIds, viewer)
  {
    forall t | t in tripIds ensures ExpenseTotals(next, t) == TripTotals(es[..i + 1], t, viewer) {
      NextExpense(es, i, t, viewer);
    }
  }

  lemma SettlementRowAdded(
    totals: map<TripId, Settled>, next: map<TripId, Settled>, ss: seq<TripSettlement>, i: nat, tripIds: set<TripId>, viewer: UserId)
    requires i < |ss| && AllSettled(totals, ss[..i], tripIds, viewer)
    requires forall t :: t in tripIds && (t != ss[i].tripId || !ss[i].completed) ==> SettledTotals(next, t) == SettledTotals(totals, t)
    requires ss[i].tripId in tripIds && ss[i].completed ==>
      var acc, t := SettledTotals(totals, ss[i].tripId), ss[i].transfer;
      SettledTotals(next, ss[i].tripId) ==
      Settled(acc.settledOutMinor + SettledOutBy(viewer)(t), acc.settledInMinor + SettledInTo(viewer)(t))
    ensures AllSettled(next, ss[..i + 1], tripIds, viewer)
  {
    forall t | t in tripIds ensures SettledTotals(next, t) == TripSettled(ss[..i + 1], t, viewer) {
      NextSettlement(ss, i, t, viewer);
    }
  }

  method ExpenseTotalsByTrip(es: seq<TripExpense>, tripIds: set<TripId>, viewer: UserId)
    returns (totals: map<TripId, Totals>)
    ensures AllTotals(totals, es, tripIds, viewer)
  {
    totals := map[];
    for i := 0 to |es|
      invariant AllTotals(totals, es[..i], tripIds, viewer)
    {
      var r := es[i];
      ghost var before := totals;
      if r.tripId in tripIds && !r.deleted {
        var acc := ExpenseTotals(totals, r.tripId);
        var paid := AddOwnRows(acc.paid, r.expense.payments, viewer);
        var share := AddOwnRows(acc.share, r.expense.participants, viewer);
        totals := totals[r.tripId := Totals(paid, share)];
      }
      ExpenseRowAdded(before, totals, es, i, tripIds, viewer);
    }
    assert es[..|es|] == es;
  }

  method SettlementTotalsByTrip(ss: seq<TripSettlement>, tripIds: set<TripId>, viewer: UserId)
    returns (totals: map<TripId, Settled>)
    ensures AllSettled(totals, ss, tripIds, viewer)
  {
    totals := map[];
    for i := 0 to |ss|
      invariant AllSettled(totals, ss[..i], tripIds, viewer)
    {
      var r := ss[i];
      ghost var before := totals;
      if r.tripId in tripIds && r.completed && (r.transfer.fromUserId == viewer || r.transfer.toUserId == viewer) {
        var acc := SettledTotals(totals, r.tripId);
        if r.transfer.fromUserId == viewer {
          acc := acc.(settledOutMinor := acc.settledOutMinor + r.transfer.amountMinor);
        }
        if r.transfer.toUserId == viewer {
          acc := acc.(settledInMinor := acc.settledInMinor + r.transfer.amountMinor);
        }
        totals := totals[r.tripId := acc];
      }
      SettlementRowAdded(before, totals, ss, i, tripIds, viewer);
    }
    assert ss[..|ss|] == ss;
  }

  // ── The dashboard ──────────────────────────────────────────────────────────

  datatype Overall = Overall(netMinor: int, owedMinor: int, oweMinor: int)

  function Identity(): int -> int { (x: int) => x }

  function Positive(): int -> int { (x: int) => if x > 0 then x else 0 }

  function Negative(): int -> int { (x: int) => if x < 0 then -x else 0 }

  method ViewerNet(
    expenseTotals: map<TripId, Totals>, settlementTotals: map<TripId, Settled>, trip: TripId,
    ghost es: seq<TripExpense>, ghost ss: seq<TripSettlement>, ghost tripIds: set<TripId>, viewer: UserId)
    returns (viewerNetMinor: int)
    requires trip in tripIds && AllTotals(expenseTotals, es, tripIds, viewer) && AllSettled(settlementTotals, ss, tripIds, viewer)
    ensures viewerNetMinor == Net(BookOfTrip(es, ss, trip), viewer)
  {
    var e := ExpenseTotals(expenseTotals, trip);
    var s := SettledTotals(settlementTotals, trip);
    UserNetIsNet(BookOfTrip(es, ss, trip), viewer);
    return UserNet(e.paid, e.share, s.settledOutMinor, s.settledInMinor);
  }

  /** Trip by trip, the viewer's net in the full ledger of that trip. */
  ghost predicate AreNets(nets: seq<int>, es: seq<TripExpense>, ss: seq<TripSettlement>, trips: seq<TripId>, viewer: UserId) {
    |nets| == |trips| && forall k :: 0 <= k < |trips| ==> nets[k] == Net(BookOfTrip(es, ss, trips[k]), viewer)
  }

  lemma NetsGrow(
    nets: seq<int>, x: int, es: seq<TripExpense>, ss: seq<TripSettlement>, trips: seq<TripId>, k: nat, viewer: UserId)
    requires k < |trips| && AreNets(nets, es, ss, trips[..k], viewer) && x == Net(BookOfTrip(es, ss, trips[k]), viewer)
    ensures AreNets(nets + [x], es, ss, trips[..k + 1], viewer)
  {
  }

  lemma NetAdded(nets: seq<int>, x: int)
    ensures Sum(nets + [x], Positive()) == Sum(nets, Positive()) + if x > 0 then x else 0
    ensures Sum(nets + [x], Negative()) == Sum(nets, Negative()) + if x < 0 then -x else 0
  {
  }

  method GetDashboard(es: seq<TripExpense>, ss: seq<TripSettlement>, trips: seq<TripId>, viewer: UserId)
    returns (nets: seq<int>, overall: Overall)
    ensures AreNets(nets, es, ss, trips, viewer)
    ensures overall == Overall(Sum(nets, Identity()), Sum(nets, Positive()), Sum(nets, Negative()))
  {
    var tripIds := set t | t in trips;
    var expenseTotals := ExpenseTotalsByTrip(es, tripIds, viewer);
    var settlementTotals := SettlementTotalsByTrip(ss, tripIds, viewer);
    var owedMinor, oweMinor := 0, 0;
    nets := [];
    for k := 0 to |trips|
      invariant AreNets(nets, es, ss, trips[..k], viewer)
      invariant owedMinor == Sum(nets, Positive()) && oweMinor == Sum(nets, Negative())
    {
      var viewerNetMinor := ViewerNet(expenseTotals, settlementTotals, trips[k], es, ss, tripIds, viewer);
      NetAdded(nets, viewerNetMinor);
      NetsGrow(nets, viewerNetMinor, es, ss, trips, k, viewer);
      if viewerNetMinor > 0 {
        owedMinor := owedMinor + viewerNetMinor;
      } else if viewerNetMinor < 0 {
        oweMinor := oweMinor + -viewerNetMinor;
      }
      nets := nets + [viewerNetMinor];
    }
    assert trips[..|trips|] == trips;
    SumIsOwedLessOwing(nets);
    overall := Overall(owedMinor - oweMinor, owedMinor, oweMinor);
  }

  lemma {:induction false} SumIsOwedLessOwing(nets: seq<int>)
    ensures Sum(nets, Identity()) == Sum(nets, Positive()) - Sum(nets, Negative())
    ensures Sum(nets, Positive()) >= 0 && Sum(nets, Negative()) >= 0
    ensures Sum(nets, Positive()) == 0 && Sum(nets, Negative()) == 0 <==> forall k :: 0 <= k < |nets| ==> nets[k] == 0
  {
    if nets != [] {
      SumIsOwedLessOwing(nets[..|nets| - 1]);
    }
  }

  /**
   Parity: the number the dashboard shows for a trip is the viewer's balance in
   whatever the balances endpoint reports for that trip, listed as a member or not.
   */
  lemma DashboardMatchesBalances(
    es: seq<TripExpense>, ss: seq<TripSettlement>, trip: TripId, viewer: UserId,
    members: seq<UserId>, report: seq<NetBalance>)
    requires Distinct(members) && IsReport(members, BookOfTrip(es, ss, trip), report)
    ensures BalanceOf(report, viewer) == Net(BookOfTrip(es, ss, trip), viewer)
    ensures forall i :: 0 <= i < |report| && report[i].userId == viewer ==>
      report[i].netMinor == Net(BookOfTrip(es, ss, trip), viewer)
  {
    ReportHoldsNets(members, BookOfTrip(es, ss, trip), report, viewer);
  }

  // ── The guard of account deletion ──────────────────────────────────────────

  method HasOutstandingBalance(es: seq<TripExpense>, ss: seq<TripSettlement>, memberships: seq<TripId>, user: UserId)
    returns (outstanding: bool)
    ensures outstanding <==> exists k :: 0 <= k < |memberships| && Net(BookOfTrip(es, ss, memberships[k]), user) != 0
  {
    for k := 0 to |memberships|
      invariant forall j :: 0 <= j < k ==> Net(BookOfTrip(es, ss, memberships[j]), user) == 0
    {
      var b := BookOfTrip(es, ss, memberships[k]);
      var paid, owed := Sum(b.expenses, PaidIn(user)), Sum(b.expenses, OwedIn(user));
      var settledOut, settledIn := Sum(b.settlements, SettledOutBy(user)), Sum(b.settlements, SettledInTo(user));
      UserNetIsNet(b, user);
      if paid - owed + settledOut - settledIn != 0 { return true; }
    }
    return false;
  }

  // ── The trips each of them looks at ────────────────────────────────────────

  const DASHBOARD_TRIP_LIMIT := 100

  datatype TripRow = TripRow(tripId: TripId, members: set<UserId>, updatedAt: int, deleted: bool)

  predicate Shown(r: TripRow, user: UserId) { user in r.members && !r.deleted }

  ghost predicate DistinctTrips(trips: seq<TripRow>) {
    forall i, j :: 0 <= i < j < |trips| ==> trips[i].tripId != trips[j].tripId
  }

  /** The trips of all membership rows, deleted ones included. */
  function Memberships(trips: seq<TripRow>, user: UserId): seq<TripId> {
    if trips == [] then []
    else Memberships(trips[..|trips| - 1], user) + if user in trips[|trips| - 1].members then [trips[|trips| - 1].tripId] else []
  }

  function ShownCount(trips: seq<TripRow>, user: UserId): nat {
    if trips == [] then 0
    else ShownCount(trips[..|trips| - 1], user) + if Shown(trips[|trips| - 1], user) then 1 else 0
  }

  function TripIds(rows: seq<TripRow>): seq<TripId> { seq(|rows|, i requires 0 <= i < |rows| => rows[i].tripId) }

  /** The first page of the user's undeleted trips, last updated first; ties fall as they may. */
  ghost predicate IsListing(trips: seq<TripRow>, user: UserId, listed: seq<TripRow>) {
    && DistinctTrips(listed)
    && (forall i :: 0 <= i < |listed| ==> listed[i] in trips && Shown(listed[i], user))
    && (forall i, j :: 0 <= i < j < |listed| ==> listed[i].updatedAt >= listed[j].updatedAt)
    && |listed| == (if ShownCount(trips, user) < DASHBOARD_TRIP_LIMIT then ShownCount(trips, user) else DASHBOARD_TRIP_LIMIT)
    && forall r, i :: r in trips && Shown(r, user) && r !in listed && 0 <= i < |listed| ==> r.updatedAt <= listed[i].updatedAt
  }

  lemma {:induction false} MembershipIff(trips: seq<TripRow>, user: UserId, trip: TripId)
    ensures trip in Memberships(trips, user) <==> exists i :: 0 <= i < |trips| && user in trips[i].members && trips[i].tripId == trip
  {
    if trips != [] {
      var n := |trips| - 1;
      MembershipIff(trips[..n], user, trip);
      assert forall i :: 0 <= i < n ==> trips[..n][i] == trips[i];
    }
  }

  predicate IsSquare(es: seq<TripExpense>, ss: seq<TripSettlement>, trip: TripId, user: UserId) {
    Net(BookOfTrip(es, ss, trip), user) == 0
  }

  ghost predicate AllSquare(es: seq<TripExpense>, ss: seq<TripSettlement>, trips: seq<TripId>, user: UserId) {
    forall k :: 0 <= k < |trips| ==> IsSquare(es, ss, trips[k], user)
  }

  lemma MembershipsSquareIff(es: seq<TripExpense>, ss: seq<TripSettlement>, trips: seq<TripRow>, user: UserId)
    ensures AllSquare(es, ss, Memberships(trips, user), user) <==>
            forall r :: r in trips && user in r.members ==> IsSquare(es, ss, r.tripId, user)
  {
    forall r | r in trips && user in r.members ensures r.tripId in Memberships(trips, user) {
      var i :| 0 <= i < |trips| && trips[i] == r;
      MembershipIff(trips, user, r.tripId);
    }
    forall k | 0 <= k < |Memberships(trips, user)|
      ensures exists r :: r in trips && user in r.members && r.tripId == Memberships(trips, user)[k]
    {
      MembershipIff(trips, user, Memberships(trips, user)[k]);
      var i :| 0 <= i < |trips| && user in trips[i].members && trips[i].tripId == Memberships(trips, user)[k];
      assert trips[i] in trips;
    }
  }

  ghost predicate Clear(nets: seq<int>) { Sum(nets, Positive()) == 0 && Sum(nets, Negative()) == 0 }

  /**
   An account may be deleted exactly when its dashboard shows nothing owed and nothing
   owing and every trip of the user that the dashboard does not list has a zero net.
   */
  lemma DeletableIff(
    es: seq<TripExpense>, ss: seq<TripSettlement>, trips: seq<TripRow>, user: UserId, listed: seq<TripRow>, nets: seq<int>)
    requires IsListing(trips, user, listed) && AreNets(nets, es, ss, TripIds(listed), user)
    ensures AllSquare(es, ss, Memberships(trips, user), user) <==>
            Clear(nets) && forall r :: r in trips && user in r.members && r !in listed ==> IsSquare(es, ss, r.tripId, user)
  {
    SumIsOwedLessOwing(nets);
    MembershipsSquareIff(es, ss, trips, user);
    assert Clear(nets) <==> forall r :: r in listed ==> IsSquare(es, ss, r.tripId, user) by {
      assert forall k :: 0 <= k < |nets| ==> listed[k] in listed && (nets[k] == 0 <==> IsSquare(es, ss, listed[k].tripId, user));
    }
  }

  function ShownRows(trips: seq<TripRow>, user: UserId): set<TripRow> { set r | r in trips && Shown(r, user) }

  lemma {:induction false} ShownAreCounted(trips: seq<TripRow>, user: UserId)
    requires DistinctTrips(trips)
    ensures |ShownRows(trips, user)| == ShownCount(trips, user)
  {
    if trips != [] {
      var init, last := trips[..|trips| - 1], trips[|trips| - 1];
      ShownAreCounted(init, user);
      assert last !in init;
      assert trips == init + [last];
      assert ShownRows(trips, user) == ShownRows(init, user) + if Shown(last, user) then {last} else {};
    }
  }

  lemma {:induction false} DistinctRows(rows: seq<TripRow>)
    requires DistinctTrips(rows)
    ensures |set r | r in rows| == |rows|
  {
    if rows != [] {
      var init, last := rows[..|rows| - 1], rows[|rows| - 1];
      DistinctRows(init);
      assert last !in init;
      assert rows == init + [last];
      assert (set r | r in rows) == (set r | r in init) + {last};
    }
  }

  /** The dashboard lists at most a hundred trips, the last updated first, and leaves out none updated later than one it lists. */
  lemma ListingMeans(trips: seq<TripRow>, user: UserId, listed: seq<TripRow>)
    requires IsListing(trips, user, listed)
    ensures |listed| <= 100
    ensures forall i :: 0 <= i < |listed| ==> listed[i] in trips && user in listed[i].members && !listed[i].deleted
    ensures forall i, j :: 0 <= i < j < |listed| ==> listed[i].updatedAt >= listed[j].updatedAt
    ensures forall r :: r in trips && user in r.members && !r.deleted && r !in listed ==>
      forall i :: 0 <= i < |listed| ==> r.updatedAt <= listed[i].updatedAt
  {
  }

  lemma SubsetOfSameSize<T>(a: set<T>, b: set<T>)
    requires a <= b && |a| == |b|
    ensures a == b
  {
    assert b == a + (b - a);
    assert |b - a| == 0;
  }

  /** Up to the limit, what the dashboard does not list is what was deleted. */
  lemma UnlistedIsDeleted(trips: seq<TripRow>, user: UserId, listed: seq<TripRow>, r: TripRow)
    requires DistinctTrips(trips) && IsListing(trips, user, listed) && ShownCount(trips, user) <= 100
    requires r in trips && user in r.members
    ensures r !in listed <==> r.deleted
  {
    ShownAreCounted(trips, user);
    DistinctRows(listed);
    SubsetOfSameSize((set l | l in listed), ShownRows(trips, user));
    assert r in listed <==> r in ShownRows(trips, user);
  }

  /** An owner deletes a trip; nothing looks at its balances, and its ledger stays. */
  function DeleteTrip(trips: seq<TripRow>, i: nat): seq<TripRow>
    requires i < |trips|
  {
    trips[i := trips[i].(deleted := true)]
  }

  /**
   When the one trip in which a user has a balance is deleted, their dashboard is clear
   and their account can not be deleted.
   */
  lemma DeletedTripBlocks(
    es: seq<TripExpense>, ss: seq<TripSettlement>, trips: seq<TripRow>, i: nat, user: UserId, listed: seq<TripRow>, nets: seq<int>)
    requires i < |trips| && user in trips[i].members && !IsSquare(es, ss, trips[i].tripId, user)
    requires forall j :: 0 <= j < |trips| && j != i && Shown(trips[j], user) ==> IsSquare(es, ss, trips[j].tripId, user)
    requires IsListing(DeleteTrip(trips, i), user, listed) && AreNets(nets, es, ss, TripIds(listed), user)
    ensures Clear(nets) && !AllSquare(es, ss, Memberships(DeleteTrip(trips, i), user), user)
  {
    var after := DeleteTrip(trips, i);
    forall k | 0 <= k < |nets| ensures nets[k] == 0 {
      assert listed[k] in after && Shown(listed[k], user);
      var j :| 0 <= j < |after| && after[j] == listed[k];
      assert j != i && trips[j] == after[j];
    }
    SumIsOwedLessOwing(nets);
    MembershipsSquareIff(es, ss, after, user);
    assert after[i] in after;
  }

  /** An expense that one user paid for another. */
  lemma PaidFor(payer: UserId, debtor: UserId, amount: int) returns (e: Expense)
    requires payer != debtor && AmountInRange(amount)
    ensures ExpenseOk(e) && ExpenseNet(payer)(e) == amount
  {
    var payment, own, share := Portion(payer, amount), Portion(payer, 0), Portion(debtor, amount);
    e := Expense(amount, [payment], [own, share]);
    SumOne(payment, Minor());
    SumOne(payment, MinorOf(payer));
    SumTwo(own, share, Minor());
    SumTwo(own, share, MinorOf(payer));
    assert PortionIds(e.payments)[0] == PortionIds(e.participants)[0];
  }

  lemma OneExpenseNet(es: seq<TripExpense>, e: Expense, trip: TripId, user: UserId)
    requires es == [TripExpense(trip, e, false)]
    ensures Net(BookOfTrip(es, [], trip), user) == ExpenseNet(user)(e)
  {
    ExpensesStep(es, 0, trip);
    assert es[..1] == es && es[..0] == [];
    assert BookOfTrip(es, [], trip) == Book([e], []);
    SumOne(e, ExpenseNet(user));
  }

  /** Such a state: a user paid for another in a trip, which its owner then deleted. */
  lemma ClearButRefused(user: UserId, other: UserId, trip: TripId)
    returns (es: seq<TripExpense>, trips: seq<TripRow>, listed: seq<TripRow>, nets: seq<int>)
    requires user != other
    ensures DistinctTrips(trips) && IsListing(trips, user, listed) && AreNets(nets, es, [], TripIds(listed), user)
    ensures (forall e :: e in es ==> ExpenseOk(e.expense))
    ensures Clear(nets) && !AllSquare(es, [], Memberships(trips, user), user)
  {
    var e := PaidFor(user, other, MAX_AMOUNT_MINOR);
    var before := [TripRow(trip, {user, other}, 0, false)];
    es, trips, listed, nets := [TripExpense(trip, e, false)], DeleteTrip(before, 0), [], [];
    OneExpenseNet(es, e, trip, user);
    assert trips[..0] == [];
    DeletedTripBlocks(es, [], before, 0, user, listed, nets);
  }

  // ── The ledger of one trip, said of the rows of all ────────────────────────

  function RowNet(trip: TripId, u: UserId): TripExpense -> int {
    (r: TripExpense) => if r.tripId == trip && !r.deleted then At(r.expense.payments, u) - At(r.expense.participants, u) else 0
  }

  function RowFlow(trip: TripId, u: UserId): TripSettlement -> int {
    (r: TripSettlement) =>
      if r.tripId == trip && r.completed then
        (if r.transfer.fromUserId == u then r.transfer.amountMinor else 0) - (if r.transfer.toUserId == u then r.transfer.amountMinor else 0)
      else 0
  }

  lemma {:induction false} ExpensesNet(es: seq<TripExpense>, trip: TripId, u: UserId)
    ensures Sum(ExpensesOf(es, trip), ExpenseNet(u)) == Sum(es, RowNet(trip, u))
  {
    if es != [] {
      var n := |es| - 1;
      ExpensesNet(es[..n], trip, u);
      ExpensesStep(es, n, trip);
      assert es[..n + 1] == es;
      SumAppend(ExpensesOf(es[..n], trip), es[n].expense, ExpenseNet(u));
    }
  }

  lemma NextFlow(ss: seq<TripSettlement>, i: nat, trip: TripId, u: UserId)
    requires i < |ss|
    ensures Flow(SettlementsOf(ss[..i + 1], trip), u) == Flow(SettlementsOf(ss[..i], trip), u) + RowFlow(trip, u)(ss[i])
  {
    SettlementsStep(ss, i, trip);
    if ss[i].tripId == trip && ss[i].completed {
      SumAppend(SettlementsOf(ss[..i], trip), ss[i].transfer, TransferNet(u));
    }
  }

  lemma {:induction false} FlowUpTo(ss: seq<TripSettlement>, i: nat, trip: TripId, u: UserId)
    requires i <= |ss|
    ensures Flow(SettlementsOf(ss[..i], trip), u) == Sum(ss[..i], RowFlow(trip, u))
  {
    if i > 0 {
      FlowUpTo(ss, i - 1, trip, u);
      NextFlow(ss, i - 1, trip, u);
      SumPrefixStep(ss, RowFlow(trip, u), i - 1);
    }
  }

  /** A user's net in a trip counts its live expenses and its completed settlements, and nothing of another trip. */
  lemma TripNetMeans(es: seq<TripExpense>, ss: seq<TripSettlement>, trip: TripId, u: UserId)
    ensures Net(BookOfTrip(es, ss, trip), u) == Sum(es, RowNet(trip, u)) + Sum(ss, RowFlow(trip, u))
  {
    ExpensesNet(es, trip, u);
    FlowUpTo(ss, |ss|, trip, u);
    assert ss[..|ss|] == ss;
  }

  /** What is owed to the viewer counts the trips where their net is positive, what they owe those where it is negative. */
  lemma {:induction false} OverallMeans(nets: seq<int>)
    ensures forall x: int :: Positive()(x) == (if x > 0 then x else 0) && Negative()(x) == (if x < 0 then -x else 0)
    ensures Sum(nets, Positive()) - Sum(nets, Negative()) == Sum(nets, Identity())
    ensures (Sum(nets, Positive()) > 0 <==> exists k :: 0 <= k < |nets| && nets[k] > 0)
    ensures (Sum(nets, Negative()) > 0 <==> exists k :: 0 <= k < |nets| && nets[k] < 0)
  {
    SumIsOwedLessOwing(nets);
    if nets != [] {
      var n := |nets| - 1;
      OverallMeans(nets[..n]);
      SumIsOwedLessOwing(nets[..n]);
      assert forall k :: 0 <= k < n ==> nets[..n][k] == nets[k];
    }
  }
}
