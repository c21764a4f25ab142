/**
 Everything that writes subscriptions, mixed in any order: client verifies,
 deliveries of notifications, sweeps, and the other writers of entitlements.
 Whatever the traffic, the tables are those of a serial schedule of transactions,
 so what is proved of schedules holds of the traffic.
 */
module Traffic {
  import opened Wrappers
  import opened EntitlementRows
  import opened Ownership
  import opened PremiumCache
  import opened Register
  import opened VerificationFlow
  import Rtdn
  import Sweep

  datatype Request =
    | ClientVerify(user: UserId, token: Token, reply: Reply, at: Time)
    | Push(delivery: Rtdn.Delivery)
    | RunSweep(batch: seq<Sweep.Visit>)
    | OtherWriter(tx: Tx)

  ghost function Serve(s: Rtdn.Inbox, r: Request): Rtdn.Inbox {
    match r
    case ClientVerify(user, token, reply, at) => s.(db := VerifyFlow(s.db, user, token, reply, at).db)
    case Push(delivery) => Rtdn.Handle(s, delivery).inbox
    case RunSweep(batch) => s.(db := Sweep.Swept(s.db, batch, |batch|).db)
    case OtherWriter(tx) => s.(db := Do(s.db, tx))
  }

  /** The transactions the request runs. */
  ghost function Ran(s: Rtdn.Inbox, r: Request): seq<Tx> {
    match r
    case ClientVerify(user, token, reply, at) => VerifyRan(s.db, user, token, reply, at)
    case Push(delivery) => Rtdn.HandleRan(s, delivery)
    case RunSweep(batch) => Sweep.SweepRan(s.db, batch)
    case OtherWriter(tx) => [tx]
  }

  ghost function ServeAll(s: Rtdn.Inbox, rs: seq<Request>): Rtdn.Inbox {
    if rs == [] then s else Serve(ServeAll(s, rs[..|rs| - 1]), rs[|rs| - 1])
  }

  ghost function RanAll(s: Rtdn.Inbox, rs: seq<Request>): seq<Tx> {
    if rs == [] then [] else RanAll(s, rs[..|rs| - 1]) + Ran(ServeAll(s, rs[..|rs| - 1]), rs[|rs| - 1])
  }

  lemma ServeIsSerial(s: Rtdn.Inbox, r: Request)
    ensures Serve(s, r).db == Serial(s.db, Ran(s, r))
  {
    match r
    case ClientVerify(user, token, reply, at) => VerifyIsSerial(s.db, user, token, reply, at);
    case Push(delivery) => Rtdn.HandleIsSerial(s, delivery);
    case RunSweep(batch) => Sweep.SweepIsSerial(s.db, batch);
    case OtherWriter(tx) => SerialOne(s.db, tx);
  }

  /** The traffic leaves the tables of the schedule of all it ran. */
  lemma {:induction false} TrafficIsSerial(s: Rtdn.Inbox, rs: seq<Request>)
    ensures ServeAll(s, rs).db == Serial(s.db, RanAll(s, rs))
  {
    if rs != [] {
      var init, last := rs[..|rs| - 1], rs[|rs| - 1];
      var v := ServeAll(s, init);
      TrafficIsSerial(s, init);
      ServeIsSerial(v, last);
      SerialConcat(s.db, RanAll(s, init), Ran(v, last));
    }
  }

  /**
   After any traffic, with notifications dropped, repeated and reordered at will, a
   user is premium by subscription exactly when the last touch of some token they own
   was an entitling reconcile whose expiry is still ahead.
   */
  lemma TrafficPremium(s: Rtdn.Inbox, rs: seq<Request>, user: UserId, now: Time)
    requires Inv(s.db)
    ensures var e, txs := ServeAll(s, rs).db, RanAll(s, rs);
            PremiumBySubscription(e, user, now) <==>
            exists t :: t in e.purchases && e.purchases[t].userId == user
                        && LastTouch(s.db, txs, t).Some? && LastTouch(s.db, txs, t).value > now
  {
    TrafficIsSerial(s, rs);
    PremiumIffLastTouch(s.db, RanAll(s, rs), user, now);
  }

  // ── Owners ─────────────────────────────────────────────────────────────────

  function Verifiers(rs: seq<Request>): set<UserId> { set r | r in rs && r.ClientVerify? :: r.user }

  /** A sweep fetched its batch from the tables; the other writers grant from their own source or close what is active. */
  predicate Proper(db: Db, r: Request) {
    && (r.RunSweep? ==> forall v :: v in r.batch ==> v.token in db.purchases && db.purchases[v.token].userId == v.userId)
    && (r.OtherWriter? ==> r.tx.op.GrantOther? || r.tx.op.CloseActive?)
  }

  ghost predicate AllProper(s: Rtdn.Inbox, rs: seq<Request>) {
    rs == [] || (AllProper(s, rs[..|rs| - 1]) && Proper(ServeAll(s, rs[..|rs| - 1]).db, rs[|rs| - 1]))
  }

  lemma TurnAsserts(p: Sweep.Progress, v: Sweep.Visit)
    ensures Asserted(Sweep.TurnRan(p, v)) <= {v.userId}
  {
  }

  lemma AssertedConcat(xs: seq<Tx>, ys: seq<Tx>)
    ensures Asserted(xs + ys) <= Asserted(xs) + Asserted(ys)
  {
  }

  lemma {:induction false} FlatAsserts(parts: seq<seq<Tx>>, users: set<UserId>)
    requires forall i :: 0 <= i < |parts| ==> Asserted(parts[i]) <= users
    ensures Asserted(Flat(parts)) <= users
  {
    if parts != [] {
      FlatAsserts(parts[..|parts| - 1], users);
      AssertedConcat(Flat(parts[..|parts| - 1]), parts[|parts| - 1]);
    }
  }

  lemma SweepAsserts(db: Db, batch: seq<Sweep.Visit>)
    ensures Asserted(Sweep.SweepRan(db, batch)) <= set v | v in batch :: v.userId
  {
    var ps, users := Sweep.States(db, batch, |batch|), set v | v in batch :: v.userId;
    forall i | 0 <= i < |batch| ensures Asserted(Sweep.TurnRan(ps[i], batch[i])) <= users {
      TurnAsserts(ps[i], batch[i]);
      assert batch[i] in batch;
    }
    FlatAsserts(Sweep.TurnsRan(ps, batch), users);
  }

  lemma ServeOwners(s: Rtdn.Inbox, r: Request)
    requires Inv(s.db) && Proper(s.db, r)
    ensures Owners(Serve(s, r).db) <= Owners(s.db) + if r.ClientVerify? then {r.user} else {}
  {
    ServeIsSerial(s, r);
    SerialOwners(s.db, Ran(s, r));
    if r.Push? {
      Rtdn.HandleOwners(s, r.delivery);
    } else if r.RunSweep? {
      SweepAsserts(s.db, r.batch);
    }
  }

  lemma VerifiersSnoc(init: seq<Request>, last: Request)
    ensures Verifiers(init + [last]) == Verifiers(init) + if last.ClientVerify? then {last.user} else {}
  {
    assert forall r :: r in init + [last] <==> r in init || r == last;
  }

  lemma OwnersGrow(v: Rtdn.Inbox, e: Rtdn.Inbox, r: Request, known: set<UserId>, before: set<UserId>, after: set<UserId>)
    requires Inv(v.db) && Proper(v.db, r) && e == Serve(v, r)
    requires Owners(v.db) <= known + before && after == before + if r.ClientVerify? then {r.user} else {}
    ensures Owners(e.db) <= known + after
  {
    ServeOwners(v, r);
  }

  lemma ServeLast(s: Rtdn.Inbox, rs: seq<Request>, v: Rtdn.Inbox) returns (e: Rtdn.Inbox)
    requires rs != [] && v == ServeAll(s, rs[..|rs| - 1])
    ensures e == Serve(v, rs[|rs| - 1]) && ServeAll(s, rs) == e
  {
    e := Serve(v, rs[|rs| - 1]);
  }

  lemma {:induction false} ServedOwners(s: Rtdn.Inbox, rs: seq<Request>)
    requires Inv(s.db) && AllProper(s, rs)
    ensures Owners(ServeAll(s, rs).db) <= Owners(s.db) + Verifiers(rs)
  {
    if rs != [] {
      var init, last := rs[..|rs| - 1], rs[|rs| - 1];
      var v := ServeAll(s, init);
      ServedOwners(s, init);
      TrafficKeeps(s, init);
      VerifiersSnoc(init, last);
      assert rs == init + [last];
      var e := ServeLast(s, rs, v);
      OwnersGrow(v, e, last, Owners(s.db), Verifiers(init), Verifiers(rs));
    }
  }

  lemma TrafficKeeps(s: Rtdn.Inbox, rs: seq<Request>)
    requires Inv(s.db)
    ensures Inv(ServeAll(s, rs).db) && KeepsOwners(s.db, ServeAll(s, rs).db)
  {
    TrafficIsSerial(s, rs);
    SerialKeepsOwners(s.db, RanAll(s, rs));
  }

  /** In any traffic no token changes hands, and every new owner verified for themselves. */
  lemma TrafficOwners(s: Rtdn.Inbox, rs: seq<Request>)
    requires Inv(s.db) && AllProper(s, rs)
    ensures var e := ServeAll(s, rs).db; Inv(e) && KeepsOwners(s.db, e) && Owners(e) <= Owners(s.db) + Verifiers(rs)
  {
    TrafficKeeps(s, rs);
    ServedOwners(s, rs);
  }

  // ── Under one clock ────────────────────────────────────────────────────────

  ghost predicate InOrder(from: Time, batch: seq<Sweep.Visit>) {
    && (forall i :: 0 <= i < |batch| ==> from <= batch[i].at)
    && forall i, j :: 0 <= i < j < |batch| ==> batch[i].at <= batch[j].at
  }

  /** The request starts no earlier than the given time and its own clock readings ascend. */
  ghost predicate Follows(from: Time, r: Request) {
    match r
    case ClientVerify(_, _, _, at) => from <= at
    case Push(delivery) => from <= delivery.at
    case RunSweep(batch) => InOrder(from, batch)
    case OtherWriter(tx) => from <= tx.at && !tx.op.Tick?
  }

  function TimeAfter(from: Time, batch: seq<Sweep.Visit>, n: nat): Time
    requires n <= |batch|
  {
    if n == 0 then from else batch[n - 1].at
  }

  function EndOf(from: Time, r: Request): Time {
    match r
    case ClientVerify(_, _, _, at) => at
    case Push(delivery) => delivery.at
    case RunSweep(batch) => TimeAfter(from, batch, |batch|)
    case OtherWriter(tx) => tx.at
  }

  function EndOfAll(from: Time, rs: seq<Request>): Time {
    if rs == [] then from else EndOf(EndOfAll(from, rs[..|rs| - 1]), rs[|rs| - 1])
  }

  ghost predicate AllFollow(from: Time, rs: seq<Request>) {
    rs == [] || (AllFollow(from, rs[..|rs| - 1]) && Follows(EndOfAll(from, rs[..|rs| - 1]), rs[|rs| - 1]))
  }

  /** The schedule's readings ascend from one time to another. */
  ghost predicate Spans(from: Time, txs: seq<Tx>, to: Time) { from <= to && Ascend(from, txs) && LastAt(from, txs) <= to }

  lemma SpansConcat(from: Time, xs: seq<Tx>, mid: Time, ys: seq<Tx>, to: Time)
    requires Spans(from, xs, mid) && Spans(mid, ys, to)
    ensures Spans(from, xs + ys, to)
  {
    forall i | 0 <= i < |xs| ensures xs[i].at <= mid {
      assert i < |xs| - 1 ==> xs[i].at <= xs[|xs| - 1].at;
    }
  }

  lemma FlowSpans(db: Db, asserted: Option<UserId>, token: Token, reply: Reply, from: Time, now: Time)
    requires from <= now
    ensures Spans(from, FlowRan(db, asserted, token, reply, now), now)
  {
  }

  lemma TurnSpans(p: Sweep.Progress, v: Sweep.Visit, from: Time)
    requires from <= v.at
    ensures Spans(from, Sweep.TurnRan(p, v), v.at)
  {
    FlowSpans(p.db, Some(v.userId), v.token, v.reply, from, v.at);
  }

  lemma {:induction false} FlatSpans(parts: seq<seq<Tx>>, times: seq<Time>)
    requires |times| == |parts| + 1 && forall i :: 0 <= i < |parts| ==> Spans(times[i], parts[i], times[i + 1])
    ensures Spans(times[0], Flat(parts), times[|parts|])
  {
    if parts != [] {
      var n := |parts| - 1;
      FlatSpans(parts[..n], times[..n + 1]);
      SpansConcat(times[0], Flat(parts[..n]), times[n], parts[n], times[n + 1]);
    }
  }

  lemma SweepSpans(db: Db, batch: seq<Sweep.Visit>, from: Time)
    requires InOrder(from, batch)
    ensures Spans(from, Sweep.SweepRan(db, batch), TimeAfter(from, batch, |batch|))
  {
    var ps := Sweep.States(db, batch, |batch|);
    var parts := Sweep.TurnsRan(ps, batch);
    var times := seq(|batch| + 1, n requires 0 <= n <= |batch| => TimeAfter(from, batch, n));
    forall i | 0 <= i < |batch| ensures Spans(times[i], parts[i], times[i + 1]) {
      TurnSpans(ps[i], batch[i], times[i]);
    }
    FlatSpans(parts, times);
  }

  lemma ServeSpans(s: Rtdn.Inbox, from: Time, r: Request)
    requires Follows(from, r)
    ensures Spans(from, Ran(s, r), EndOf(from, r))
  {
    match r
    case ClientVerify(user, token, reply, at) => FlowSpans(s.db, Some(user), token, reply, from, at);
    case Push(d) =>
      if d.payload.About? {
        var token := d.payload.token;
        FlowSpans(s.db, None, token, d.reply, from, d.at);
        if token in s.db.purchases {
          FlowSpans(s.db, Some(s.db.purchases[token].userId), token, d.reply, from, d.at);
        }
      }
    case RunSweep(batch) => SweepSpans(s.db, batch, from);
    case OtherWriter(tx) =>
  }

  lemma {:induction false} TrafficSpans(s: Rtdn.Inbox, from: Time, rs: seq<Request>)
    requires AllFollow(from, rs)
    ensures Spans(from, RanAll(s, rs), EndOfAll(from, rs))
  {
    if rs != [] {
      var init, last := rs[..|rs| - 1], rs[|rs| - 1];
      var v, mid := ServeAll(s, init), EndOfAll(from, init);
      TrafficSpans(s, from, init);
      ServeSpans(v, mid, last);
      SpansConcat(from, RanAll(s, init), mid, Ran(v, last), EndOf(mid, last));
    }
  }

  /**
   Traffic served one request after the other is a run under one clock, so the cached
   pair answers what the rows answer at its end and at every later time.
   */
  lemma TrafficCoheres(s: Rtdn.Inbox, from: Time, rs: seq<Request>)
    requires Coherent(s.db, from) && AllFollow(from, rs)
    ensures var e := ServeAll(s, rs).db; var txs := RanAll(s, rs);
            && Ascend(from, txs) && e == Run(Sys(s.db, from), WithTicks(from, txs)).db
            && Coherent(e, EndOfAll(from, rs))
  {
    var txs := RanAll(s, rs);
    TrafficIsSerial(s, rs);
    TrafficSpans(s, from, rs);
    SerialIsRun(Sys(s.db, from), txs);
    RunCoheres(Sys(s.db, from), WithTicks(from, txs));
  }

  /** From empty tables on: only clients who verified own anything, and the cached pairs are right. */
  lemma FromEmptyTables(from: Time, rs: seq<Request>)
    requires AllProper(Rtdn.Inbox(Empty, {}), rs) && AllFollow(from, rs)
    ensures var e := ServeAll(Rtdn.Inbox(Empty, {}), rs).db;
            Inv(e) && Owners(e) <= Verifiers(rs) && Coherent(e, EndOfAll(from, rs))
  {
    EmptyInv();
    EmptyCoheres(from);
    TrafficOwners(Rtdn.Inbox(Empty, {}), rs);
    TrafficCoheres(Rtdn.Inbox(Empty, {}), from, rs);
  }
}
