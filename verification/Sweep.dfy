/**
 The periodic sweeps: one bounded batch, every item reconciled against Google,
 with a gone token expired, a bad item counted and skipped, and a configuration
 error ending the run.
 */
module Sweep {
  import opened Wrappers
  import opened EntitlementRows
  import opened EntitlementStore
  import opened Ownership
  import opened Register
  import opened Migration
  import opened VerificationFlow

  /** A fetched row, with what Google replies about it and when its turn comes. */
  datatype Visit = Visit(token: Token, userId: UserId, reply: Reply, at: Time)

  datatype Summary = Summary(scanned: nat, reconciled: nat, expired: nat, failed: nat)

  datatype Progress = Progress(db: Db, summary: Summary, aborted: bool)

  /** How the loop routes the outcome of one reconcile. */
  ghost function Route(p: Progress, v: Visit, f: Flow): Progress {
    match f.result
    case Reconciled => Progress(f.db, p.summary.(reconciled := p.summary.reconciled + 1), false)
    case GoneToken => Progress(ExpireTx(p.db, v.token, v.at), p.summary.(expired := p.summary.expired + 1), false)
    case Misconfigured => p.(aborted := true)
    case _ => p.(summary := p.summary.(failed := p.summary.failed + 1))
  }

  ghost function Turn(p: Progress, v: Visit): Progress {
    if p.aborted then p else Route(p, v, ReconcileFlow(p.db, Some(v.userId), v.token, v.reply, v.at))
  }

  ghost function Swept(db: Db, batch: seq<Visit>, n: nat): Progress
    requires n <= |batch|
  {
    if n == 0 then Progress(db, Summary(|batch|, 0, 0, 0), false) else Turn(Swept(db, batch, n - 1), batch[n - 1])
  }

  method RunSweep(store: Store, isConfigured: bool, batch: seq<Visit>) returns (summary: Summary, ghost aborted: bool)
    modifies store
    ensures !isConfigured ==> store.State() == old(store.State()) && summary == Summary(0, 0, 0, 0)
    ensures isConfigured ==>
      Progress(store.State(), summary, aborted) == Swept(old(store.State()), batch, |batch|)
  {
    if !isConfigured {
      return Summary(0, 0, 0, 0), false;
    }
    summary, aborted := Summary(|batch|, 0, 0, 0), false;
    var i := 0;
    while i < |batch|
      invariant 0 <= i <= |batch| && !aborted
      invariant Progress(store.State(), summary, false) == Swept(old(store.State()), batch, i)
    {
      var v := batch[i];
      var result := ReconcileFromGoogle(store, Some(v.userId), v.token, v.reply, v.at);
      i := i + 1;
      match result {
        case Reconciled =>
          summary := summary.(reconciled := summary.reconciled + 1);
        case GoneToken =>
          store.ExpireByToken(v.token, v.at);
          summary := summary.(expired := summary.expired + 1);
        case Misconfigured =>
          aborted := true;
          AbortedSticks(old(store.State()), batch, i);
          break;
        case _ =>
          summary := summary.(failed := summary.failed + 1);
      }
    }
  }

  lemma {:induction false} AbortedSticks(db: Db, batch: seq<Visit>, n: nat)
    requires n <= |batch| && Swept(db, batch, n).aborted
    ensures Swept(db, batch, |batch|) == Swept(db, batch, n)
    decreases |batch| - n
  {
    if n < |batch| {
      AbortedSticks(db, batch, n + 1);
    }
  }

  // ── The loop's states ──────────────────────────────────────────────────────

  /** The loop's states, one after the other. */
  ghost predicate IsTrace(db: Db, batch: seq<Visit>, ps: seq<Progress>) {
    && 0 < |ps| <= |batch| + 1
    && ps[0] == Progress(db, Summary(|batch|, 0, 0, 0), false)
    && forall i :: 0 < i < |ps| ==> ps[i] == Turn(ps[i - 1], batch[i - 1])
  }

  lemma TraceExtends(db: Db, batch: seq<Visit>, ps: seq<Progress>, p: Progress)
    requires IsTrace(db, batch, ps) && |ps| <= |batch| && p == Turn(ps[|ps| - 1], batch[|ps| - 1])
    ensures IsTrace(db, batch, ps + [p])
  {
  }

  // ── A sweep is a schedule ──────────────────────────────────────────────────

  /** The transactions that one turn runs. */
  ghost function TurnRan(p: Progress, v: Visit): seq<Tx> {
    if p.aborted then []
    else if v.reply.TokenGone? then [Tx(Expire(v.token), v.at)]
    else FlowRan(p.db, Some(v.userId), v.token, v.reply, v.at)
  }

  ghost function TurnsRan(ps: seq<Progress>, batch: seq<Visit>): seq<seq<Tx>>
    requires |ps| == |batch| + 1
  {
    seq(|batch|, i requires 0 <= i < |batch| => TurnRan(ps[i], batch[i]))
  }

  lemma TurnIsSerial(p: Progress, v: Visit, r: Progress)
    requires r == Turn(p, v)
    ensures Serial(p.db, TurnRan(p, v)) == r.db
  {
    if !p.aborted {
      FlowRanIsSerial(p.db, Some(v.userId), v.token, v.reply, v.at);
      SerialOne(p.db, Tx(Expire(v.token), v.at));
    }
  }

  /** The states of a sweep, and the schedule it runs. */
  ghost function States(db: Db, batch: seq<Visit>, n: nat): (ps: seq<Progress>)
    requires n <= |batch|
    ensures |ps| == n + 1
  {
    if n == 0 then [Progress(db, Summary(|batch|, 0, 0, 0), false)]
    else
      var init := States(db, batch, n - 1);
      init + [Turn(init[n - 1], batch[n - 1])]
  }

  lemma SweptNext(db: Db, batch: seq<Visit>, n: nat, p: Progress)
    requires n < |batch| && p == Swept(db, batch, n)
    ensures Swept(db, batch, n + 1) == Turn(p, batch[n])
  {
  }

  lemma {:induction false} StatesAreTrace(db: Db, batch: seq<Visit>, ps: seq<Progress>, n: nat)
    requires n <= |batch| && ps == States(db, batch, n)
    ensures IsTrace(db, batch, ps) && ps[n] == Swept(db, batch, n)
    decreases n
  {
    if n > 0 {
      var init := States(db, batch, n - 1);
      StatesAreTrace(db, batch, init, n - 1);
      SweptNext(db, batch, n - 1, init[n - 1]);
      TraceExtends(db, batch, init, ps[n]);
    }
  }

  ghost function SweepRan(db: Db, batch: seq<Visit>): seq<Tx> { Flat(TurnsRan(States(db, batch, |batch|), batch)) }

  lemma SweepIsSerial(db: Db, batch: seq<Visit>)
    ensures Serial(db, SweepRan(db, batch)) == Swept(db, batch, |batch|).db
  {
    var ps := States(db, batch, |batch|);
    StatesAreTrace(db, batch, ps, |batch|);
    var rans, dbs := TurnsRan(ps, batch), seq(|ps|, i requires 0 <= i < |ps| => ps[i].db);
    forall i | 0 <= i < |rans| ensures Serial(dbs[i], rans[i]) == dbs[i + 1] {
      TurnIsSerial(ps[i], batch[i], ps[i + 1]);
    }
    FlatIsSerial(dbs, rans);
  }

  // ── The acknowledgement backlog ────────────────────────────────────────────

  const Billable := {ACTIVE, CANCELED, IN_GRACE_PERIOD}

  predicate InBacklog(db: Db, t: Token) {
    t in db.purchases && !db.purchases[t].acknowledged && db.purchases[t].state in Billable
  }

  /** A batch of the acknowledgement sweep: distinct rows of the backlog, with their owners. */
  ghost predicate AckBatch(db: Db, batch: seq<Visit>) {
    && (forall i :: 0 <= i < |batch| ==>
          InBacklog(db, batch[i].token) && db.purchases[batch[i].token].userId == batch[i].userId)
    && forall i, j :: 0 <= i < j < |batch| ==> batch[i].token != batch[j].token
  }

  /** The replies after which an item is still at refund risk. */
  predicate StaysUnacknowledged(v: Visit) {
    match v.reply
    case TokenGone => false
    case NotConfigured => true
    case CallFailed => true
    case Answered(a, ackAccepted) =>
      !a.knownProduct
      || (!a.acknowledged && a.state in Billable && !(IsEntitling(a.state, a.expiresAt, v.at) && ackAccepted))
  }

  /** One row is rewritten at most; no owner changes. */
  ghost predicate OnlyPurchase(before: Db, after: Db, token: Token) {
    && after.purchases.Keys == before.purchases.Keys
    && forall t :: t in before.purchases && t != token ==> after.purchases[t] == before.purchases[t]
  }

  lemma ExpiredOnItem(db: Db, token: Token, now: Time)
    requires Inv(db) && token in db.purchases
    ensures var r := ExpireTx(db, token, now);
            Inv(r) && KeepsOwners(db, r) && OnlyPurchase(db, r, token) && !InBacklog(r, token)
  {
    var expired := SetState(db, token, EXPIRED);
    SetStateKeepsInv(db, token, EXPIRED);
    CloseKeepsInv(expired, KeyOf(db.purchases[token]), Expired, now);
    CloseEffect(expired, KeyOf(db.purchases[token]), Expired, now);
  }

  /** What the reconcile of a backlog item leaves behind, in the terms the loop routes on. */
  ghost predicate ItemFlow(db: Db, v: Visit, f: Flow) {
    && Inv(f.db) && KeepsOwners(db, f.db) && OnlyPurchase(db, f.db, v.token)
    && (f.result.Misconfigured? <==> v.reply.NotConfigured?)
    && (f.result.GoneToken? <==> v.reply.TokenGone?)
    && (f.result.Reconciled? ==> (InBacklog(f.db, v.token) <==> StaysUnacknowledged(v)))
    && (!f.result.Reconciled? && !v.reply.TokenGone? ==> StaysUnacknowledged(v))
  }

  lemma FlowOnItem(db: Db, v: Visit)
    requires Inv(db) && v.token in db.purchases && db.purchases[v.token].userId == v.userId
    ensures ItemFlow(db, v, ReconcileFlow(db, Some(v.userId), v.token, v.reply, v.at))
  {
    KnownTokenFlow(db, v.token, v.reply, v.at);
    FlowKeepsInv(db, Some(v.userId), v.token, v.reply, v.at);
  }

  lemma RouteOnItem(p: Progress, v: Visit, f: Flow)
    requires Inv(p.db) && !p.aborted && InBacklog(p.db, v.token) && ItemFlow(p.db, v, f)
    ensures var r := Route(p, v, f);
            && Inv(r.db) && KeepsOwners(p.db, r.db) && OnlyPurchase(p.db, r.db, v.token)
            && (InBacklog(r.db, v.token) <==> StaysUnacknowledged(v))
            && (r.aborted <==> v.reply.NotConfigured?)
  {
    if f.result.GoneToken? {
      ExpiredOnItem(p.db, v.token, v.at);
    }
  }

  /** Every visited row of the batch is decided by its own reply; every other row is as it was. */
  ghost predicate Decided(db: Db, batch: seq<Visit>, n: nat, p: Progress)
    requires n <= |batch|
  {
    && Inv(p.db) && KeepsOwners(db, p.db) && p.db.purchases.Keys == db.purchases.Keys
    && (forall t :: t in db.purchases && (forall i :: 0 <= i < n ==> batch[i].token != t) ==>
          p.db.purchases[t] == db.purchases[t])
    && (forall i :: 0 <= i < n ==>
          if p.aborted then InBacklog(p.db, batch[i].token) ==> InBacklog(db, batch[i].token)
          else InBacklog(p.db, batch[i].token) <==> StaysUnacknowledged(batch[i]))
  }

  lemma DecidedNext(db: Db, batch: seq<Visit>, n: nat, p: Progress, r: Progress)
    requires AckBatch(db, batch) && n < |batch| && !p.aborted && Decided(db, batch, n, p)
    requires Inv(r.db) && KeepsOwners(p.db, r.db) && OnlyPurchase(p.db, r.db, batch[n].token)
    requires InBacklog(r.db, batch[n].token) <==> StaysUnacknowledged(batch[n])
    ensures Decided(db, batch, n + 1, r)
  {
  }

  /** The next turn decides its own row, whatever the ones before came to. */
  lemma TurnDecides(db: Db, batch: seq<Visit>, n: nat, p: Progress)
    requires AckBatch(db, batch) && n < |batch| && Decided(db, batch, n, p)
    ensures Decided(db, batch, n + 1, Turn(p, batch[n]))
  {
    var v := batch[n];
    assert InBacklog(db, v.token);
    if !p.aborted {
      var f := ReconcileFlow(p.db, Some(v.userId), v.token, v.reply, v.at);
      assert forall i :: 0 <= i < n ==> batch[i].token != v.token;
      assert p.db.purchases[v.token] == db.purchases[v.token];
      FlowOnItem(p.db, v);
      RouteOnItem(p, v, f);
      DecidedNext(db, batch, n, p, Route(p, v, f));
    }
  }

  lemma {:induction false} TraceDecided(db: Db, batch: seq<Visit>, ps: seq<Progress>, n: nat)
    requires Inv(db) && AckBatch(db, batch) && IsTrace(db, batch, ps) && n < |ps|
    ensures Decided(db, batch, n, ps[n])
  {
    if n > 0 {
      TraceDecided(db, batch, ps, n - 1);
      TurnDecides(db, batch, n - 1, ps[n - 1]);
    }
  }

  lemma SweptPrefix(db: Db, batch: seq<Visit>, n: nat) returns (p: Progress)
    requires Inv(db) && AckBatch(db, batch) && n <= |batch|
    ensures p == Swept(db, batch, n) && Decided(db, batch, n, p)
  {
    var ps := States(db, batch, n);
    StatesAreTrace(db, batch, ps, n);
    TraceDecided(db, batch, ps, n);
    p := ps[n];
  }

  /**
   An acknowledgement sweep never enlarges the backlog, whatever Google replies.
   Run to its end, it leaves exactly the items that failed, whose acknowledge was
   refused, or that Google reports billable with a missing or past expiry.
   */
  lemma AckSweepShrinksBacklog(db: Db, batch: seq<Visit>)
    requires Inv(db) && AckBatch(db, batch)
    ensures var p := Swept(db, batch, |batch|);
            && (forall t :: InBacklog(p.db, t) ==> InBacklog(db, t))
            && (!p.aborted ==> forall i :: 0 <= i < |batch| ==>
                  (InBacklog(p.db, batch[i].token) <==> StaysUnacknowledged(batch[i])))
  {
    var p := SweptPrefix(db, batch, |batch|);
    forall t | InBacklog(p.db, t) ensures InBacklog(db, t) {
      if exists i :: 0 <= i < |batch| && batch[i].token == t {
        var i :| 0 <= i < |batch| && batch[i].token == t;
      } else {
        assert p.db.purchases[t] == db.purchases[t];
      }
    }
  }

  /** A batch covering the whole backlog empties it exactly when every item was recovered. */
  lemma FullSweepEmptiesBacklog(db: Db, batch: seq<Visit>)
    requires Inv(db) && AckBatch(db, batch)
    requires forall t :: InBacklog(db, t) ==> exists i :: 0 <= i < |batch| && batch[i].token == t
    requires !Swept(db, batch, |batch|).aborted
    ensures (forall t :: !InBacklog(Swept(db, batch, |batch|).db, t))
            <==> (forall i :: 0 <= i < |batch| ==> !StaysUnacknowledged(batch[i]))
  {
    AckSweepShrinksBacklog(db, batch);
    var p := Swept(db, batch, |batch|);
    if forall i :: 0 <= i < |batch| ==> !StaysUnacknowledged(batch[i]) {
      forall t ensures !InBacklog(p.db, t) {
        if InBacklog(db, t) {
          var i :| 0 <= i < |batch| && batch[i].token == t;
        }
      }
    }
  }

  // ── The summary ────────────────────────────────────────────────────────────

  function Visited(s: Summary): nat { s.reconciled + s.expired + s.failed }

  lemma TurnCounts(p: Progress, v: Visit)
    requires !p.aborted
    ensures var r := Turn(p, v);
            && r.summary.scanned == p.summary.scanned
            && (r.aborted <==> v.reply.NotConfigured?)
            && Visited(r.summary) == Visited(p.summary) + if r.aborted then 0 else 1
  {
  }

  /** The counters account for every item visited before a configuration error, and for no other. */
  lemma {:induction false} SummaryAccounts(db: Db, batch: seq<Visit>, n: nat)
    requires n <= |batch|
    ensures var p := Swept(db, batch, n);
            && p.summary.scanned == |batch|
            && (p.aborted <==> exists i :: 0 <= i < n && batch[i].reply.NotConfigured?)
            && (p.aborted <==> Visited(p.summary) < n)
            && Visited(p.summary) <= n
  {
    if n > 0 {
      SummaryAccounts(db, batch, n - 1);
      var p := Swept(db, batch, n - 1);
      if !p.aborted {
        TurnCounts(p, batch[n - 1]);
      }
    }
  }

  // ── Which counter, and what becomes of the item ────────────────────────────

  /** A recorded row with its owner. */
  predicate OnRecord(db: Db, v: Visit) { v.token in db.purchases && db.purchases[v.token].userId == v.userId }

  /**
   The turn of a recorded row: an answer about a known product is reconciled, a token
   Google dropped is expired, a failing call or an unknown product fails the item and
   changes nothing, and a configuration error ends the run.
   */
  lemma TurnMeans(p: Progress, v: Visit, r: Progress)
    requires Inv(p.db) && !p.aborted && OnRecord(p.db, v) && r == Turn(p, v)
    ensures match v.reply
            case TokenGone =>
              && Ended(p.db, r.db, v.token, EXPIRED, EntitlementStatus.Expired)
              && r.summary == p.summary.(expired := p.summary.expired + 1) && !r.aborted
            case NotConfigured => r == p.(aborted := true)
            case CallFailed => r == p.(summary := p.summary.(failed := p.summary.failed + 1))
            case Answered(a, _) =>
              if a.knownProduct then
                && r.db == ReconcileFlow(p.db, Some(v.userId), v.token, v.reply, v.at).db
                && r.summary == p.summary.(reconciled := p.summary.reconciled + 1) && !r.aborted
              else r == p.(summary := p.summary.(failed := p.summary.failed + 1))
    ensures Inv(r.db) && KeepsOwners(p.db, r.db)
  {
    FlowOutcome(p.db, Some(v.userId), v.token, v.reply, v.at);
    FlowKeepsInv(p.db, Some(v.userId), v.token, v.reply, v.at);
    ForcedEndings(Sys(p.db, v.at), v.token);
    StepKeepsInv(Sys(p.db, v.at), Expire(v.token));
  }

  function Known(): Visit -> bool { (v: Visit) => v.reply.Answered? && v.reply.answer.knownProduct }

  function Gone(): Visit -> bool { (v: Visit) => v.reply.TokenGone? }

  function Failing(): Visit -> bool { (v: Visit) => v.reply.CallFailed? || (v.reply.Answered? && !v.reply.answer.knownProduct) }

  /** How many of the first `n` visits are of the kind. */
  function Tally(batch: seq<Visit>, n: nat, kind: Visit -> bool): nat
    requires n <= |batch|
  {
    if n == 0 then 0 else Tally(batch, n - 1, kind) + if kind(batch[n - 1]) then 1 else 0
  }

  ghost predicate Tallied(db: Db, batch: seq<Visit>, n: nat, p: Progress)
    requires n <= |batch|
  {
    && Inv(p.db) && KeepsOwners(db, p.db) && !p.aborted
    && p.summary == Summary(|batch|, Tally(batch, n, Known()), Tally(batch, n, Gone()), Tally(batch, n, Failing()))
  }

  lemma TalliedNext(db: Db, batch: seq<Visit>, n: nat, p: Progress, r: Progress)
    requires n < |batch| && OnRecord(db, batch[n]) && Tallied(db, batch, n, p) && r == Turn(p, batch[n])
    ensures !batch[n].reply.NotConfigured? ==> Tallied(db, batch, n + 1, r)
    ensures batch[n].reply.NotConfigured? ==> r == p.(aborted := true)
  {
    TurnMeans(p, batch[n], r);
  }

  lemma {:induction false} TraceTallied(db: Db, batch: seq<Visit>, ps: seq<Progress>, n: nat)
    requires Inv(db) && IsTrace(db, batch, ps) && n < |ps|
    requires forall i :: 0 <= i < n ==> OnRecord(db, batch[i]) && !batch[i].reply.NotConfigured?
    ensures Tallied(db, batch, n, ps[n])
  {
    if n > 0 {
      TraceTallied(db, batch, ps, n - 1);
      TalliedNext(db, batch, n - 1, ps[n - 1], ps[n]);
    }
  }

  /**
   A sweep of recorded rows counts, up to the first configuration error, every answer
   about a known product as reconciled, every dropped token as expired and every failing
   call or unknown product as failed; the error itself and what follows it count nowhere.
   */
  lemma {:induction false} SummaryMeans(db: Db, batch: seq<Visit>, n: nat)
    requires Inv(db) && n <= |batch| && forall i :: 0 <= i < |batch| ==> OnRecord(db, batch[i])
    requires forall i :: 0 <= i < n ==> !batch[i].reply.NotConfigured?
    requires n < |batch| ==> batch[n].reply.NotConfigured?
    ensures Swept(db, batch, |batch|).summary ==
            Summary(|batch|, Tally(batch, n, Known()), Tally(batch, n, Gone()), Tally(batch, n, Failing()))
    ensures Swept(db, batch, |batch|).aborted <==> n < |batch|
  {
    var ps := States(db, batch, n);
    StatesAreTrace(db, batch, ps, n);
    TraceTallied(db, batch, ps, n);
    if n < |batch| {
      StopsHere(db, batch, n, ps[n]);
    }
  }

  lemma StopsHere(db: Db, batch: seq<Visit>, n: nat, p: Progress)
    requires n < |batch| && OnRecord(db, batch[n]) && batch[n].reply.NotConfigured?
    requires Tallied(db, batch, n, p) && p == Swept(db, batch, n)
    ensures Swept(db, batch, |batch|) == p.(aborted := true)
  {
    SweptNext(db, batch, n, p);
    TalliedNext(db, batch, n, p, Turn(p, batch[n]));
    AbortedSticks(db, batch, n + 1);
  }

  /** The backlog that an acknowledgement sweep draws from. */
  lemma BacklogMeans(db: Db, t: Token)
    ensures InBacklog(db, t) <==>
            t in db.purchases && !db.purchases[t].acknowledged
            && (db.purchases[t].state == ACTIVE || db.purchases[t].state == CANCELED || db.purchases[t].state == IN_GRACE_PERIOD)
  {
  }
}
