/**
 Fetch order against commit order.  A reconcile asks Google before its transaction takes
 the token's lock, so an answer fetched earlier may be committed later.  What a token's
 register holds is then what the last commit left, not what the latest fetch said.
 */
module FetchOrder {
  import opened Wrappers
  import opened EntitlementRows
  import opened Ownership
  import opened Register
  import opened Migration
  import opened Locality
  import opened Interleaving
  import opened Acknowledgement

  /** A reconcile that commits for a token on record. */
  predicate Fetches(tx: Tx, t: Token, owner: UserId) {
    && tx.op.Reconcile? && tx.op.token == t && (tx.op.asserted.None? || tx.op.asserted.value == owner)
  }

  /** The time such a reconcile leaves in the register. */
  function Left(tx: Tx): Option<Time>
    requires tx.op.Reconcile?
  {
    if Entitles(tx.op) && tx.op.answer.expiresAt.value > tx.at then tx.op.answer.expiresAt else None
  }

  /** The transaction does not write the register of a token on record. */
  predicate Silent(op: Op, t: Token, recorded: set<Token>) { op.Acknowledge? || Spares(op, t, recorded) }

  lemma SilentTouch(db: Db, tx: Tx, t: Token, recorded: set<Token>)
    requires Silent(tx.op, t, recorded) && recorded <= db.purchases.Keys
    ensures Touch(db, tx, t).None?
  {
  }

  lemma FetchTouch(db: Db, tx: Tx, t: Token)
    requires t in db.purchases && Fetches(tx, t, db.purchases[t].userId)
    requires tx.op.answer.knownProduct && tx.op.decidedAt <= tx.at
    ensures Touch(db, tx, t) == Some(Left(tx))
  {
  }

  /** The last fetch that is followed by nothing that writes the register decides it. */
  lemma {:induction false} LastTouchIsFetch(db: Db, txs: seq<Tx>, t: Token, n: nat)
    requires Inv(db) && t in db.purchases && n < |txs|
    requires Fetches(txs[n], t, db.purchases[t].userId) && txs[n].op.answer.knownProduct && txs[n].op.decidedAt <= txs[n].at
    requires forall m :: n < m < |txs| ==> Silent(txs[m].op, t, db.purchases.Keys)
    ensures LastTouch(db, txs, t) == Left(txs[n])
  {
    var init, last := txs[..|txs| - 1], txs[|txs| - 1];
    SerialKeepsOwners(db, init);
    var v := Serial(db, init);
    if n == |txs| - 1 {
      FetchTouch(v, last, t);
    } else {
      LastTouchIsFetch(db, init, t, n);
      SilentTouch(v, last, t, db.purchases.Keys);
    }
  }

  /** In every interleaving the register of a token on record holds what its last committed fetch left. */
  lemma LastCommitDecides(w: World, events: seq<Event>, t: Token, n: nat)
    requires WorldInv(w) && t in w.db.purchases && n < |Trace(w, events)|
    requires Fetches(Trace(w, events)[n], t, w.db.purchases[t].userId)
    requires forall m :: n < m < |Trace(w, events)| ==> Silent(Trace(w, events)[m].op, t, w.db.purchases.Keys)
    ensures var e := Play(w, events).db; t in Abs(e) && Abs(e)[t].until == Left(Trace(w, events)[n])
  {
    var txs := Trace(w, events);
    TraceIsTimely(w, events);
    assert txs[n] in txs;
    PlayIsSerial(w, events);
    SerialKeepsOwners(w.db, txs);
    LastTouchIsFetch(w.db, txs, t, n);
    LastTouchDecides(w.db, txs, t);
  }

  /**
   So the newest fetch, which committed somewhere before, wins exactly when the last
   commit left the same: when it was the last itself, or the two agree on the time.
   */
  lemma NewestFetchWinsIff(w: World, events: seq<Event>, t: Token, newest: nat, n: nat)
    requires WorldInv(w) && t in w.db.purchases && newest <= n < |Trace(w, events)|
    requires Fetches(Trace(w, events)[newest], t, w.db.purchases[t].userId)
    requires Fetches(Trace(w, events)[n], t, w.db.purchases[t].userId)
    requires Trace(w, events)[n].op.decidedAt <= Trace(w, events)[newest].op.decidedAt
    requires forall m :: n < m < |Trace(w, events)| ==> Silent(Trace(w, events)[m].op, t, w.db.purchases.Keys)
    ensures var e, txs := Play(w, events).db, Trace(w, events);
            && t in Abs(e)
            && (Abs(e)[t].until == Left(txs[newest]) <==> newest == n || Left(txs[n]) == Left(txs[newest]))
  {
    LastCommitDecides(w, events, t, n);
  }

  // ── A schedule in which the older fetch wins ───────────────────────────────

  /** Both fetch before either transaction opens; `first` commits first. */
  function InTurn(first: Op, second: Op): seq<Event> { [Begin(0, first), Begin(1, second)] + Turn(0, false) + Turn(1, false) }

  ghost predicate FetchedFor(db: Db, op: Op, t: Token, now: Time) {
    && t in db.purchases && Fetches(Tx(op, now), t, db.purchases[t].userId)
    && op.answer.knownProduct && op.decidedAt <= now && LinkOf(t, op.answer).None?
  }

  lemma DoLeaves(db: Db, after: Db, op: Op, t: Token, now: Time)
    requires Inv(db) && FetchedFor(db, op, t, now) && SameTables(after, Do(db, Tx(op, now)))
    ensures t in after.purchases && after.purchases[t].userId == db.purchases[t].userId
    ensures Abs(after)[t].until == Left(Tx(op, now))
  {
    DoKeepsInv(db, Tx(op, now));
    FetchTouch(db, Tx(op, now), t);
    TouchDecides(db, Tx(op, now), t);
  }

  lemma TurnLeaves(w: World, v: World, j: JobId, op: Op, t: Token)
    requires WorldInv(w) && Awaits(w, j, op, t) && FetchedFor(w.db, op, t, w.now) && v == Play(w, Turn(j, false))
    ensures WorldInv(v) && v.now == w.now && v.locks == w.locks && (forall k :: k != j && k in w.jobs ==> k in v.jobs && v.jobs[k] == w.jobs[k])
    ensures t in v.db.purchases && v.db.purchases[t].userId == w.db.purchases[t].userId
    ensures Abs(v.db)[t].until == Left(Tx(op, w.now))
  {
    TurnTables(w, j, false, op, t);
    TurnEnds(w, j, false, op, t);
    DoLeaves(w.db, v.db, op, t, w.now);
  }

  lemma TwoTurnsLeave(w: World, v: World, e: World, first: Op, second: Op, t: Token)
    requires WorldInv(w) && Awaits(w, 0, first, t) && Awaits(w, 1, second, t)
    requires FetchedFor(w.db, first, t, w.now) && FetchedFor(w.db, second, t, w.now)
    requires v == Play(w, Turn(0, false)) && e == Play(v, Turn(1, false))
    ensures t in Abs(e.db) && Abs(e.db)[t].until == Left(Tx(second, w.now))
  {
    TurnLeaves(w, v, 0, first, t);
    TurnLeaves(v, e, 1, second, t);
  }

  /**
   From any tables: two reconciles of a token on record that fetched before either
   opened, the later fetch committing first.  The older answer stays, so the latest
   fetch wins exactly when both leave the same.
   */
  lemma OlderFetchWins(db: Db, now: Time, t: Token, newer: Op, older: Op)
    requires Inv(db) && FetchedFor(db, newer, t, now) && FetchedFor(db, older, t, now) && older.decidedAt <= newer.decidedAt
    ensures var e := Play(Start(db, now), InTurn(newer, older)).db;
            && t in Abs(e) && Abs(e)[t].until == Left(Tx(older, now))
            && (Abs(e)[t].until == Left(Tx(newer, now)) <==> Left(Tx(older, now)) == Left(Tx(newer, now)))
  {
    var s, begins := Start(db, now), [Begin(0, newer), Begin(1, older)];
    PlayConcat(s, begins + Turn(0, false), Turn(1, false));
    PlayConcat(s, begins, Turn(0, false));
    BothAwait(db, now, newer, older, t);
    TwoTurnsLeave(Play(s, begins), Play(s, begins + Turn(0, false)), Play(s, InTurn(newer, older)), newer, older, t);
  }
}
