/**
 What a transaction on one or two tokens needs to read.  Its view is the purchases of
 the tokens it locks and the rows they source; what it computes from the view alone
 is what it would have written having read every table, and leaves the view of any
 transaction on other tokens as it was.
 */
module Locality {
  import opened Wrappers
  import opened EntitlementRows
  import opened Ownership
  import opened Register
  import opened Migration

  // ── Transactions, their locks and what they read ───────────────────────────

  predicate IsTransaction(op: Op) {
    op.Reconcile? || op.Revoke? || op.Expire? || op.Acknowledge? || (op.GrantOther? && op.key.source != SUBSCRIPTION)
  }

  /** The tokens a transaction locks, sorted; a grant from another source locks none. */
  function LockOrder(op: Op): seq<Token>
    requires IsTransaction(op)
  {
    if op.GrantOther? then []
    else if op.Reconcile? && LinkOf(op.token, op.answer).Some? then
      var link := LinkOf(op.token, op.answer).value;
      if op.token < link then [op.token, link] else [link, op.token]
    else [op.token]
  }

  ghost predicate Sources(db: Db, tokens: seq<Token>, k: RowKey) {
    exists t :: t in tokens && t in db.purchases && KeyOf(db.purchases[t]) == k
  }

  /** The purchases of the tokens and the rows they source. */
  ghost function ViewOf(db: Db, tokens: seq<Token>): Db {
    Db(
      map t | t in db.purchases && t in tokens :: db.purchases[t],
      map k | k in db.rows && Sources(db, tokens, k) :: db.rows[k],
      map[])
  }

  /** What the transaction computes from what it read. */
  ghost function Writes(view: Db, op: Op, at: Time): Db { Do(view, Tx(op, at)) }

  /** The tables with a transaction's writes on top. */
  ghost function Overlay(db: Db, written: Db): Db {
    Db(db.purchases + written.purchases, db.rows + written.rows, db.cache)
  }

  // ── A transaction reads all that its writes depend on ──────────────────────

  ghost predicate SameTables(a: Db, b: Db) { a.purchases == b.purchases && a.rows == b.rows }

  lemma ViewReads(db: Db, tokens: seq<Token>)
    requires Inv(db)
    ensures var v := ViewOf(db, tokens);
            && Inv(v)
            && (forall t :: t in v.purchases <==> t in tokens && t in db.purchases)
            && (forall t :: t in v.purchases ==> v.purchases[t] == db.purchases[t])
            && (forall k :: k in v.rows ==> k in db.rows && v.rows[k] == db.rows[k])
            && (forall t :: t in v.purchases && KeyOf(db.purchases[t]) in db.rows ==> KeyOf(db.purchases[t]) in v.rows)
  {
    var v := ViewOf(db, tokens);
    forall k | k in v.rows && k.source == SUBSCRIPTION ensures v.rows[k].expiresAt.Some? && SourcedBy(v, k) {
      var t :| t in tokens && t in db.purchases && KeyOf(db.purchases[t]) == k;
      assert t in v.purchases;
    }
  }

  /** A part of a table changed like the whole, at the same keys and to the same values, makes the whole when laid over it. */
  lemma LaidOver<K, V>(all: map<K, V>, part: map<K, V>, touched: set<K>, changed: map<K, V>, whole: map<K, V>)
    requires forall k :: k in part ==> k in all && part[k] == all[k]
    requires forall k :: k !in touched ==> (k in changed <==> k in part) && (k in part ==> changed[k] == part[k])
    requires forall k :: k !in touched ==> (k in whole <==> k in all) && (k in all ==> whole[k] == all[k])
    requires forall k :: k in touched ==> (k in changed <==> k in whole) && (k in whole ==> changed[k] == whole[k])
    requires forall k :: k in all ==> k in whole
    ensures all + changed == whole
  {
  }

  lemma SetStateIsLocal(db: Db, token: Token, state: SubscriptionState)
    requires Inv(db) && token in db.purchases
    ensures token in ViewOf(db, [token]).purchases
    ensures db.purchases + SetState(ViewOf(db, [token]), token, state).purchases == SetState(db, token, state).purchases
  {
    ViewReads(db, [token]);
    LaidOver(db.purchases, ViewOf(db, [token]).purchases, {token},
      SetState(ViewOf(db, [token]), token, state).purchases, SetState(db, token, state).purchases);
  }

  lemma CloseIsLocal(db: Db, v: Db, key: RowKey, status: EntitlementStatus, at: Time)
    requires forall k :: k in v.rows ==> k in db.rows && v.rows[k] == db.rows[k]
    requires key in db.rows ==> key in v.rows
    ensures db.rows + Close(v, key, status, at).rows == Close(db, key, status, at).rows
  {
    CloseEffect(v, key, status, at);
    CloseEffect(db, key, status, at);
    LaidOver(db.rows, v.rows, {key}, Close(v, key, status, at).rows, Close(db, key, status, at).rows);
  }

  lemma ForcedIsLocal(db: Db, token: Token, state: SubscriptionState, status: EntitlementStatus, at: Time)
    requires Inv(db) && token in db.purchases
    ensures var v := ViewOf(db, [token]); var key := KeyOf(db.purchases[token]);
            token in v.purchases
            && SameTables(Overlay(db, Close(SetState(v, token, state), key, status, at)), Close(SetState(db, token, state), key, status, at))
  {
    var v, key := ViewOf(db, [token]), KeyOf(db.purchases[token]);
    ViewReads(db, [token]);
    SetStateIsLocal(db, token, state);
    CloseIsLocal(SetState(db, token, state), SetState(v, token, state), key, status, at);
    CloseEffect(SetState(v, token, state), key, status, at);
    CloseEffect(SetState(db, token, state), key, status, at);
  }

  /** The rows a committed reconcile may change. */
  function Touched(db: Db, owner: UserId, op: Op): set<RowKey>
    requires op.Reconcile?
  {
    var pred := Predecessor(db, op.token, op.answer);
    {KeyOf(StoredPurchase(db, owner, op.token, op.answer))} + if pred.Some? then {KeyOf(db.purchases[pred.value])} else {}
  }

  /** A reconcile asks its view the questions it would ask the tables, and gets the same answers. */
  lemma SameAnswers(db: Db, op: Op)
    requires Inv(db) && op.Reconcile?
    ensures var v := ViewOf(db, LockOrder(op));
            && Predecessor(v, op.token, op.answer) == Predecessor(db, op.token, op.answer)
            && ResolveOwner(v, op.asserted, op.token, op.answer) == ResolveOwner(db, op.asserted, op.token, op.answer)
            && (forall owner :: StoredPurchase(v, owner, op.token, op.answer) == StoredPurchase(db, owner, op.token, op.answer))
            && (forall owner :: Touched(v, owner, op) == Touched(db, owner, op))
  {
    ViewReads(db, LockOrder(op));
  }

  ghost predicate RowsWritten(db: Db, op: Op, at: Time, owner: UserId, rows: map<RowKey, Row>)
    requires op.Reconcile?
  {
    && (forall k :: k !in Touched(db, owner, op) ==> (k in rows <==> k in db.rows) && (k in db.rows ==> rows[k] == db.rows[k]))
    && (forall k :: k in db.rows ==> k in rows)
    && forall k :: k in Touched(db, owner, op) ==>
         (k in rows <==> TouchedRow(db, owner, op, at, k).Some?)
         && (k in rows ==> Some(rows[k]) == TouchedRow(db, owner, op, at, k))
  }

  lemma ReconcileTables(db: Db, op: Op, at: Time)
    requires Inv(db) && op.Reconcile? && ReconcileTx(db, op.asserted, op.token, op.answer, Entitles(op), at).Committed?
    ensures var r := ReconcileTx(db, op.asserted, op.token, op.answer, Entitles(op), at).db;
            var owner := ResolveOwner(db, op.asserted, op.token, op.answer).value;
            r.purchases == PurchasesAfter(db, owner, op.token, op.answer, Entitles(op)) && RowsWritten(db, op, at, owner, r.rows)
  {
    var r := ReconcileTx(db, op.asserted, op.token, op.answer, Entitles(op), at).db;
    var owner := ResolveOwner(db, op.asserted, op.token, op.answer).value;
    ReconcileEffect(db, op.asserted, op.token, op.answer, Entitles(op), at);
    forall k | k in Touched(db, owner, op)
      ensures (k in r.rows <==> TouchedRow(db, owner, op, at, k).Some?) && (k in r.rows ==> Some(r.rows[k]) == TouchedRow(db, owner, op, at, k))
    {
    }
  }

  predicate Entitles(op: Op)
    requires op.Reconcile?
  {
    IsEntitling(op.answer.state, op.answer.expiresAt, op.decidedAt)
  }

  /** What a committed reconcile leaves in a row it may change. */
  function TouchedRow(db: Db, owner: UserId, op: Op, at: Time, k: RowKey): Option<Row>
    requires op.Reconcile?
  {
    if k == KeyOf(StoredPurchase(db, owner, op.token, op.answer)) && Entitles(op) then
      Some(Row(DeriveStatus(op.answer.expiresAt, at), op.answer.expiresAt))
    else if k !in db.rows then None
    else if k == KeyOf(StoredPurchase(db, owner, op.token, op.answer)) || Entitles(op) then Some(ClosedRow(db.rows[k], Expired))
    else Some(db.rows[k])
  }

  lemma TouchedAlike(db: Db, owner: UserId, op: Op, at: Time, k: RowKey)
    requires Inv(db) && op.Reconcile? && k in Touched(db, owner, op)
    requires ResolveOwner(db, op.asserted, op.token, op.answer) == Some(owner)
    ensures TouchedRow(ViewOf(db, LockOrder(op)), owner, op, at, k) == TouchedRow(db, owner, op, at, k)
  {
    ViewReads(db, LockOrder(op));
    SameAnswers(db, op);
  }

  lemma PurchasesLocal(db: Db, op: Op, owner: UserId)
    requires Inv(db) && op.Reconcile?
    ensures db.purchases + PurchasesAfter(ViewOf(db, LockOrder(op)), owner, op.token, op.answer, Entitles(op))
            == PurchasesAfter(db, owner, op.token, op.answer, Entitles(op))
  {
    ViewReads(db, LockOrder(op));
    SameAnswers(db, op);
  }

  lemma RowsLocal(db: Db, op: Op, at: Time, owner: UserId, changed: map<RowKey, Row>, whole: map<RowKey, Row>)
    requires Inv(db) && op.Reconcile? && ResolveOwner(db, op.asserted, op.token, op.answer) == Some(owner)
    requires RowsWritten(ViewOf(db, LockOrder(op)), op, at, owner, changed) && RowsWritten(db, op, at, owner, whole)
    ensures db.rows + changed == whole
  {
    var v := ViewOf(db, LockOrder(op));
    ViewReads(db, LockOrder(op));
    SameAnswers(db, op);
    forall k | k in Touched(db, owner, op) ensures TouchedRow(v, owner, op, at, k) == TouchedRow(db, owner, op, at, k) {
      TouchedAlike(db, owner, op, at, k);
    }
    LaidOver(db.rows, v.rows, Touched(db, owner, op), changed, whole);
  }

  lemma ReconcileIsLocal(db: Db, op: Op, at: Time)
    requires Inv(db) && op.Reconcile? && ReconcileTx(db, op.asserted, op.token, op.answer, Entitles(op), at).Committed?
    requires ReconcileTx(ViewOf(db, LockOrder(op)), op.asserted, op.token, op.answer, Entitles(op), at).Committed?
    ensures SameTables(
      Overlay(db, ReconcileTx(ViewOf(db, LockOrder(op)), op.asserted, op.token, op.answer, Entitles(op), at).db),
      ReconcileTx(db, op.asserted, op.token, op.answer, Entitles(op), at).db)
  {
    var v := ViewOf(db, LockOrder(op));
    ViewReads(db, LockOrder(op));
    SameAnswers(db, op);
    ReconcileTables(v, op, at);
    ReconcileTables(db, op, at);
    var owner := ResolveOwner(db, op.asserted, op.token, op.answer).value;
    PurchasesLocal(db, op, owner);
    RowsLocal(db, op, at, owner,
      ReconcileTx(v, op.asserted, op.token, op.answer, Entitles(op), at).db.rows,
      ReconcileTx(db, op.asserted, op.token, op.answer, Entitles(op), at).db.rows);
  }

  lemma NothingLaidOver(db: Db, tokens: seq<Token>)
    requires Inv(db)
    ensures SameTables(Overlay(db, ViewOf(db, tokens)), db)
  {
    ViewReads(db, tokens);
    assert db.purchases + ViewOf(db, tokens).purchases == db.purchases;
    assert db.rows + ViewOf(db, tokens).rows == db.rows;
  }

  lemma AcknowledgeIsLocal(db: Db, token: Token, ok: bool)
    requires Inv(db)
    ensures SameTables(Overlay(db, AcknowledgeTx(ViewOf(db, [token]), token, ok)), AcknowledgeTx(db, token, ok))
  {
    var v := ViewOf(db, [token]);
    ViewReads(db, [token]);
    NothingLaidOver(db, [token]);
    if AckCalled(db, token) && ok {
      LaidOver(db.purchases, v.purchases, {token}, AcknowledgeTx(v, token, ok).purchases, AcknowledgeTx(db, token, ok).purchases);
    }
  }

  lemma GrantIsLocal(db: Db, key: RowKey, expiresAt: Option<Time>, startsAt: Option<Time>, at: Time)
    requires Inv(db)
    ensures SameTables(Overlay(db, Grant(ViewOf(db, []), key, expiresAt, startsAt, at)), Grant(db, key, expiresAt, startsAt, at))
  {
    var v := ViewOf(db, []);
    ViewReads(db, []);
    GrantEffect(v, key, expiresAt, startsAt, at);
    GrantEffect(db, key, expiresAt, startsAt, at);
    NothingLaidOver(db, []);
    LaidOver(db.rows, v.rows, {key}, Grant(v, key, expiresAt, startsAt, at).rows, Grant(db, key, expiresAt, startsAt, at).rows);
  }

  lemma CommitsAlike(db: Db, op: Op, at: Time)
    requires Inv(db) && op.Reconcile?
    ensures ReconcileTx(ViewOf(db, LockOrder(op)), op.asserted, op.token, op.answer, Entitles(op), at).Committed?
            <==> ReconcileTx(db, op.asserted, op.token, op.answer, Entitles(op), at).Committed?
  {
    ViewReads(db, LockOrder(op));
    SameAnswers(db, op);
    ReconcileEffect(ViewOf(db, LockOrder(op)), op.asserted, op.token, op.answer, Entitles(op), at);
    ReconcileEffect(db, op.asserted, op.token, op.answer, Entitles(op), at);
  }

  lemma ReconcileWritesLocal(db: Db, op: Op, at: Time)
    requires Inv(db) && op.Reconcile?
    ensures SameTables(Overlay(db, Writes(ViewOf(db, LockOrder(op)), op, at)), Do(db, Tx(op, at)))
  {
    NothingLaidOver(db, LockOrder(op));
    if Enabled(Sys(db, at), op) {
      CommitsAlike(db, op, at);
      if ReconcileTx(db, op.asserted, op.token, op.answer, Entitles(op), at).Committed? {
        ReconcileIsLocal(db, op, at);
      }
    }
  }

  lemma ForcedWritesLocal(db: Db, token: Token, at: Time)
    requires Inv(db)
    ensures SameTables(Overlay(db, Writes(ViewOf(db, [token]), Revoke(token), at)), Do(db, Tx(Revoke(token), at)))
    ensures SameTables(Overlay(db, Writes(ViewOf(db, [token]), Expire(token), at)), Do(db, Tx(Expire(token), at)))
  {
    ViewReads(db, [token]);
    NothingLaidOver(db, [token]);
    if token in db.purchases {
      ForcedIsLocal(db, token, REVOKED, Revoked, at);
      ForcedIsLocal(db, token, EXPIRED, Expired, at);
    }
  }

  /** Computed from the tokens it locked alone, a transaction writes what it would write having read everything. */
  lemma WritesAreLocal(db: Db, op: Op, at: Time)
    requires Inv(db) && IsTransaction(op)
    ensures SameTables(Overlay(db, Writes(ViewOf(db, LockOrder(op)), op, at)), Do(db, Tx(op, at)))
  {
    match op
    case Reconcile(_, _, _, _) => ReconcileWritesLocal(db, op, at);
    case Revoke(token) => ForcedWritesLocal(db, token, at);
    case Expire(token) => ForcedWritesLocal(db, token, at);
    case Acknowledge(token, ok) => AcknowledgeIsLocal(db, token, ok);
    case GrantOther(key, expiresAt, startsAt) => GrantIsLocal(db, key, expiresAt, startsAt, at);
    case _ =>
  }

  // ── Tables decide, and other views stay ────────────────────────────────────

  lemma SameViews(a: Db, b: Db, tokens: seq<Token>)
    requires SameTables(a, b)
    ensures ViewOf(a, tokens) == ViewOf(b, tokens)
  {
  }

  lemma SameOverlays(a: Db, b: Db, written: Db)
    requires SameTables(a, b)
    ensures SameTables(Overlay(a, written), Overlay(b, written))
  {
  }

  /** The tables after a transaction depend on the tables before it, not on the cache. */
  lemma TablesDecide(a: Db, b: Db, op: Op, at: Time)
    requires Inv(a) && Inv(b) && SameTables(a, b) && IsTransaction(op)
    ensures SameTables(Do(a, Tx(op, at)), Do(b, Tx(op, at)))
  {
    WritesAreLocal(a, op, at);
    WritesAreLocal(b, op, at);
    SameViews(a, b, LockOrder(op));
    SameOverlays(a, b, Writes(ViewOf(a, LockOrder(op)), op, at));
  }

  lemma ReconcileAddsToken(db: Db, op: Op, at: Time, t: Token)
    requires Inv(db) && IsTransaction(op) && t !in LockOrder(op)
    ensures t in Do(db, Tx(op, at)).purchases <==> t in db.purchases
  {
    match op
    case Reconcile(asserted, token, a, decidedAt) => ReconcileEffect(db, asserted, token, a, Entitles(op), at);
    case Revoke(token) =>
    case Expire(token) =>
    case Acknowledge(token, ok) =>
    case GrantOther(key, expiresAt, startsAt) => GrantEffect(db, key, expiresAt, startsAt, at);
    case _ =>
  }

  lemma OtherTokenStays(db: Db, op: Op, at: Time, t: Token)
    requires Inv(db) && IsTransaction(op) && t !in LockOrder(op) && t in db.purchases
    ensures Untouched(db, Do(db, Tx(op, at)), t)
  {
    StepSpares(Sys(db, at), op, t);
  }

  /** A transaction leaves what a transaction on other tokens has read as it was. */
  lemma OtherViewsStay(db: Db, op: Op, at: Time, tokens: seq<Token>)
    requires Inv(db) && IsTransaction(op) && forall t :: t in tokens ==> t !in LockOrder(op)
    ensures ViewOf(Do(db, Tx(op, at)), tokens) == ViewOf(db, tokens)
  {
    var after := Do(db, Tx(op, at));
    DoKeepsInv(db, Tx(op, at));
    forall t | t in tokens ensures (t in after.purchases <==> t in db.purchases) && (t in db.purchases ==> Untouched(db, after, t)) {
      ReconcileAddsToken(db, op, at, t);
      if t in db.purchases {
        OtherTokenStays(db, op, at, t);
      }
    }
    var v, w := ViewOf(db, tokens), ViewOf(after, tokens);
    assert v.purchases == w.purchases;
    SameRowsSeen(db, after, tokens);
  }

  lemma SameRowsSeen(db: Db, after: Db, tokens: seq<Token>)
    requires forall t :: t in tokens ==> (t in after.purchases <==> t in db.purchases)
    requires forall t :: t in tokens && t in db.purchases ==> Untouched(db, after, t)
    ensures ViewOf(after, tokens).rows == ViewOf(db, tokens).rows
  {
    var v, w := ViewOf(db, tokens), ViewOf(after, tokens);
    forall k ensures (k in v.rows <==> k in w.rows) && (k in v.rows ==> v.rows[k] == w.rows[k]) {
      if Sources(db, tokens, k) {
        var t :| t in tokens && t in db.purchases && KeyOf(db.purchases[t]) == k;
        assert KeyOf(after.purchases[t]) == k;
      }
      if Sources(after, tokens, k) {
        var t :| t in tokens && t in after.purchases && KeyOf(after.purchases[t]) == k;
        assert KeyOf(db.purchases[t]) == k;
      }
    }
  }
}
