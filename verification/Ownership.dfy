/**
 Ownership over runs: a token keeps its owner, a chain keeps its owner, a
 subscription row belongs to the owner of its purchase, and only a client's own
 claim brings in an owner that was not on record.
 */
module Ownership {
  import opened Wrappers
  import opened EntitlementRows

  // ── What every committed state satisfies ───────────────────────────────────

  /** A purchase row keeps the id it was created with. */
  ghost predicate IdsFixed(db: Db) { forall t :: t in db.purchases ==> db.purchases[t].id == t }

  ghost predicate SourcedBy(db: Db, k: RowKey) { exists t :: t in db.purchases && KeyOf(db.purchases[t]) == k }

  /** Every subscription row has an expiry and belongs to the owner of its source purchase. */
  ghost predicate RowsOwned(db: Db) {
    forall k :: k in db.rows && k.source == SUBSCRIPTION ==> db.rows[k].expiresAt.Some? && SourcedBy(db, k)
  }

  ghost predicate Inv(db: Db) { IdsFixed(db) && RowsOwned(db) }

  lemma EmptyInv()
    ensures Inv(Empty)
  {
  }

  // ── Effects of the building blocks ─────────────────────────────────────────

  /** `after` differs from `before` at most in the row of `key` and in the cache. */
  ghost predicate OnlyRow(before: Db, after: Db, key: RowKey) {
    && after.purchases == before.purchases
    && (forall k :: k != key ==> (k in after.rows <==> k in before.rows))
    && forall k :: k != key && k in before.rows ==> after.rows[k] == before.rows[k]
  }

  lemma GrantEffect(db: Db, key: RowKey, expiresAt: Option<Time>, startsAt: Option<Time>, now: Time)
    ensures var r := Grant(db, key, expiresAt, startsAt, now);
            && OnlyRow(db, r, key)
            && key in r.rows
            && r.rows[key] == Row(DeriveStatus(expiresAt, if startsAt.Some? then startsAt.value else now), expiresAt)
  {
  }

  /** A granted row is active exactly when it never expires, or expires after it starts: when asked to, or now. */
  lemma GrantMeans(db: Db, key: RowKey, expiresAt: Option<Time>, startsAt: Option<Time>, now: Time)
    ensures var r := Grant(db, key, expiresAt, startsAt, now);
            && key in r.rows && r.rows[key].expiresAt == expiresAt
            && (r.rows[key].status == Active <==>
                  expiresAt.None? || expiresAt.value > (if startsAt.Some? then startsAt.value else now))
            && (r.rows[key].status != Active ==> r.rows[key].status == Expired)
            && r.purchases == db.purchases && forall k :: k != key ==> (k in r.rows <==> k in db.rows) && (k in db.rows ==> r.rows[k] == db.rows[k])
  {
  }

  /** A row is live while it is active and has no expiry, or one that lies ahead. */
  lemma LiveMeans(db: Db, user: UserId, now: Time, k: RowKey)
    ensures k in LiveRows(db, user, now) <==>
            k in db.rows && k.userId == user && db.rows[k].status == Active
            && (db.rows[k].expiresAt.None? || db.rows[k].expiresAt.value > now)
  {
  }

  function ClosedRow(row: Row, toStatus: EntitlementStatus): Row {
    if row.status == Active then row.(status := toStatus) else row
  }

  lemma CloseEffect(db: Db, key: RowKey, toStatus: EntitlementStatus, now: Time)
    ensures var r := Close(db, key, toStatus, now);
            && OnlyRow(db, r, key)
            && (key in r.rows <==> key in db.rows)
            && (key in db.rows ==> r.rows[key] == ClosedRow(db.rows[key], toStatus))
  {
  }

  // ── Effect of a reconcile ──────────────────────────────────────────────────

  function StoredPurchase(db: Db, owner: UserId, token: Token, a: Answer): Purchase {
    Purchase(if token in db.purchases then db.purchases[token].id else token,
             owner, a.state, a.expiresAt, a.acknowledged, a.linkedToken)
  }

  /** The purchases after a committed reconcile. */
  function PurchasesAfter(db: Db, owner: UserId, token: Token, a: Answer, entitling: bool): map<Token, Purchase> {
    var stored := db.purchases[token := StoredPurchase(db, owner, token, a)];
    var pred := Predecessor(db, token, a);
    if entitling && pred.Some? then stored[pred.value := db.purchases[pred.value].(state := EXPIRED)] else stored
  }

  lemma ReconcileEffect(db: Db, asserted: Option<UserId>, token: Token, a: Answer, entitling: bool, now: Time)
    requires Inv(db)
    ensures ReconcileTx(db, asserted, token, a, entitling, now).Committed? <==>
      ResolveOwner(db, asserted, token, a).Some?
      && (asserted.None? || asserted == ResolveOwner(db, asserted, token, a))
    ensures ReconcileTx(db, asserted, token, a, entitling, now).Committed? ==>
      var r := ReconcileTx(db, asserted, token, a, entitling, now).db;
      var owner := ResolveOwner(db, asserted, token, a).value;
      var pred := Predecessor(db, token, a);
      var key := KeyOf(StoredPurchase(db, owner, token, a));
      && r.purchases == PurchasesAfter(db, owner, token, a, entitling)
      && (forall k :: k != key && !(entitling && pred.Some? && k == KeyOf(db.purchases[pred.value])) ==>
            (k in r.rows <==> k in db.rows) && (k in db.rows ==> r.rows[k] == db.rows[k]))
      && (entitling ==> key in r.rows && r.rows[key] == Row(DeriveStatus(a.expiresAt, now), a.expiresAt))
      && (!entitling ==> (key in r.rows <==> key in db.rows) && (key in db.rows ==> r.rows[key] == ClosedRow(db.rows[key], Expired)))
      && (entitling && pred.Some? ==>
            var prior := KeyOf(db.purchases[pred.value]);
            && prior != key
            && (prior in r.rows <==> prior in db.rows)
            && (prior in db.rows ==> r.rows[prior] == ClosedRow(db.rows[prior], Expired)))
  {
    var tx := ReconcileTx(db, asserted, token, a, entitling, now);
    if tx.Committed? {
      var owner := ResolveOwner(db, asserted, token, a).value;
      var pred := Predecessor(db, token, a);
      var upserted := UpsertVerifiedPurchase(db, owner, token, a).db;
      var key := KeyOf(upserted.purchases[token]);
      assert upserted.purchases == db.purchases[token := StoredPurchase(db, owner, token, a)];
      if entitling {
        GrantEffect(upserted, key, a.expiresAt, None, now);
        if pred.Some? {
          var prior := KeyOf(db.purchases[pred.value]);
          CloseEffect(Grant(upserted, key, a.expiresAt, None, now), prior, Expired, now);
        }
      } else {
        CloseEffect(upserted, key, Expired, now);
      }
    }
  }

  // ── One step ───────────────────────────────────────────────────────────────

  /** No token is lost, and the owner and row id of every token stay. */
  ghost predicate KeepsOwners(before: Db, after: Db) {
    forall t :: t in before.purchases ==>
      t in after.purchases
      && after.purchases[t].userId == before.purchases[t].userId
      && after.purchases[t].id == before.purchases[t].id
  }

  lemma StillSourced(before: Db, after: Db, k: RowKey)
    requires KeepsOwners(before, after) && SourcedBy(before, k)
    ensures SourcedBy(after, k)
  {
  }

  lemma ReconcileKeepsInv(db: Db, asserted: Option<UserId>, token: Token, a: Answer, entitling: bool, now: Time)
    requires Inv(db) && (entitling ==> a.expiresAt.Some?)
    requires ReconcileTx(db, asserted, token, a, entitling, now).Committed?
    ensures var r := ReconcileTx(db, asserted, token, a, entitling, now).db; Inv(r) && KeepsOwners(db, r)
  {
    ReconcileEffect(db, asserted, token, a, entitling, now);
    var r := ReconcileTx(db, asserted, token, a, entitling, now).db;
    var owner := ResolveOwner(db, asserted, token, a).value;
    var key := KeyOf(StoredPurchase(db, owner, token, a));
    assert KeepsOwners(db, r);
    assert r.purchases[token] == StoredPurchase(db, owner, token, a);
    assert SourcedBy(r, key);
    forall k | k in r.rows && k.source == SUBSCRIPTION ensures r.rows[k].expiresAt.Some? && SourcedBy(r, k) {
      if k != key {
        assert k in db.rows;
        StillSourced(db, r, k);
      } else if !entitling {
        assert k in db.rows;
      }
    }
  }

  lemma CloseKeepsInv(db: Db, key: RowKey, toStatus: EntitlementStatus, now: Time)
    requires Inv(db)
    ensures Inv(Close(db, key, toStatus, now)) && KeepsOwners(db, Close(db, key, toStatus, now))
  {
  }

  lemma SetStateKeepsInv(db: Db, token: Token, state: SubscriptionState)
    requires Inv(db) && token in db.purchases
    ensures Inv(SetState(db, token, state)) && KeepsOwners(db, SetState(db, token, state))
  {
    var r := SetState(db, token, state);
    forall k | k in r.rows && k.source == SUBSCRIPTION ensures SourcedBy(r, k) {
      StillSourced(db, r, k);
    }
  }

  lemma AcknowledgeKeepsInv(db: Db, token: Token, ok: bool)
    requires Inv(db)
    ensures Inv(AcknowledgeTx(db, token, ok)) && KeepsOwners(db, AcknowledgeTx(db, token, ok))
  {
    var r := AcknowledgeTx(db, token, ok);
    forall k | k in r.rows && k.source == SUBSCRIPTION ensures SourcedBy(r, k) {
      StillSourced(db, r, k);
    }
  }

  lemma GrantOtherKeepsInv(db: Db, key: RowKey, expiresAt: Option<Time>, startsAt: Option<Time>, now: Time)
    requires Inv(db) && key.source != SUBSCRIPTION
    ensures Inv(Grant(db, key, expiresAt, startsAt, now)) && KeepsOwners(db, Grant(db, key, expiresAt, startsAt, now))
  {
  }

  lemma StepKeepsInv(s: Sys, op: Op)
    requires Inv(s.db)
    ensures Inv(Step(s, op).db) && KeepsOwners(s.db, Step(s, op).db)
  {
    if Enabled(s, op) {
      match op
      case Reconcile(asserted, token, a, decidedAt) =>
        var entitling := IsEntitling(a.state, a.expiresAt, decidedAt);
        if ReconcileTx(s.db, asserted, token, a, entitling, s.now).Committed? {
          ReconcileKeepsInv(s.db, asserted, token, a, entitling, s.now);
        }
      case Revoke(token) =>
        if token in s.db.purchases {
          SetStateKeepsInv(s.db, token, REVOKED);
          CloseKeepsInv(SetState(s.db, token, REVOKED), KeyOf(s.db.purchases[token]), Revoked, s.now);
        }
      case Expire(token) =>
        if token in s.db.purchases {
          SetStateKeepsInv(s.db, token, EXPIRED);
          CloseKeepsInv(SetState(s.db, token, EXPIRED), KeyOf(s.db.purchases[token]), Expired, s.now);
        }
      case Acknowledge(token, ok) => AcknowledgeKeepsInv(s.db, token, ok);
      case GrantOther(key, expiresAt, startsAt) => GrantOtherKeepsInv(s.db, key, expiresAt, startsAt, s.now);
      case CloseActive(pick, toStatus) => CloseKeepsInv(s.db, pick, toStatus, s.now);
      case Tick(_) =>
    }
  }

  // ── Schedules ──────────────────────────────────────────────────────────────

  lemma DoKeepsInv(db: Db, tx: Tx)
    requires Inv(db)
    ensures Inv(Do(db, tx)) && KeepsOwners(db, Do(db, tx))
  {
    StepKeepsInv(Sys(db, tx.at), tx.op);
  }

  /** In every schedule no token ever changes hands, and every subscription row has its owner's purchase. */
  lemma {:induction false} SerialKeepsOwners(db: Db, txs: seq<Tx>)
    requires Inv(db)
    ensures Inv(Serial(db, txs)) && KeepsOwners(db, Serial(db, txs))
  {
    if txs != [] {
      SerialKeepsOwners(db, txs[..|txs| - 1]);
      DoKeepsInv(Serial(db, txs[..|txs| - 1]), txs[|txs| - 1]);
    }
  }

  /**
   A token first recorded while its linked predecessor is on record has the
   predecessor's owner, then and after every later schedule, whoever asserted what.
   */
  lemma ChainKeepsOwner(
    db: Db, asserted: Option<UserId>, token: Token, a: Answer, decidedAt: Time, at: Time, pred: Token, later: seq<Tx>)
    requires Inv(db)
    requires token !in db.purchases && pred in db.purchases && a.linkedToken == Some(pred)
    requires token in Do(db, Tx(Reconcile(asserted, token, a, decidedAt), at)).purchases
    ensures var end := Serial(Do(db, Tx(Reconcile(asserted, token, a, decidedAt), at)), later);
            token in end.purchases && pred in end.purchases
            && end.purchases[token].userId == db.purchases[pred].userId == end.purchases[pred].userId
  {
    var tx := Tx(Reconcile(asserted, token, a, decidedAt), at);
    ReconcileEffect(db, asserted, token, a, IsEntitling(a.state, a.expiresAt, decidedAt), at);
    DoKeepsInv(db, tx);
    SerialKeepsOwners(Do(db, tx), later);
  }

  // ── Where owners come from ─────────────────────────────────────────────────

  function Owners(db: Db): set<UserId> { set t | t in db.purchases :: db.purchases[t].userId }

  /** Identities that clients asserted in reconciles. */
  function Asserted(txs: seq<Tx>): set<UserId> {
    set tx | tx in txs && tx.op.Reconcile? && tx.op.asserted.Some? :: tx.op.asserted.value
  }

  lemma OwnersWithin(before: Db, after: Db, extra: set<UserId>)
    requires forall t :: t in after.purchases ==>
      (t in before.purchases && after.purchases[t].userId == before.purchases[t].userId)
      || after.purchases[t].userId in Owners(before) + extra
    ensures Owners(after) <= Owners(before) + extra
  {
  }

  /** A step adds no owner, except the identity asserted by a client reconcile. */
  lemma StepOwners(s: Sys, op: Op)
    requires Inv(s.db)
    ensures Owners(Step(s, op).db) <= Owners(s.db) + if op.Reconcile? && op.asserted.Some? then {op.asserted.value} else {}
  {
    var extra := if op.Reconcile? && op.asserted.Some? then {op.asserted.value} else {};
    if Enabled(s, op) {
      match op
      case Reconcile(asserted, token, a, decidedAt) =>
        ReconcileEffect(s.db, asserted, token, a, IsEntitling(a.state, a.expiresAt, decidedAt), s.now);
        var pred := Predecessor(s.db, token, a);
        assert pred.Some? ==> s.db.purchases[pred.value].userId in Owners(s.db);
        assert token in s.db.purchases ==> s.db.purchases[token].userId in Owners(s.db);
      case Revoke(token) =>
        if token in s.db.purchases {
          CloseEffect(SetState(s.db, token, REVOKED), KeyOf(s.db.purchases[token]), Revoked, s.now);
        }
      case Expire(token) =>
        if token in s.db.purchases {
          CloseEffect(SetState(s.db, token, EXPIRED), KeyOf(s.db.purchases[token]), Expired, s.now);
        }
      case Acknowledge(token, ok) =>
      case GrantOther(key, expiresAt, startsAt) => GrantEffect(s.db, key, expiresAt, startsAt, s.now);
      case CloseActive(pick, toStatus) => CloseEffect(s.db, pick, toStatus, s.now);
      case Tick(_) =>
    }
    OwnersWithin(s.db, Step(s, op).db, extra);
  }

  /** Every owner there is was there before, or was asserted by a client. */
  lemma {:induction false} SerialOwners(db: Db, txs: seq<Tx>)
    requires Inv(db)
    ensures Owners(Serial(db, txs)) <= Owners(db) + Asserted(txs)
  {
    if txs != [] {
      var init, last := txs[..|txs| - 1], txs[|txs| - 1];
      assert txs == init + [last];
      SerialOwners(db, init);
      SerialKeepsOwners(db, init);
      StepOwners(Sys(Serial(db, init), last.at), last.op);
      assert Asserted(init) <= Asserted(txs);
      assert last in txs;
    }
  }
}
