/**
 Migration along a token chain, and its frame: what a transaction on one token
 can never touch.
 */
module Migration {
  import opened Wrappers
  import opened EntitlementRows
  import opened Ownership
  import opened Register

  predicate ActiveRow(db: Db, key: RowKey) { key in db.rows && db.rows[key].status == Active }

  /**
   A new entitling token linked to a token on record: the successor holds the
   entitlement, the predecessor's row is closed and its purchase is terminal.
   */
  lemma MigrationMoves(s: Sys, asserted: Option<UserId>, token: Token, a: Answer, decidedAt: Time, pred: Token)
    requires Inv(s.db) && token !in s.db.purchases && pred in s.db.purchases && a.linkedToken == Some(pred)
    requires a.knownProduct && decidedAt <= s.now && IsEntitling(a.state, a.expiresAt, decidedAt)
    requires asserted.None? || asserted == Some(s.db.purchases[pred].userId)
    ensures var r := Step(s, Reconcile(asserted, token, a, decidedAt)).db;
            && token in r.purchases && r.purchases[token].userId == s.db.purchases[pred].userId
            && KeyOf(r.purchases[token]) in r.rows
            && r.rows[KeyOf(r.purchases[token])] == Row(DeriveStatus(a.expiresAt, s.now), a.expiresAt)
            && !ActiveRow(r, KeyOf(s.db.purchases[pred]))
            && r.purchases[pred] == s.db.purchases[pred].(state := EXPIRED)
  {
    ReconcileEffect(s.db, asserted, token, a, true, s.now);
  }

  /**
   An entitling reconcile closes the entitlement of the token it links to exactly
   when the reconciled token was not on record before: a successor first stored
   without entitling leaves its predecessor open for good.
   */
  lemma PredecessorClosedIffNew(s: Sys, asserted: Option<UserId>, token: Token, a: Answer, decidedAt: Time, pred: Token)
    requires Inv(s.db) && pred in s.db.purchases && pred != token && a.linkedToken == Some(pred)
    requires a.knownProduct && decidedAt <= s.now && IsEntitling(a.state, a.expiresAt, decidedAt)
    requires ReconcileTx(s.db, asserted, token, a, true, s.now).Committed?
    requires ActiveRow(s.db, KeyOf(s.db.purchases[pred]))
    ensures !ActiveRow(Step(s, Reconcile(asserted, token, a, decidedAt)).db, KeyOf(s.db.purchases[pred]))
            <==> token !in s.db.purchases
  {
    ReconcileEffect(s.db, asserted, token, a, true, s.now);
    if token in s.db.purchases {
      KeysDiffer(s.db, pred, token);
    }
  }

  // ── The frame ──────────────────────────────────────────────────────────────

  /**
   The operation is not about `t`.  A reconcile whose answer links to `t` qualifies
   when its own token is on record: only a new token takes over from its link.
   */
  predicate Spares(op: Op, t: Token, recorded: set<Token>) {
    match op
    case Reconcile(_, token, a, _) => token != t && (a.linkedToken == Some(t) ==> token in recorded)
    case Revoke(token) => token != t
    case Expire(token) => token != t
    case Acknowledge(token, _) => token != t
    case CloseActive(pick, _) => pick.source != SUBSCRIPTION
    case _ => true
  }

  /** The purchase of `t` and the entitlement it sources are what they were. */
  ghost predicate Untouched(before: Db, after: Db, t: Token)
    requires t in before.purchases
  {
    var key := KeyOf(before.purchases[t]);
    && t in after.purchases && after.purchases[t] == before.purchases[t]
    && (key in after.rows <==> key in before.rows)
    && (key in before.rows ==> after.rows[key] == before.rows[key])
  }

  lemma ReconcileSpares(
    db: Db, asserted: Option<UserId>, token: Token, a: Answer, entitling: bool, now: Time, t: Token)
    requires Inv(db) && t in db.purchases && token != t && (a.linkedToken == Some(t) ==> token in db.purchases) && (entitling ==> a.expiresAt.Some?)
    requires ReconcileTx(db, asserted, token, a, entitling, now).Committed?
    ensures Untouched(db, ReconcileTx(db, asserted, token, a, entitling, now).db, t)
  {
    var r := ReconcileTx(db, asserted, token, a, entitling, now).db;
    ReconcileEffect(db, asserted, token, a, entitling, now);
    ReconcileKeepsInv(db, asserted, token, a, entitling, now);
    KeysDiffer(r, t, token);
    var pred := Predecessor(db, token, a);
    if pred.Some? {
      KeysDiffer(db, t, pred.value);
    }
  }

  lemma StepSpares(s: Sys, op: Op, t: Token)
    requires Inv(s.db) && t in s.db.purchases && Spares(op, t, s.db.purchases.Keys)
    ensures Untouched(s.db, Step(s, op).db, t)
  {
    if Enabled(s, op) {
      match op
      case Reconcile(asserted, token, a, decidedAt) =>
        var entitling := IsEntitling(a.state, a.expiresAt, decidedAt);
        if ReconcileTx(s.db, asserted, token, a, entitling, s.now).Committed? {
          ReconcileSpares(s.db, asserted, token, a, entitling, s.now, t);
        }
      case Revoke(token) =>
        if token in s.db.purchases {
          KeysDiffer(s.db, t, token);
          CloseEffect(SetState(s.db, token, REVOKED), KeyOf(s.db.purchases[token]), Revoked, s.now);
        }
      case Expire(token) =>
        if token in s.db.purchases {
          KeysDiffer(s.db, t, token);
          CloseEffect(SetState(s.db, token, EXPIRED), KeyOf(s.db.purchases[token]), Expired, s.now);
        }
      case Acknowledge(token, ok) =>
      case GrantOther(key, expiresAt, startsAt) => GrantEffect(s.db, key, expiresAt, startsAt, s.now);
      case CloseActive(pick, toStatus) => CloseEffect(s.db, pick, toStatus, s.now);
      case Tick(_) =>
    }
  }

  /**
   No schedule of operations on other tokens alters a token's purchase or
   entitlement, unless it introduces a token that links to it: in particular late
   verifies of tokens on record, whatever they link to, and late expiries, voids and
   sweeps of a superseded token never reach its successor.
   */
  lemma {:induction false} SerialSpares(db: Db, txs: seq<Tx>, t: Token)
    requires Inv(db) && t in db.purchases
    requires forall tx :: tx in txs ==> Spares(tx.op, t, db.purchases.Keys)
    ensures Untouched(db, Serial(db, txs), t)
  {
    if txs != [] {
      var init, last := txs[..|txs| - 1], txs[|txs| - 1];
      assert last in txs && forall tx :: tx in init ==> tx in txs;
      SerialSpares(db, init, t);
      SerialKeepsOwners(db, init);
      StepSpares(Sys(Serial(db, init), last.at), last.op, t);
    }
  }

  // ── Forced endings ─────────────────────────────────────────────────────────

  /** What a voided purchase or a token Google dropped comes to, without asking Google again. */
  ghost predicate Ended(before: Db, after: Db, token: Token, state: SubscriptionState, status: EntitlementStatus)
    requires token in before.purchases
  {
    var key := KeyOf(before.purchases[token]);
    && after.purchases == before.purchases[token := before.purchases[token].(state := state)]
    && (ActiveRow(before, key) ==> key in after.rows && after.rows[key] == before.rows[key].(status := status))
    && !ActiveRow(after, key)
    && (forall k :: k != key ==> (k in after.rows <==> k in before.rows))
    && forall k :: k != key && k in before.rows ==> after.rows[k] == before.rows[k]
  }

  /**
   A revoke and an expiry differ in the states they leave, close the token's own
   entitlement and touch no other; repeating one changes nothing more.
   */
  lemma ForcedEndings(s: Sys, token: Token)
    requires token in s.db.purchases
    ensures Ended(s.db, Step(s, Revoke(token)).db, token, REVOKED, EntitlementStatus.Revoked)
    ensures Ended(s.db, Step(s, Expire(token)).db, token, EXPIRED, EntitlementStatus.Expired)
    ensures Step(Step(s, Revoke(token)), Revoke(token)) == Step(s, Revoke(token))
  {
    var key := KeyOf(s.db.purchases[token]);
    CloseEffect(SetState(s.db, token, REVOKED), key, EntitlementStatus.Revoked, s.now);
    CloseEffect(SetState(s.db, token, EXPIRED), key, EntitlementStatus.Expired, s.now);
    var r := RevokeTx(s.db, token, s.now);
    assert r.purchases[token].state == REVOKED;
    assert r.purchases[token := r.purchases[token].(state := REVOKED)] == r.purchases;
  }
}
