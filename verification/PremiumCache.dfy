/**
 The denormalised premium flag against the entitlement rows it caches.

 Read together with its own expiry the cached pair is right at every instant of
 every run of transactions, and stays right while time passes without a write:
 the flag alone can only be stale by being on too long.  Transactions of one user
 that overlap are the exception, which `Overlap` states.
 */
module PremiumCache {
  import opened Wrappers
  import opened EntitlementRows
  import opened Ownership

  /** How readers use the cached pair at time `t`. */
  predicate Reads(c: Cache, t: Time) { c.isPremium && After(c.expiresAt, t) }

  predicate HasPremium(db: Db, user: UserId, t: Time) { LiveRows(db, user, t) != {} }

  /** Now, and at every later time if nothing is written, the cache answers what the rows answer. */
  ghost predicate Coherent(db: Db, now: Time) {
    forall user: UserId, t: Time :: now <= t ==> (Reads(CacheOf(db, user), t) <==> HasPremium(db, user, t))
  }

  lemma SnapshotIsRight(db: Db, user: UserId, now: Time, t: Time)
    requires now <= t
    ensures Reads(Snapshot(db, user, now), t) <==> HasPremium(db, user, t)
  {
    var live, later := LiveRows(db, user, now), LiveRows(db, user, t);
    assert later <= live;
    if live != {} {
      var expiresAt := Furthest(db, live);
      if After(expiresAt, t) {
        var k :| k in live && db.rows[k].expiresAt == expiresAt;
        assert k in later;
      } else {
        assert forall k :: k in live ==> k !in later;
      }
    }
  }

  lemma OtherUsersRows(before: Db, after: Db, key: RowKey, user: UserId, t: Time)
    requires OnlyRow(before, after, key) && user != key.userId
    ensures LiveRows(after, user, t) == LiveRows(before, user, t)
  {
  }

  /** Writing one row and refreshing its user keeps the cache right for everyone. */
  lemma RefreshCoheres(before: Db, written: Db, key: RowKey, now: Time)
    requires Coherent(before, now)
    requires OnlyRow(before, written, key) && written.cache == before.cache
    ensures Coherent(Refresh(written, key.userId, now), now)
  {
    var after := Refresh(written, key.userId, now);
    forall user: UserId, t: Time | now <= t
      ensures Reads(CacheOf(after, user), t) <==> HasPremium(after, user, t)
    {
      assert LiveRows(after, user, t) == LiveRows(written, user, t);
      if user == key.userId {
        SnapshotIsRight(written, user, now, t);
      } else {
        OtherUsersRows(before, written, key, user, t);
        assert CacheOf(after, user) == CacheOf(before, user);
      }
    }
  }

  lemma GrantCoheres(db: Db, key: RowKey, expiresAt: Option<Time>, startsAt: Option<Time>, now: Time)
    requires Coherent(db, now)
    ensures Coherent(Grant(db, key, expiresAt, startsAt, now), now)
  {
    var status := DeriveStatus(expiresAt, if startsAt.Some? then startsAt.value else now);
    RefreshCoheres(db, db.(rows := db.rows[key := Row(status, expiresAt)]), key, now);
  }

  lemma CloseCoheres(db: Db, key: RowKey, toStatus: EntitlementStatus, now: Time)
    requires Coherent(db, now)
    ensures Coherent(Close(db, key, toStatus, now), now)
  {
    if key in db.rows && db.rows[key].status == Active {
      RefreshCoheres(db, db.(rows := db.rows[key := db.rows[key].(status := toStatus)]), key, now);
    }
  }

  /** Purchases do not enter the premium decision. */
  lemma PurchasesIrrelevant(before: Db, after: Db, now: Time)
    requires Coherent(before, now) && after.rows == before.rows && after.cache == before.cache
    ensures Coherent(after, now)
  {
    forall user: UserId, t: Time | now <= t
      ensures Reads(CacheOf(after, user), t) <==> HasPremium(after, user, t)
    {
      assert LiveRows(after, user, t) == LiveRows(before, user, t);
      assert CacheOf(after, user) == CacheOf(before, user);
    }
  }

  lemma ReconcileCoheres(db: Db, asserted: Option<UserId>, token: Token, a: Answer, entitling: bool, now: Time)
    requires Coherent(db, now)
    requires ReconcileTx(db, asserted, token, a, entitling, now).Committed?
    ensures Coherent(ReconcileTx(db, asserted, token, a, entitling, now).db, now)
  {
    var owner := ResolveOwner(db, asserted, token, a).value;
    var pred := Predecessor(db, token, a);
    var upserted := UpsertVerifiedPurchase(db, owner, token, a).db;
    var key := KeyOf(upserted.purchases[token]);
    PurchasesIrrelevant(db, upserted, now);
    if entitling {
      GrantCoheres(upserted, key, a.expiresAt, None, now);
      if pred.Some? {
        var granted := Grant(upserted, key, a.expiresAt, None, now);
        var prior := KeyOf(db.purchases[pred.value]);
        CloseCoheres(granted, prior, Expired, now);
        var closed := Close(granted, prior, Expired, now);
        PurchasesIrrelevant(closed, SetState(closed, pred.value, EXPIRED), now);
      }
    } else {
      CloseCoheres(upserted, key, Expired, now);
    }
  }

  lemma StepCoheres(s: Sys, op: Op)
    requires Coherent(s.db, s.now)
    ensures Coherent(Step(s, op).db, Step(s, op).now)
  {
    if Enabled(s, op) {
      match op
      case Reconcile(asserted, token, a, decidedAt) =>
        var entitling := IsEntitling(a.state, a.expiresAt, decidedAt);
        if ReconcileTx(s.db, asserted, token, a, entitling, s.now).Committed? {
          ReconcileCoheres(s.db, asserted, token, a, entitling, s.now);
        }
      case Revoke(token) =>
        if token in s.db.purchases {
          PurchasesIrrelevant(s.db, SetState(s.db, token, REVOKED), s.now);
          CloseCoheres(SetState(s.db, token, REVOKED), KeyOf(s.db.purchases[token]), Revoked, s.now);
        }
      case Expire(token) =>
        if token in s.db.purchases {
          PurchasesIrrelevant(s.db, SetState(s.db, token, EXPIRED), s.now);
          CloseCoheres(SetState(s.db, token, EXPIRED), KeyOf(s.db.purchases[token]), Expired, s.now);
        }
      case Acknowledge(token, ok) => PurchasesIrrelevant(s.db, AcknowledgeTx(s.db, token, ok), s.now);
      case GrantOther(key, expiresAt, startsAt) => GrantCoheres(s.db, key, expiresAt, startsAt, s.now);
      case CloseActive(pick, toStatus) => CloseCoheres(s.db, pick, toStatus, s.now);
      case Tick(elapsed) =>
    }
  }

  lemma EmptyCoheres(now: Time)
    ensures Coherent(Empty, now)
  {
  }

  /**
   At the end of every run the cached pair is true exactly when a live row exists,
   and a user with a live row is never flagged as not premium.
   */
  lemma {:induction false} RunCoheres(s: Sys, ops: seq<Op>)
    requires Coherent(s.db, s.now)
    ensures var e := Run(s, ops);
            && Coherent(e.db, e.now)
            && (forall user :: Reads(CacheOf(e.db, user), e.now) <==> HasPremium(e.db, user, e.now))
            && (forall user :: HasPremium(e.db, user, e.now) ==> CacheOf(e.db, user).isPremium)
  {
    if ops != [] {
      RunCoheres(s, ops[..|ops| - 1]);
      StepCoheres(Run(s, ops[..|ops| - 1]), ops[|ops| - 1]);
    }
  }
}
