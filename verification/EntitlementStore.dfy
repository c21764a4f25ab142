/**
 The tables as mutable state, written row by row the way the repository and the
 services write them.  Each method leaves exactly the state its transaction
 function of `EntitlementRows` describes.
 */
module EntitlementStore {
  import opened Wrappers
  import opened EntitlementRows

  lemma FurthestUnique(db: Db, live: set<RowKey>, a: Option<Time>, b: Option<Time>)
    requires live <= db.rows.Keys && IsFurthest(db, live, a) && IsFurthest(db, live, b)
    ensures a == b
  {
  }

  datatype TxOutcome = Done | NoOwner | Conflict

  class Store {
    var purchases: map<Token, Purchase>
    var rows: map<RowKey, Row>
    var cache: map<UserId, Cache>

    ghost function State(): Db
      reads this
    {
      Db(purchases, rows, cache)
    }

    constructor ()
      ensures State() == Empty
    {
      purchases, rows, cache := map[], map[], map[];
    }

    // ── Repository ─────────────────────────────────────────────────────────────

    method FindActiveEntitlementsOfType(user: UserId, now: Time) returns (active: set<RowKey>)
      ensures active == LiveRows(State(), user, now)
    {
      active := set k | k in rows && k.userId == user && Live(rows[k], now);
    }

    method FindActiveEntitlementBySource(key: RowKey) returns (active: bool)
      ensures active <==> key in rows && rows[key].status == Active
    {
      active := key in rows && rows[key].status == Active;
    }

    /** Update the row of the key, or create it: one row per source, never a duplicate. */
    method UpsertEntitlement(key: RowKey, status: EntitlementStatus, expiresAt: Option<Time>)
      modifies this`rows
      ensures rows == old(rows)[key := Row(status, expiresAt)]
    {
      if key in rows {
        rows := rows[key := rows[key].(status := status, expiresAt := expiresAt)];
      } else {
        rows := rows[key := Row(status, expiresAt)];
      }
    }

    method UpdatePremiumCache(user: UserId, isPremium: bool, expiresAt: Option<Time>)
      modifies this`cache
      ensures cache == old(cache)[user := Cache(isPremium, expiresAt)]
    {
      cache := cache[user := Cache(isPremium, expiresAt)];
    }

    // ── Entitlement service ────────────────────────────────────────────────────

    /** The expiry the cache holds: null if some live grant is perpetual, else the maximum. */
    method FurthestExpiry(active: set<RowKey>) returns (premiumExpiresAt: Option<Time>)
      requires active <= rows.Keys
      ensures active == {} ==> premiumExpiresAt == None
      ensures active != {} ==> premiumExpiresAt == Furthest(State(), active)
    {
      premiumExpiresAt := None;
      var hasPerpetual := false;
      var rest := active;
      while rest != {}
        invariant rest <= active
        invariant hasPerpetual <==> exists k :: k in active - rest && rows[k].expiresAt.None?
        invariant premiumExpiresAt.None? ==> forall k :: k in active - rest ==> rows[k].expiresAt.None?
        invariant premiumExpiresAt.Some? ==> exists k :: k in active - rest && rows[k].expiresAt == premiumExpiresAt
        invariant premiumExpiresAt.Some? ==>
          forall k :: k in active - rest && rows[k].expiresAt.Some? ==> rows[k].expiresAt.value <= premiumExpiresAt.value
        decreases rest
      {
        var e :| e in rest;
        ghost var before := active - rest;
        rest := rest - {e};
        assert active - rest == before + {e};
        var own := rows[e].expiresAt;
        if own.None? {
          hasPerpetual := true;
        } else if premiumExpiresAt.None? || own.value > premiumExpiresAt.value {
          premiumExpiresAt := own;
        }
      }
      assert active - rest == active;
      if hasPerpetual {
        premiumExpiresAt := None;
      }
      if active != {} {
        assert IsFurthest(State(), active, premiumExpiresAt);
        FurthestUnique(State(), active, premiumExpiresAt, Furthest(State(), active));
      }
    }

    method RefreshPremiumCache(user: UserId, now: Time)
      modifies this`cache
      ensures State() == Refresh(old(State()), user, now)
    {
      var active := FindActiveEntitlementsOfType(user, now);
      var premiumExpiresAt := FurthestExpiry(active);
      UpdatePremiumCache(user, active != {}, premiumExpiresAt);
    }

    method GrantWithinTx(key: RowKey, expiresAt: Option<Time>, startsAt: Option<Time>, now: Time)
      modifies this`rows, this`cache
      ensures State() == Grant(old(State()), key, expiresAt, startsAt, now)
    {
      var status := DeriveStatus(expiresAt, if startsAt.Some? then startsAt.value else now);
      UpsertEntitlement(key, status, expiresAt);
      RefreshPremiumCache(key.userId, now);
    }

    method CloseBySourceWithinTx(key: RowKey, toStatus: EntitlementStatus, now: Time)
      modifies this`rows, this`cache
      ensures State() == Close(old(State()), key, toStatus, now)
    {
      var active := FindActiveEntitlementBySource(key);
      if !active { return; }
      UpsertEntitlement(key, toStatus, rows[key].expiresAt);
      RefreshPremiumCache(key.userId, now);
    }

    // ── Purchases ──────────────────────────────────────────────────────────────

    /** Find, guard the owner, then update or create. */
    method UpsertVerifiedPurchase(owner: UserId, token: Token, a: Answer) returns (ok: bool)
      modifies this`purchases
      ensures ok <==> EntitlementRows.UpsertVerifiedPurchase(old(State()), owner, token, a).Committed?
      ensures State() == if ok then EntitlementRows.UpsertVerifiedPurchase(old(State()), owner, token, a).db else old(State())
    {
      if token in purchases {
        var existing := purchases[token];
        if existing.userId != owner { return false; }
        purchases := purchases[token :=
          Purchase(existing.id, existing.userId, a.state, a.expiresAt, a.acknowledged, a.linkedToken)];
      } else {
        purchases := purchases[token := Purchase(token, owner, a.state, a.expiresAt, a.acknowledged, a.linkedToken)];
      }
      return true;
    }

    method SetPurchaseState(token: Token, state: SubscriptionState)
      requires token in purchases
      modifies this`purchases
      ensures State() == SetState(old(State()), token, state)
    {
      purchases := purchases[token := purchases[token].(state := state)];
    }

    // ── Verification service ───────────────────────────────────────────────────

    /** The transaction of `reconcileFromGoogle`; a refused transaction leaves every table as it was. */
    method ReconcileInTx(asserted: Option<UserId>, token: Token, a: Answer, entitling: bool, now: Time)
      returns (outcome: TxOutcome)
      modifies this
      ensures var tx := ReconcileTx(old(State()), asserted, token, a, entitling, now);
              && (outcome.Done? <==> tx.Committed?)
              && (outcome.NoOwner? <==> tx.Unattributable?)
              && State() == if tx.Committed? then tx.db else old(State())
    {
      var linked := if a.linkedToken.Some? && a.linkedToken.value != token then a.linkedToken else None;
      var locked := token in purchases;
      var predecessor: Option<Purchase> :=
        if !locked && linked.Some? && linked.value in purchases then Some(purchases[linked.value]) else None;
      var owner :=
        if locked then Some(purchases[token].userId)
        else if predecessor.Some? then Some(predecessor.value.userId)
        else asserted;
      if owner.None? { return NoOwner; }
      if asserted.Some? && owner != asserted { return Conflict; }
      var ok := UpsertVerifiedPurchase(owner.value, token, a);
      if !ok { return Conflict; }
      var key := KeyOf(purchases[token]);
      if entitling {
        GrantWithinTx(key, a.expiresAt, None, now);
        if predecessor.Some? {
          CloseBySourceWithinTx(KeyOf(predecessor.value), Expired, now);
          SetPurchaseState(linked.value, EXPIRED);
        }
      } else {
        CloseBySourceWithinTx(key, Expired, now);
      }
      return Done;
    }

    method AcknowledgeIfNeeded(token: Token, googleAccepts: bool) returns (acknowledged: bool)
      modifies this`purchases
      ensures State() == AcknowledgeTx(old(State()), token, googleAccepts)
      ensures acknowledged <==> token in purchases && purchases[token].acknowledged
    {
      if token !in purchases { return false; }
      if purchases[token].acknowledged { return true; }
      if googleAccepts {
        purchases := purchases[token := purchases[token].(acknowledged := true)];
        return true;
      }
      return false;
    }

    method RevokeByToken(token: Token, now: Time)
      modifies this
      ensures State() == RevokeTx(old(State()), token, now)
    {
      if token !in purchases { return; }
      var purchase := purchases[token];
      SetPurchaseState(token, REVOKED);
      CloseBySourceWithinTx(KeyOf(purchase), Revoked, now);
    }

    method ExpireByToken(token: Token, now: Time)
      modifies this
      ensures State() == ExpireTx(old(State()), token, now)
    {
      if token !in purchases { return; }
      var purchase := purchases[token];
      SetPurchaseState(token, EXPIRED);
      CloseBySourceWithinTx(KeyOf(purchase), Expired, now);
    }
  }
}
