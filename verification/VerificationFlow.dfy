/**
 `reconcileFromGoogle` from the fetch to the acknowledgement, when nothing runs in
 between: verify, notifications and sweeps all go through it.
 */
module VerificationFlow {
  import opened Wrappers
  import opened EntitlementRows
  import opened EntitlementStore
  import opened Ownership

  /** What the calls to Google come to. */
  datatype Reply =
    | Answered(answer: Answer, ackAccepted: bool)
    | TokenGone
    | NotConfigured
    | CallFailed

  datatype FlowResult = Reconciled | GoneToken | UnknownProduct | Misconfigured | Unexpected | NoKnownOwner | OwnedByAnother

  datatype Flow = Flow(db: Db, result: FlowResult)

  ghost function ReconcileFlow(db: Db, asserted: Option<UserId>, token: Token, reply: Reply, now: Time): Flow {
    match reply
    case TokenGone => Flow(db, GoneToken)
    case NotConfigured => Flow(db, Misconfigured)
    case CallFailed => Flow(db, Unexpected)
    case Answered(a, ackAccepted) =>
      if !a.knownProduct then Flow(db, UnknownProduct)
      else
        var entitling := IsEntitling(a.state, a.expiresAt, now);
        match ReconcileTx(db, asserted, token, a, entitling, now)
        case Unattributable => Flow(db, NoKnownOwner)
        case OwnershipConflict => Flow(db, OwnedByAnother)
        case Committed(r) =>
          Flow(if entitling && !a.acknowledged then AcknowledgeTx(r, token, ackAccepted) else r, Reconciled)
  }

  method ReconcileFromGoogle(store: Store, asserted: Option<UserId>, token: Token, reply: Reply, now: Time)
    returns (result: FlowResult)
    modifies store
    ensures Flow(store.State(), result) == ReconcileFlow(old(store.State()), asserted, token, reply, now)
  {
    match reply {
      case TokenGone => return GoneToken;
      case NotConfigured => return Misconfigured;
      case CallFailed => return Unexpected;
      case Answered(a, ackAccepted) =>
        if !a.knownProduct { return UnknownProduct; }
        var entitling := IsEntitling(a.state, a.expiresAt, now);
        var outcome := store.ReconcileInTx(asserted, token, a, entitling, now);
        if outcome.NoOwner? { return NoKnownOwner; }
        if outcome.Conflict? { return OwnedByAnother; }
        if entitling && !a.acknowledged {
          var _ := store.AcknowledgeIfNeeded(token, ackAccepted);
        }
        return Reconciled;
    }
  }

  /** The flow as transactions of a serial schedule. */
  ghost function FlowTxs(asserted: Option<UserId>, token: Token, reply: Reply, now: Time): seq<Tx> {
    if reply.Answered? && reply.answer.knownProduct then
      var a := reply.answer;
      [Tx(Reconcile(asserted, token, a, now), now)] +
      if IsEntitling(a.state, a.expiresAt, now) && !a.acknowledged then [Tx(Acknowledge(token, reply.ackAccepted), now)] else []
    else []
  }

  lemma FlowIsSerial(db: Db, asserted: Option<UserId>, token: Token, reply: Reply, now: Time)
    ensures ReconcileFlow(db, asserted, token, reply, now).result.Reconciled? ==>
      ReconcileFlow(db, asserted, token, reply, now).db == Serial(db, FlowTxs(asserted, token, reply, now))
    ensures !ReconcileFlow(db, asserted, token, reply, now).result.Reconciled? ==>
      ReconcileFlow(db, asserted, token, reply, now).db == db
  {
    var txs := FlowTxs(asserted, token, reply, now);
    if |txs| == 1 {
      assert txs[..0] == [];
    } else if |txs| == 2 {
      assert txs[..1][..0] == [] && txs[..1] == [txs[0]];
      assert Serial(db, txs[..1]) == Do(db, txs[0]);
    }
  }

  /** What the flow adds to a schedule: nothing unless it succeeds. */
  ghost function FlowRan(db: Db, asserted: Option<UserId>, token: Token, reply: Reply, now: Time): seq<Tx> {
    if ReconcileFlow(db, asserted, token, reply, now).result.Reconciled? then FlowTxs(asserted, token, reply, now) else []
  }

  lemma FlowRanIsSerial(db: Db, asserted: Option<UserId>, token: Token, reply: Reply, now: Time)
    ensures Serial(db, FlowRan(db, asserted, token, reply, now)) == ReconcileFlow(db, asserted, token, reply, now).db
  {
    FlowIsSerial(db, asserted, token, reply, now);
  }

  lemma FlowKeepsInv(db: Db, asserted: Option<UserId>, token: Token, reply: Reply, now: Time)
    requires Inv(db)
    ensures var r := ReconcileFlow(db, asserted, token, reply, now).db; Inv(r) && KeepsOwners(db, r)
  {
    FlowIsSerial(db, asserted, token, reply, now);
    SerialKeepsOwners(db, FlowTxs(asserted, token, reply, now));
  }

  /** For a token on record the flow changes no other purchase, and stores Google's state and acknowledgement. */
  lemma KnownTokenFlow(db: Db, token: Token, reply: Reply, now: Time)
    requires Inv(db) && token in db.purchases
    ensures var owner := db.purchases[token].userId;
            var f := ReconcileFlow(db, Some(owner), token, reply, now);
            && !f.result.NoKnownOwner? && !f.result.OwnedByAnother?
            && f.db.purchases.Keys == db.purchases.Keys
            && (forall t :: t in db.purchases && t != token ==> f.db.purchases[t] == db.purchases[t])
            && (!f.result.Reconciled? ==> f.db == db)
            && (f.result.Reconciled? ==>
                  var a := reply.answer;
                  && reply.Answered? && a.knownProduct
                  && f.db.purchases[token].state == a.state
                  && (f.db.purchases[token].acknowledged <==>
                        a.acknowledged || (IsEntitling(a.state, a.expiresAt, now) && reply.ackAccepted)))
  {
    if reply.Answered? && reply.answer.knownProduct {
      var a := reply.answer;
      ReconcileEffect(db, Some(db.purchases[token].userId), token, a, IsEntitling(a.state, a.expiresAt, now), now);
    }
  }

  // ── What a reconcile comes to, in the terms of Google's answer ─────────────

  /** The predecessor on record that a token not on record continues. */
  predicate Continues(db: Db, token: Token, a: Answer) {
    token !in db.purchases && a.linkedToken.Some? && a.linkedToken.value in db.purchases
  }

  /**
   Each reply has its own outcome.  An answer about a known product is stored for the
   owner of the token, else of the predecessor it continues, else for whoever asserts
   it, and refused to anyone else; only a stored answer changes anything.
   */
  lemma FlowOutcome(db: Db, asserted: Option<UserId>, token: Token, reply: Reply, now: Time)
    requires Inv(db)
    ensures var f := ReconcileFlow(db, asserted, token, reply, now);
            match reply
            case TokenGone => f == Flow(db, GoneToken)
            case NotConfigured => f == Flow(db, Misconfigured)
            case CallFailed => f == Flow(db, Unexpected)
            case Answered(a, _) =>
              if !a.knownProduct then f == Flow(db, UnknownProduct)
              else if token !in db.purchases && !Continues(db, token, a) && asserted.None? then f == Flow(db, NoKnownOwner)
              else
                var owner := if token in db.purchases then db.purchases[token].userId
                             else if Continues(db, token, a) then db.purchases[a.linkedToken.value].userId
                             else asserted.value;
                if asserted.Some? && asserted.value != owner then f == Flow(db, OwnedByAnother)
                else
                  && f.result == Reconciled && token in f.db.purchases && f.db.purchases[token].userId == owner
                  && (token in db.purchases ==> f.db.purchases[token].id == db.purchases[token].id)
  {
    if reply.Answered? && reply.answer.knownProduct {
      var a := reply.answer;
      ReconcileEffect(db, asserted, token, a, IsEntitling(a.state, a.expiresAt, now), now);
    }
  }

  /**
   A stored answer leaves its own fields in the purchase and the token's row active, to
   the answer's expiry, exactly when Google calls the subscription active, canceled or
   in its grace period and its expiry lies ahead.  In any other state a row that was
   active is expired.  The flag is on when Google said so, or accepted the acknowledge
   that only an entitling answer is followed by.
   */
  lemma ReconciledMeans(db: Db, asserted: Option<UserId>, token: Token, reply: Reply, now: Time)
    requires Inv(db) && ReconcileFlow(db, asserted, token, reply, now).result.Reconciled?
    ensures var r, a := ReconcileFlow(db, asserted, token, reply, now).db, reply.answer;
            var entitled := (a.state == ACTIVE || a.state == CANCELED || a.state == IN_GRACE_PERIOD)
                            && a.expiresAt.Some? && a.expiresAt.value > now;
            && token in r.purchases
            && var p := r.purchases[token]; var key := RowKey(p.userId, SUBSCRIPTION, Some(p.id));
               && p.state == a.state && p.expiresAt == a.expiresAt && p.linkedToken == a.linkedToken
               && (p.acknowledged <==> a.acknowledged || (entitled && reply.ackAccepted))
               && (key in r.rows && r.rows[key].status == Active <==> entitled)
               && (entitled ==> r.rows[key].expiresAt == a.expiresAt)
               && (!entitled ==> (key in r.rows <==> key in db.rows))
               && (!entitled && key in db.rows ==>
                     r.rows[key] == if db.rows[key].status == Active
                                    then db.rows[key].(status := EntitlementStatus.Expired) else db.rows[key])
  {
    var a := reply.answer;
    ReconcileEffect(db, asserted, token, a, IsEntitling(a.state, a.expiresAt, now), now);
  }

  /**
   A reconcile touches one other token at most: an entitling answer for a token not on
   record expires the predecessor it continues.
   */
  lemma ReconciledElsewhere(db: Db, asserted: Option<UserId>, token: Token, reply: Reply, now: Time, t: Token)
    requires Inv(db) && ReconcileFlow(db, asserted, token, reply, now).result.Reconciled?
    requires t != token && t in db.purchases
    ensures var r, a := ReconcileFlow(db, asserted, token, reply, now).db, reply.answer;
            var p := db.purchases[t]; var key := RowKey(p.userId, SUBSCRIPTION, Some(p.id));
            var superseded := token !in db.purchases && a.linkedToken == Some(t)
                              && (a.state == ACTIVE || a.state == CANCELED || a.state == IN_GRACE_PERIOD)
                              && a.expiresAt.Some? && a.expiresAt.value > now;
            && t in r.purchases && r.purchases[t] == (if superseded then p.(state := EXPIRED) else p)
            && (key in r.rows <==> key in db.rows)
            && (key in db.rows ==>
                  r.rows[key] == if superseded && db.rows[key].status == Active
                                 then db.rows[key].(status := EntitlementStatus.Expired) else db.rows[key])
  {
    var a := reply.answer;
    ReconcileEffect(db, asserted, token, a, IsEntitling(a.state, a.expiresAt, now), now);
  }

  // ── The client's verify ────────────────────────────────────────────────────

  /** A token bound to another user is refused before Google is asked. */
  ghost function VerifyFlow(db: Db, user: UserId, token: Token, reply: Reply, now: Time): Flow {
    if token in db.purchases && db.purchases[token].userId != user then Flow(db, OwnedByAnother)
    else ReconcileFlow(db, Some(user), token, reply, now)
  }

  ghost function VerifyRan(db: Db, user: UserId, token: Token, reply: Reply, now: Time): seq<Tx> {
    if token in db.purchases && db.purchases[token].userId != user then [] else FlowRan(db, Some(user), token, reply, now)
  }

  lemma VerifyIsSerial(db: Db, user: UserId, token: Token, reply: Reply, now: Time)
    ensures Serial(db, VerifyRan(db, user, token, reply, now)) == VerifyFlow(db, user, token, reply, now).db
  {
    FlowRanIsSerial(db, Some(user), token, reply, now);
  }

  method Verify(store: Store, user: UserId, token: Token, reply: Reply, now: Time) returns (result: FlowResult)
    modifies store
    ensures Flow(store.State(), result) == VerifyFlow(old(store.State()), user, token, reply, now)
  {
    if token in store.purchases && store.purchases[token].userId != user { return OwnedByAnother; }
    result := ReconcileFromGoogle(store, Some(user), token, reply, now);
  }

  /**
   A client can claim neither a token nor a chain of someone else: a verify that
   succeeds leaves the token, and the predecessor it takes over from, with the
   requester; any other outcome changes nothing.
   */
  lemma VerifyNeverSteals(db: Db, user: UserId, token: Token, reply: Reply, now: Time)
    requires Inv(db)
    ensures var f := VerifyFlow(db, user, token, reply, now);
            && (!f.result.Reconciled? ==> f.db == db)
            && (f.result.Reconciled? ==>
                  var pred := Predecessor(db, token, reply.answer);
                  && token in f.db.purchases && f.db.purchases[token].userId == user
                  && (pred.Some? ==> db.purchases[pred.value].userId == user))
            && !f.result.NoKnownOwner?
  {
    FlowIsSerial(db, Some(user), token, reply, now);
    if reply.Answered? && reply.answer.knownProduct {
      var a := reply.answer;
      ReconcileEffect(db, Some(user), token, a, IsEntitling(a.state, a.expiresAt, now), now);
    }
  }

  /** The early guard refuses nothing that the transaction would have accepted. */
  lemma GuardRefusesWhatTxRefuses(db: Db, user: UserId, token: Token, a: Answer, entitling: bool, now: Time)
    requires token in db.purchases
    ensures db.purchases[token].userId != user <==> ReconcileTx(db, Some(user), token, a, entitling, now).OwnershipConflict?
  {
  }

  /** A verify is refused exactly when the token, or the predecessor it continues, is someone else's. */
  lemma VerifyRefusedIff(db: Db, user: UserId, token: Token, reply: Reply, now: Time)
    requires Inv(db)
    ensures VerifyFlow(db, user, token, reply, now).result.OwnedByAnother? <==>
            (token in db.purchases && db.purchases[token].userId != user)
            || (reply.Answered? && reply.answer.knownProduct && Continues(db, token, reply.answer)
                && db.purchases[reply.answer.linkedToken.value].userId != user)
    ensures VerifyFlow(db, user, token, reply, now).result.Reconciled? <==>
            reply.Answered? && reply.answer.knownProduct && !VerifyFlow(db, user, token, reply, now).result.OwnedByAnother?
  {
    FlowOutcome(db, Some(user), token, reply, now);
  }
}
