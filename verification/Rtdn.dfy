/**
 Real-time developer notifications: a signal to fetch again, delivered at least
 once, in any order.  A delivery that is recorded is never acted on twice, a
 delivery that must be retried leaves no trace, and for a token on record only
 the last fetch matters.
 */
module Rtdn {
  import opened Wrappers
  import opened EntitlementRows
  import opened EntitlementStore
  import opened Ownership
  import opened Register
  import opened Migration
  import opened VerificationFlow

  type MessageId = nat

  /** A decoded notification; a voided purchase and a REVOKED notification both revoke. */
  datatype Payload = Malformed | Test | NoToken | About(token: Token, isRevoke: bool)

  /** One delivery of a message, with what Google replies if it is asked. */
  datatype Delivery = Delivery(messageId: MessageId, payload: Payload, reply: Reply, at: Time)

  datatype Outcome = Duplicate | BadPayload | TestMessage | Ignored | UnknownPurchase | Processed | Retry

  /** The tables, and the message ids in the audit log. */
  datatype Inbox = Inbox(db: Db, recorded: set<MessageId>)

  datatype Handled = Handled(inbox: Inbox, outcome: Outcome)

  // ── Handling one delivery ──────────────────────────────────────────────────

  /** A token that is not on record: only its chain can attribute it. */
  ghost function Migrate(db: Db, token: Token, reply: Reply, now: Time): (Db, Outcome) {
    var f := ReconcileFlow(db, None, token, reply, now);
    match f.result
    case Reconciled => (f.db, Processed)
    case NoKnownOwner => (db, UnknownPurchase)
    case GoneToken => (db, UnknownPurchase)
    case UnknownProduct => (db, UnknownPurchase)
    case _ => (db, Retry)
  }

  /** A token on record: fetch and reconcile for its owner, or expire it when Google dropped it. */
  ghost function Sync(db: Db, token: Token, reply: Reply, now: Time): (Db, Outcome)
    requires token in db.purchases
  {
    var f := ReconcileFlow(db, Some(db.purchases[token].userId), token, reply, now);
    match f.result
    case Reconciled => (f.db, Processed)
    case GoneToken => (ExpireTx(db, token, now), Processed)
    case UnknownProduct => (db, Processed)
    case _ => (db, Retry)
  }

  ghost function Act(db: Db, d: Delivery): (Db, Outcome) {
    match d.payload
    case Malformed => (db, BadPayload)
    case Test => (db, TestMessage)
    case NoToken => (db, Ignored)
    case About(token, isRevoke) =>
      if token !in db.purchases then
        if isRevoke then (db, UnknownPurchase) else Migrate(db, token, d.reply, d.at)
      else if isRevoke then (RevokeTx(db, token, d.at), Processed)
      else Sync(db, token, d.reply, d.at)
  }

  ghost function Handle(s: Inbox, d: Delivery): Handled {
    if d.messageId in s.recorded then Handled(s, Duplicate)
    else
      var (db, outcome) := Act(s.db, d);
      Handled(Inbox(db, if outcome.Retry? then s.recorded else s.recorded + {d.messageId}), outcome)
  }

  class AuditLog {
    var recorded: set<MessageId>

    constructor ()
      ensures recorded == {}
    {
      recorded := {};
    }

    method RecordProcessed(messageId: MessageId)
      modifies this
      ensures recorded == old(recorded) + {messageId}
    {
      recorded := recorded + {messageId};
    }
  }

  method MigrateUnknownToken(store: Store, token: Token, reply: Reply, now: Time) returns (outcome: Outcome)
    modifies store
    ensures (store.State(), outcome) == Migrate(old(store.State()), token, reply, now)
  {
    var result := ReconcileFromGoogle(store, None, token, reply, now);
    FlowFailsClean(old(store.State()), None, token, reply, now);
    match result {
      case Reconciled => return Processed;
      case NoKnownOwner => return UnknownPurchase;
      case GoneToken => return UnknownPurchase;
      case UnknownProduct => return UnknownPurchase;
      case _ => return Retry;
    }
  }

  method SyncFromGoogle(store: Store, token: Token, reply: Reply, now: Time) returns (outcome: Outcome)
    requires token in store.purchases
    modifies store
    ensures (store.State(), outcome) == Sync(old(store.State()), token, reply, now)
  {
    var result := ReconcileFromGoogle(store, Some(store.purchases[token].userId), token, reply, now);
    FlowFailsClean(old(store.State()), Some(old(store.purchases)[token].userId), token, reply, now);
    match result {
      case Reconciled => return Processed;
      case GoneToken =>
        store.ExpireByToken(token, now);
        return Processed;
      case UnknownProduct => return Processed;
      case _ => return Retry;
    }
  }

  method ProcessPushMessage(store: Store, log: AuditLog, d: Delivery) returns (outcome: Outcome)
    modifies store, log
    ensures Handled(Inbox(store.State(), log.recorded), outcome) == Handle(Inbox(old(store.State()), old(log.recorded)), d)
  {
    if d.messageId in log.recorded { return Duplicate; }
    match d.payload {
      case Malformed =>
        log.RecordProcessed(d.messageId);
        return BadPayload;
      case Test =>
        log.RecordProcessed(d.messageId);
        return TestMessage;
      case NoToken =>
        log.RecordProcessed(d.messageId);
        return Ignored;
      case About(token, isRevoke) =>
        outcome := UnknownPurchase;
        if token !in store.purchases {
          if !isRevoke {
            outcome := MigrateUnknownToken(store, token, d.reply, d.at);
          }
        } else if isRevoke {
          store.RevokeByToken(token, d.at);
          outcome := Processed;
        } else {
          outcome := SyncFromGoogle(store, token, d.reply, d.at);
        }
        if outcome != Retry {
          log.RecordProcessed(d.messageId);
        }
    }
  }

  lemma FlowFailsClean(db: Db, asserted: Option<UserId>, token: Token, reply: Reply, now: Time)
    ensures !ReconcileFlow(db, asserted, token, reply, now).result.Reconciled? ==>
      ReconcileFlow(db, asserted, token, reply, now).db == db
  {
  }

  // ── Deliveries are schedules ───────────────────────────────────────────────

  /** The transactions that handling a delivery runs. */
  ghost function HandleRan(s: Inbox, d: Delivery): seq<Tx> {
    if d.messageId in s.recorded || !d.payload.About? then []
    else
      var token := d.payload.token;
      if token !in s.db.purchases then
        if d.payload.isRevoke then [] else FlowRan(s.db, None, token, d.reply, d.at)
      else if d.payload.isRevoke then [Tx(Revoke(token), d.at)]
      else if d.reply.TokenGone? then [Tx(Expire(token), d.at)]
      else FlowRan(s.db, Some(s.db.purchases[token].userId), token, d.reply, d.at)
  }

  lemma HandleIsSerial(s: Inbox, d: Delivery)
    ensures Serial(s.db, HandleRan(s, d)) == Handle(s, d).inbox.db
  {
    if d.messageId !in s.recorded && d.payload.About? {
      var token := d.payload.token;
      if token !in s.db.purchases {
        FlowRanIsSerial(s.db, None, token, d.reply, d.at);
        FlowFailsClean(s.db, None, token, d.reply, d.at);
      } else if d.payload.isRevoke {
        SerialOne(s.db, Tx(Revoke(token), d.at));
      } else {
        SerialOne(s.db, Tx(Expire(token), d.at));
        FlowRanIsSerial(s.db, Some(s.db.purchases[token].userId), token, d.reply, d.at);
        FlowFailsClean(s.db, Some(s.db.purchases[token].userId), token, d.reply, d.at);
      }
    }
  }

  // ── What a delivery comes to ───────────────────────────────────────────────

  /** A delivery that is a duplicate, or says nothing about a subscription, changes no table. */
  lemma HandleOther(s: Inbox, d: Delivery)
    ensures d.messageId in s.recorded ==> Handle(s, d) == Handled(s, Duplicate)
    ensures d.messageId !in s.recorded && !d.payload.About? ==>
      Handle(s, d) == Handled(Inbox(s.db, s.recorded + {d.messageId}),
        match d.payload case Malformed => BadPayload case Test => TestMessage case _ => Ignored)
  {
  }

  /**
   A new delivery about a token on record: revoking it, or hearing that Google dropped
   it, ends its purchase and closes its row; an unknown product changes nothing; a
   failing call is to be retried; any other answer is reconciled for its owner.
   */
  lemma HandleKnown(s: Inbox, d: Delivery)
    requires Inv(s.db) && d.messageId !in s.recorded && d.payload.About? && d.payload.token in s.db.purchases
    ensures var t, r := d.payload.token, Handle(s, d).inbox.db;
            var p := s.db.purchases[t];
            if d.payload.isRevoke then
              && Handle(s, d).outcome == Processed && Ended(s.db, r, t, REVOKED, EntitlementStatus.Revoked)
            else match d.reply
              case TokenGone => Handle(s, d).outcome == Processed && Ended(s.db, r, t, EXPIRED, EntitlementStatus.Expired)
              case NotConfigured => Handle(s, d) == Handled(s, Retry)
              case CallFailed => Handle(s, d) == Handled(s, Retry)
              case Answered(a, _) =>
                && Handle(s, d).outcome == Processed
                && r == if a.knownProduct then ReconcileFlow(s.db, Some(p.userId), t, d.reply, d.at).db else s.db
    ensures !Handle(s, d).outcome.Retry? ==> Handle(s, d).inbox.recorded == s.recorded + {d.messageId}
  {
    var t := d.payload.token;
    ForcedEndings(Sys(s.db, d.at), t);
    FlowOutcome(s.db, Some(s.db.purchases[t].userId), t, d.reply, d.at);
  }

  /**
   A new delivery about a token not on record: only an answer that continues a token on
   record is processed, for that token's owner; without one the purchase stays unknown.
   */
  lemma HandleUnknown(s: Inbox, d: Delivery)
    requires Inv(s.db) && d.messageId !in s.recorded && d.payload.About? && d.payload.token !in s.db.purchases
    ensures var t, h := d.payload.token, Handle(s, d);
            if !d.payload.isRevoke && (d.reply.NotConfigured? || d.reply.CallFailed?) then h == Handled(s, Retry)
            else if !d.payload.isRevoke && d.reply.Answered? && d.reply.answer.knownProduct && Continues(s.db, t, d.reply.answer) then
              && h.outcome == Processed && t in h.inbox.db.purchases
              && h.inbox.db.purchases[t].userId == s.db.purchases[d.reply.answer.linkedToken.value].userId
              && h.inbox.db == ReconcileFlow(s.db, None, t, d.reply, d.at).db
            else h == Handled(Inbox(s.db, s.recorded + {d.messageId}), UnknownPurchase)
  {
    FlowOutcome(s.db, None, d.payload.token, d.reply, d.at);
  }

  // ── Redelivery ─────────────────────────────────────────────────────────────

  ghost function Deliver(s: Inbox, ds: seq<Delivery>): Inbox {
    if ds == [] then s else Handle(Deliver(s, ds[..|ds| - 1]), ds[|ds| - 1]).inbox
  }

  /** The deliveries of the run that were neither duplicates nor retried, in order. */
  ghost function Effective(s: Inbox, ds: seq<Delivery>): seq<Delivery> {
    if ds == [] then []
    else
      var init, last := ds[..|ds| - 1], ds[|ds| - 1];
      var outcome := Handle(Deliver(s, init), last).outcome;
      if outcome.Duplicate? || outcome.Retry? then Effective(s, init) else Effective(s, init) + [last]
  }

  /** A delivery to retry has failed at Google and leaves tables and log as they were. */
  lemma RetryIffGoogleFails(s: Inbox, d: Delivery)
    requires Inv(s.db)
    ensures var h := Handle(s, d);
            && (h.outcome.Retry? <==>
                  d.messageId !in s.recorded && d.payload.About? && !d.payload.isRevoke
                  && (d.reply.NotConfigured? || d.reply.CallFailed?))
            && (d.messageId in h.inbox.recorded <==> !h.outcome.Retry?)
            && (h.outcome.Retry? || h.outcome.Duplicate? ==> h.inbox == s)
  {
    if d.payload.About? && !d.payload.isRevoke {
      var token := d.payload.token;
      if token in s.db.purchases {
        KnownTokenFlow(s.db, token, d.reply, d.at);
      }
    }
  }

  lemma MigrateKeepsInv(db: Db, token: Token, reply: Reply, now: Time)
    requires Inv(db)
    ensures var r := Migrate(db, token, reply, now).0; Inv(r) && KeepsOwners(db, r)
  {
    FlowKeepsInv(db, None, token, reply, now);
  }

  lemma SyncKeepsInv(db: Db, token: Token, reply: Reply, now: Time)
    requires Inv(db) && token in db.purchases
    ensures var r := Sync(db, token, reply, now).0; Inv(r) && KeepsOwners(db, r)
  {
    FlowKeepsInv(db, Some(db.purchases[token].userId), token, reply, now);
    StepKeepsInv(Sys(db, now), Expire(token));
  }

  lemma HandleKeepsInv(s: Inbox, d: Delivery)
    requires Inv(s.db)
    ensures Inv(Handle(s, d).inbox.db) && KeepsOwners(s.db, Handle(s, d).inbox.db)
  {
    if d.messageId !in s.recorded && d.payload.About? {
      var token := d.payload.token;
      if token !in s.db.purchases {
        MigrateKeepsInv(s.db, token, d.reply, d.at);
      } else if d.payload.isRevoke {
        StepKeepsInv(Sys(s.db, d.at), Revoke(token));
      } else {
        SyncKeepsInv(s.db, token, d.reply, d.at);
      }
    }
  }

  lemma {:induction false} DeliverKeepsInv(s: Inbox, ds: seq<Delivery>)
    requires Inv(s.db)
    ensures Inv(Deliver(s, ds).db) && KeepsOwners(s.db, Deliver(s, ds).db)
  {
    if ds != [] {
      DeliverKeepsInv(s, ds[..|ds| - 1]);
      HandleKeepsInv(Deliver(s, ds[..|ds| - 1]), ds[|ds| - 1]);
    }
  }

  /** The schedule records distinct new messages, and nothing else gets recorded. */
  ghost predicate EachOnce(start: set<MessageId>, ds: seq<Delivery>, recorded: set<MessageId>) {
    && recorded == start + (set d | d in ds :: d.messageId)
    && (forall i :: 0 <= i < |ds| ==> ds[i].messageId !in start)
    && forall i, j :: 0 <= i < j < |ds| ==> ds[i].messageId != ds[j].messageId
  }

  lemma OnceMore(start: set<MessageId>, ds: seq<Delivery>, recorded: set<MessageId>, d: Delivery)
    requires EachOnce(start, ds, recorded) && d.messageId !in recorded
    ensures EachOnce(start, ds + [d], recorded + {d.messageId})
  {
  }

  /**
   However often messages are redelivered and retried, the outcome is that of a
   schedule in which every message is delivered at most once.
   */
  lemma {:induction false} RedeliveryIsInert(s: Inbox, ds: seq<Delivery>)
    requires Inv(s.db)
    ensures Deliver(s, Effective(s, ds)) == Deliver(s, ds)
    ensures EachOnce(s.recorded, Effective(s, ds), Deliver(s, ds).recorded)
  {
    if ds != [] {
      var init, last := ds[..|ds| - 1], ds[|ds| - 1];
      RedeliveryIsInert(s, init);
      DeliverKeepsInv(s, init);
      RetryIffGoogleFails(Deliver(s, init), last);
      var before, after := Effective(s, init), Effective(s, ds);
      if after != before {
        OnceMore(s.recorded, before, Deliver(s, init).recorded, last);
        assert after[..|after| - 1] == before;
      }
    }
  }

  // ── Owners ─────────────────────────────────────────────────────────────────

  lemma FlowOwners(db: Db, asserted: Option<UserId>, token: Token, reply: Reply, now: Time)
    requires Inv(db) && (asserted.Some? ==> asserted.value in Owners(db))
    ensures Owners(ReconcileFlow(db, asserted, token, reply, now).db) <= Owners(db)
  {
    FlowIsSerial(db, asserted, token, reply, now);
    SerialOwners(db, FlowTxs(asserted, token, reply, now));
    assert Asserted(FlowTxs(asserted, token, reply, now)) <= Owners(db);
  }

  lemma HandleOwners(s: Inbox, d: Delivery)
    requires Inv(s.db)
    ensures Owners(Handle(s, d).inbox.db) <= Owners(s.db)
  {
    if d.messageId !in s.recorded && d.payload.About? {
      var token := d.payload.token;
      if token !in s.db.purchases {
        FlowOwners(s.db, None, token, d.reply, d.at);
      } else if d.payload.isRevoke {
        StepOwners(Sys(s.db, d.at), Revoke(token));
      } else {
        FlowOwners(s.db, Some(s.db.purchases[token].userId), token, d.reply, d.at);
        StepOwners(Sys(s.db, d.at), Expire(token));
      }
    }
  }

  /** Notifications alone never bring in an owner. */
  lemma {:induction false} DeliverOwners(s: Inbox, ds: seq<Delivery>)
    requires Inv(s.db)
    ensures Owners(Deliver(s, ds).db) <= Owners(s.db)
  {
    if ds != [] {
      DeliverOwners(s, ds[..|ds| - 1]);
      DeliverKeepsInv(s, ds[..|ds| - 1]);
      HandleOwners(Deliver(s, ds[..|ds| - 1]), ds[|ds| - 1]);
    }
  }

  // ── The latest fetch wins ──────────────────────────────────────────────────

  /** The time a fetched answer leaves in the register of its token. */
  function Fetched(reply: Reply, now: Time): Option<Time> {
    if reply.Answered? && IsEntitling(reply.answer.state, reply.answer.expiresAt, now) then reply.answer.expiresAt else None
  }

  /** A revocation needs no fetch; any other notification acts on what its fetch says. */
  predicate Decides(d: Delivery)
    requires d.payload.About?
  {
    d.payload.isRevoke || d.reply.TokenGone? || (d.reply.Answered? && d.reply.answer.knownProduct)
  }

  /** The registers of the two states agree, except for the time in the register of `t`. */
  ghost predicate AgreeBut(a: Registers, b: Registers, t: Token) {
    t in a && t in b && a == b[t := a[t]] && a[t].(until := b[t].until) == b[t]
  }

  lemma FlowRegister(db: Db, token: Token, reply: Reply, now: Time)
    requires Inv(db) && token in db.purchases
    requires reply.Answered? && reply.answer.knownProduct
    ensures var f := ReconcileFlow(db, Some(db.purchases[token].userId), token, reply, now);
            f.result.Reconciled? && Abs(f.db) == Abs(db)[token := Abs(db)[token].(until := Fetched(reply, now))]
  {
    var a, owner := reply.answer, db.purchases[token].userId;
    var entitling := IsEntitling(a.state, a.expiresAt, now);
    ReconcileEffect(db, Some(owner), token, a, entitling, now);
    ReconcileRefines(db, Some(owner), token, a, entitling, now);
    AcknowledgeRefines(ReconcileTx(db, Some(owner), token, a, entitling, now).db, token, reply.ackAccepted);
  }

  lemma HandleRegister(s: Inbox, d: Delivery)
    requires Inv(s.db) && d.payload.About? && d.payload.token in s.db.purchases
    ensures AgreeBut(Abs(Handle(s, d).inbox.db), Abs(s.db), d.payload.token)
    ensures d.messageId !in s.recorded && Decides(d) ==>
      Abs(Handle(s, d).inbox.db)[d.payload.token].until == (if d.payload.isRevoke then None else Fetched(d.reply, d.at))
  {
    var token := d.payload.token;
    if d.messageId !in s.recorded {
      if d.payload.isRevoke {
        ApplyRefines(Sys(s.db, d.at), Revoke(token));
      } else if d.reply.TokenGone? {
        ApplyRefines(Sys(s.db, d.at), Expire(token));
      } else if d.reply.Answered? && d.reply.answer.knownProduct {
        FlowRegister(s.db, token, d.reply, d.at);
      }
    }
  }

  lemma {:induction false} DeliverRegister(s: Inbox, ds: seq<Delivery>, t: Token)
    requires Inv(s.db) && t in s.db.purchases
    requires forall i :: 0 <= i < |ds| ==> ds[i].payload.About? && ds[i].payload.token == t
    ensures AgreeBut(Abs(Deliver(s, ds).db), Abs(s.db), t)
  {
    if ds != [] {
      var init := ds[..|ds| - 1];
      DeliverRegister(s, init, t);
      DeliverKeepsInv(s, init);
      HandleRegister(Deliver(s, init), ds[|ds| - 1]);
    }
  }

  /**
   Whatever notifications came before, about whatever tokens, in whatever order and
   however often, a new one about a token on record that revokes it or whose fetch
   succeeds leaves the register of its token as if it had been the only one.
   */
  lemma LatestFetchWins(s: Inbox, earlier: seq<Delivery>, d: Delivery)
    requires Inv(s.db) && d.payload.About? && d.payload.token in s.db.purchases && Decides(d)
    requires d.messageId !in s.recorded && forall i :: 0 <= i < |earlier| ==> earlier[i].messageId != d.messageId
    ensures var t := d.payload.token; var alone, after := Abs(Handle(s, d).inbox.db), Abs(Handle(Deliver(s, earlier), d).inbox.db);
            t in alone && t in after && after[t] == alone[t]
  {
    DeliverKeepsInv(s, earlier);
    RecordedFrom(s, earlier, d.messageId);
    HandleRegister(Deliver(s, earlier), d);
    HandleRegister(s, d);
  }

  /** When the earlier notifications were about the same token, every register is as if the last had been the only one. */
  lemma EarlierFetchesLeaveNothing(s: Inbox, earlier: seq<Delivery>, d: Delivery)
    requires Inv(s.db) && d.payload.About? && d.payload.token in s.db.purchases && Decides(d)
    requires forall i :: 0 <= i < |earlier| ==> earlier[i].payload.About? && earlier[i].payload.token == d.payload.token
    requires d.messageId !in s.recorded && forall i :: 0 <= i < |earlier| ==> earlier[i].messageId != d.messageId
    ensures Abs(Handle(Deliver(s, earlier), d).inbox.db) == Abs(Handle(s, d).inbox.db)
  {
    DeliverRegister(s, earlier, d.payload.token);
    DeliverKeepsInv(s, earlier);
    RecordedFrom(s, earlier, d.messageId);
    HandleRegister(Deliver(s, earlier), d);
    HandleRegister(s, d);
  }

  lemma {:induction false} RecordedFrom(s: Inbox, ds: seq<Delivery>, m: MessageId)
    requires m !in s.recorded && forall i :: 0 <= i < |ds| ==> ds[i].messageId != m
    ensures m !in Deliver(s, ds).recorded
  {
    if ds != [] {
      RecordedFrom(s, ds[..|ds| - 1], m);
    }
  }
}
