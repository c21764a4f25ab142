/**
 The tables refine a much simpler object: one register per token, holding its
 owner and, when it entitles, until when.  Every transaction overwrites the
 register of the token it is about, a migration also clears the predecessor's,
 and nothing else changes.  A user is premium by subscription exactly when some
 register they own holds a time still ahead.
 */
module Register {
  import opened Wrappers
  import opened EntitlementRows
  import opened Ownership

  datatype Reg = Reg(owner: UserId, until: Option<Time>)

  type Registers = map<Token, Reg>

  // ── Abstraction ────────────────────────────────────────────────────────────

  function UntilOf(db: Db, p: Purchase): Option<Time> {
    if KeyOf(p) in db.rows && db.rows[KeyOf(p)].status == Active then db.rows[KeyOf(p)].expiresAt else None
  }

  function RegOf(db: Db, p: Purchase): Reg { Reg(p.userId, UntilOf(db, p)) }

  function Abs(db: Db): Registers { map t | t in db.purchases :: RegOf(db, db.purchases[t]) }

  // ── The register machine ───────────────────────────────────────────────────

  function Clear(reg: Registers, t: Token): Registers {
    if t in reg then reg[t := reg[t].(until := None)] else reg
  }

  /** The linked token on record that a new token takes over from. */
  function Linked(reg: Registers, token: Token, a: Answer): Option<Token> {
    if token !in reg && a.linkedToken.Some? && a.linkedToken.value != token && a.linkedToken.value in reg
    then a.linkedToken else None
  }

  function NewOwner(reg: Registers, asserted: Option<UserId>, token: Token, a: Answer): Option<UserId> {
    if token in reg then Some(reg[token].owner)
    else if Linked(reg, token, a).Some? then Some(reg[Linked(reg, token, a).value].owner)
    else asserted
  }

  function RegReconcile(reg: Registers, asserted: Option<UserId>, token: Token, a: Answer, entitling: bool, now: Time): Registers {
    var owner := NewOwner(reg, asserted, token, a);
    if owner.None? || (asserted.Some? && owner != asserted) then reg
    else
      var pred := Linked(reg, token, a);
      var until := if entitling && a.expiresAt.Some? && a.expiresAt.value > now then a.expiresAt else None;
      var written := reg[token := Reg(owner.value, until)];
      if entitling && pred.Some? then Clear(written, pred.value) else written
  }

  ghost function RegApply(reg: Registers, op: Op, now: Time): Registers {
    match op
    case Reconcile(asserted, token, a, decidedAt) =>
      RegReconcile(reg, asserted, token, a, IsEntitling(a.state, a.expiresAt, decidedAt), now)
    case Revoke(token) => Clear(reg, token)
    case Expire(token) => Clear(reg, token)
    case CloseActive(pick, _) =>
      map t | t in reg :: if RowKey(reg[t].owner, SUBSCRIPTION, Some(t)) == pick then reg[t].(until := None) else reg[t]
    case _ => reg
  }

  // ── Refinement, transaction by transaction ─────────────────────────────────

  lemma KeysDiffer(db: Db, t: Token, u: Token)
    requires IdsFixed(db) && t in db.purchases && u in db.purchases && t != u
    ensures KeyOf(db.purchases[t]) != KeyOf(db.purchases[u])
  {
  }

  lemma CloseClears(db: Db, token: Token, state: SubscriptionState, toStatus: EntitlementStatus, now: Time)
    requires Inv(db) && token in db.purchases && toStatus != Active
    ensures Abs(Close(SetState(db, token, state), KeyOf(db.purchases[token]), toStatus, now)) == Clear(Abs(db), token)
  {
  }

  lemma ReconcileToken(db: Db, asserted: Option<UserId>, token: Token, a: Answer, entitling: bool, now: Time)
    requires Inv(db) && (entitling ==> a.expiresAt.Some?)
    requires ReconcileTx(db, asserted, token, a, entitling, now).Committed?
    ensures var r := ReconcileTx(db, asserted, token, a, entitling, now).db;
            var owner := ResolveOwner(db, asserted, token, a).value;
            && token in r.purchases
            && RegOf(r, r.purchases[token]) == Reg(owner,
                 if entitling && a.expiresAt.value > now then a.expiresAt else None)
  {
  }

  lemma ReconcileOther(db: Db, asserted: Option<UserId>, token: Token, a: Answer, entitling: bool, now: Time, t: Token)
    requires Inv(db) && (entitling ==> a.expiresAt.Some?)
    requires ReconcileTx(db, asserted, token, a, entitling, now).Committed?
    requires t in db.purchases && t != token
    ensures var r := ReconcileTx(db, asserted, token, a, entitling, now).db;
            && t in r.purchases
            && RegOf(r, r.purchases[t]) ==
               if entitling && Predecessor(db, token, a) == Some(t) then RegOf(db, db.purchases[t]).(until := None)
               else RegOf(db, db.purchases[t])
  {
    var r := ReconcileTx(db, asserted, token, a, entitling, now).db;
    ReconcileEffect(db, asserted, token, a, entitling, now);
    ReconcileKeepsInv(db, asserted, token, a, entitling, now);
    var pred := Predecessor(db, token, a);
    KeysDiffer(r, t, token);
    if entitling && pred.Some? && t != pred.value {
      KeysDiffer(db, t, pred.value);
    }
    assert KeyOf(r.purchases[t]) == KeyOf(db.purchases[t]);
  }

  lemma AbsReads(db: Db)
    ensures Abs(db).Keys == db.purchases.Keys
    ensures forall t :: t in db.purchases ==> Abs(db)[t] == RegOf(db, db.purchases[t])
  {
  }

  lemma SameQuestions(db: Db, asserted: Option<UserId>, token: Token, a: Answer)
    ensures Linked(Abs(db), token, a) == Predecessor(db, token, a)
    ensures NewOwner(Abs(db), asserted, token, a) == ResolveOwner(db, asserted, token, a)
  {
  }

  lemma ReconcileKeys(db: Db, asserted: Option<UserId>, token: Token, a: Answer, entitling: bool, now: Time)
    requires Inv(db)
    ensures ReconcileTx(db, asserted, token, a, entitling, now).Committed? <==>
      ResolveOwner(db, asserted, token, a).Some?
      && (asserted.None? || asserted == ResolveOwner(db, asserted, token, a))
    ensures ReconcileTx(db, asserted, token, a, entitling, now).Committed? ==>
      ReconcileTx(db, asserted, token, a, entitling, now).db.purchases.Keys == db.purchases.Keys + {token}
  {
  }

  lemma RegReconcileReads(
    reg: Registers, asserted: Option<UserId>, token: Token, a: Answer, entitling: bool, now: Time)
    requires NewOwner(reg, asserted, token, a).Some?
    requires asserted.None? || asserted == NewOwner(reg, asserted, token, a)
    ensures var r := RegReconcile(reg, asserted, token, a, entitling, now);
            && r.Keys == reg.Keys + {token}
            && r[token] == Reg(NewOwner(reg, asserted, token, a).value,
                 if entitling && a.expiresAt.Some? && a.expiresAt.value > now then a.expiresAt else None)
            && forall t :: t in reg && t != token ==>
                 r[t] == if entitling && Linked(reg, token, a) == Some(t) then reg[t].(until := None) else reg[t]
  {
  }

  lemma ReconcileRefines(db: Db, asserted: Option<UserId>, token: Token, a: Answer, entitling: bool, now: Time)
    requires Inv(db) && (entitling ==> a.expiresAt.Some?)
    ensures var tx := ReconcileTx(db, asserted, token, a, entitling, now);
            Abs(if tx.Committed? then tx.db else db) == RegReconcile(Abs(db), asserted, token, a, entitling, now)
  {
    var tx := ReconcileTx(db, asserted, token, a, entitling, now);
    SameQuestions(db, asserted, token, a);
    ReconcileKeys(db, asserted, token, a, entitling, now);
    if tx.Committed? {
      var want := RegReconcile(Abs(db), asserted, token, a, entitling, now);
      RegReconcileReads(Abs(db), asserted, token, a, entitling, now);
      AbsReads(db);
      AbsReads(tx.db);
      ReconcileToken(db, asserted, token, a, entitling, now);
      forall t | t in want ensures Abs(tx.db)[t] == want[t] {
        if t != token {
          ReconcileOther(db, asserted, token, a, entitling, now, t);
        }
      }
    }
  }

  lemma AcknowledgeRefines(db: Db, token: Token, ok: bool)
    ensures Abs(AcknowledgeTx(db, token, ok)) == Abs(db)
  {
  }

  lemma GrantOtherRefines(db: Db, key: RowKey, expiresAt: Option<Time>, startsAt: Option<Time>, now: Time)
    requires key.source != SUBSCRIPTION
    ensures Abs(Grant(db, key, expiresAt, startsAt, now)) == Abs(db)
  {
  }

  lemma CloseActiveRefines(db: Db, pick: RowKey, toStatus: EntitlementStatus, now: Time)
    requires Inv(db) && toStatus != Active
    ensures Abs(Close(db, pick, toStatus, now)) == RegApply(Abs(db), CloseActive(pick, toStatus), now)
  {
  }

  /** Every transaction does to the registers what the register machine does. */
  lemma ApplyRefines(s: Sys, op: Op)
    requires Inv(s.db)
    ensures Abs(Step(s, op).db) == if Enabled(s, op) then RegApply(Abs(s.db), op, s.now) else Abs(s.db)
  {
    if Enabled(s, op) {
      match op
      case Reconcile(asserted, token, a, decidedAt) =>
        ReconcileRefines(s.db, asserted, token, a, IsEntitling(a.state, a.expiresAt, decidedAt), s.now);
      case Revoke(token) =>
        if token in s.db.purchases {
          CloseClears(s.db, token, REVOKED, Revoked, s.now);
        }
      case Expire(token) =>
        if token in s.db.purchases {
          CloseClears(s.db, token, EXPIRED, Expired, s.now);
        }
      case Acknowledge(token, ok) => AcknowledgeRefines(s.db, token, ok);
      case GrantOther(key, expiresAt, startsAt) => GrantOtherRefines(s.db, key, expiresAt, startsAt, s.now);
      case CloseActive(pick, toStatus) => CloseActiveRefines(s.db, pick, toStatus, s.now);
      case Tick(_) =>
    }
  }

  // ── Premium, read off the registers ────────────────────────────────────────

  /** Some live row of the user comes from a subscription. */
  ghost predicate PremiumBySubscription(db: Db, user: UserId, now: Time) {
    exists k :: k in LiveRows(db, user, now) && k.source == SUBSCRIPTION
  }

  ghost predicate RegisterAhead(reg: Registers, user: UserId, now: Time) {
    exists t :: t in reg && reg[t].owner == user && reg[t].until.Some? && reg[t].until.value > now
  }

  lemma PremiumIffRegister(db: Db, user: UserId, now: Time)
    requires Inv(db)
    ensures PremiumBySubscription(db, user, now) <==> RegisterAhead(Abs(db), user, now)
  {
    if PremiumBySubscription(db, user, now) {
      var k :| k in LiveRows(db, user, now) && k.source == SUBSCRIPTION;
      var t :| t in db.purchases && KeyOf(db.purchases[t]) == k;
      assert t in Abs(db) && Abs(db)[t].owner == user;
    }
    if RegisterAhead(Abs(db), user, now) {
      var t :| t in Abs(db) && Abs(db)[t].owner == user && Abs(db)[t].until.Some? && Abs(db)[t].until.value > now;
      assert KeyOf(db.purchases[t]) in LiveRows(db, user, now);
    }
  }

  // ── Whole runs: the last touch decides ─────────────────────────────────────

  /** What an operation writes into the time of token `t`'s register, if it writes it. */
  ghost function RegTouch(reg: Registers, op: Op, now: Time, t: Token): Option<Option<Time>> {
    match op
    case Reconcile(asserted, token, a, decidedAt) =>
      var owner := NewOwner(reg, asserted, token, a);
      var entitling := IsEntitling(a.state, a.expiresAt, decidedAt);
      if owner.None? || (asserted.Some? && owner != asserted) then None
      else if t == token then Some(if entitling && a.expiresAt.value > now then a.expiresAt else None)
      else if entitling && Linked(reg, token, a) == Some(t) then Some(None)
      else None
    case Revoke(token) => if t == token && t in reg then Some(None) else None
    case Expire(token) => if t == token && t in reg then Some(None) else None
    case CloseActive(pick, _) =>
      if t in reg && RowKey(reg[t].owner, SUBSCRIPTION, Some(t)) == pick then Some(None) else None
    case _ => None
  }

  ghost function Touch(db: Db, tx: Tx, t: Token): Option<Option<Time>> {
    if Enabled(Sys(db, tx.at), tx.op) then RegTouch(Abs(db), tx.op, tx.at, t) else None
  }

  /** The value of the last touch of `t` in the schedule, or what it started from. */
  ghost function LastTouch(db: Db, txs: seq<Tx>, t: Token): Option<Time> {
    if txs == [] then (if t in Abs(db) then Abs(db)[t].until else None)
    else
      var init, last := txs[..|txs| - 1], txs[|txs| - 1];
      var touch := Touch(Serial(db, init), last, t);
      if touch.Some? then touch.value else LastTouch(db, init, t)
  }

  lemma RegTouchDecides(reg: Registers, op: Op, now: Time, t: Token)
    ensures var after := RegApply(reg, op, now); var touch := RegTouch(reg, op, now, t);
            && (touch.Some? ==> t in after && after[t].until == touch.value)
            && (touch.None? ==> (t in after <==> t in reg) && (t in reg ==> after[t] == reg[t]))
  {
  }

  lemma TouchDecides(db: Db, tx: Tx, t: Token)
    requires Inv(db)
    ensures var before, after := Abs(db), Abs(Do(db, tx));
            && (Touch(db, tx, t).Some? ==> t in after && after[t].until == Touch(db, tx, t).value)
            && (Touch(db, tx, t).None? ==> (t in after <==> t in before) && (t in before ==> after[t] == before[t]))
  {
    ApplyRefines(Sys(db, tx.at), tx.op);
    RegTouchDecides(Abs(db), tx.op, tx.at, t);
  }

  lemma {:induction false} LastTouchDecides(db: Db, txs: seq<Tx>, t: Token)
    requires Inv(db)
    ensures (if t in Abs(Serial(db, txs)) then Abs(Serial(db, txs))[t].until else None) == LastTouch(db, txs, t)
  {
    if txs != [] {
      var init, last := txs[..|txs| - 1], txs[|txs| - 1];
      LastTouchDecides(db, init, t);
      SerialKeepsOwners(db, init);
      TouchDecides(Serial(db, init), last, t);
    }
  }

  /**
   After any schedule, a user is premium by subscription exactly when the last touch
   of some token they own was an entitling reconcile whose expiry is still ahead.
   */
  lemma PremiumIffLastTouch(db: Db, txs: seq<Tx>, user: UserId, now: Time)
    requires Inv(db)
    ensures var e := Serial(db, txs);
            PremiumBySubscription(e, user, now) <==>
            exists t :: t in e.purchases && e.purchases[t].userId == user
                        && LastTouch(db, txs, t).Some? && LastTouch(db, txs, t).value > now
  {
    var e := Serial(db, txs);
    SerialKeepsOwners(db, txs);
    PremiumIffRegister(e, user, now);
    forall t | t in e.purchases ensures Abs(e)[t].until == LastTouch(db, txs, t) {
      LastTouchDecides(db, txs, t);
    }
  }

  lemma ReconcileMakesPremium(s: Sys, token: Token, a: Answer, decidedAt: Time)
    requires Inv(s.db) && token in s.db.purchases && a.knownProduct && decidedAt <= s.now
    requires IsEntitling(a.state, a.expiresAt, decidedAt) && a.expiresAt.value > s.now
    ensures PremiumBySubscription(Step(s, Reconcile(None, token, a, decidedAt)).db, s.db.purchases[token].userId, s.now)
  {
  }

  lemma RevokeKeepsToken(s: Sys, token: Token)
    requires Inv(s.db) && token in s.db.purchases
    ensures var r := Step(s, Revoke(token));
            Inv(r.db) && r.now == s.now && token in r.db.purchases && r.db.purchases[token].userId == s.db.purchases[token].userId
  {
    StepKeepsInv(s, Revoke(token));
  }

  /**
   Revocation is not terminal: a later reconcile in which Google still calls the
   token entitling, with its expiry ahead, makes its owner premium again.
   */
  lemma RegrantAfterRevoke(s: Sys, token: Token, a: Answer, decidedAt: Time)
    requires Inv(s.db) && token in s.db.purchases && a.knownProduct && decidedAt <= s.now
    requires IsEntitling(a.state, a.expiresAt, decidedAt) && a.expiresAt.value > s.now
    ensures var e := Step(Step(s, Revoke(token)), Reconcile(None, token, a, decidedAt));
            PremiumBySubscription(e.db, s.db.purchases[token].userId, s.now)
  {
    RevokeKeepsToken(s, token);
    ReconcileMakesPremium(Step(s, Revoke(token)), token, a, decidedAt);
  }
}
