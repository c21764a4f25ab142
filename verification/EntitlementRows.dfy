/**
 The subscription tables and the transactions that write them, as functions from
 one committed state to the next.

 A token is represented by its rank in the string order, which the lock protocol
 sorts by.  There is one purchase row per token and none is ever deleted, so a
 row's uuid is represented by the token it was created for.  Only PREMIUM rows are
 modelled: no transaction here reads or writes another entitlement type.
 */
module EntitlementRows {
  import opened Wrappers

  type UserId = nat
  type Token = nat
  type Time = int

  datatype SubscriptionState =
    PENDING | ACTIVE | CANCELED | IN_GRACE_PERIOD | ON_HOLD | PAUSED | EXPIRED | REVOKED

  datatype EntitlementStatus = Active | Expired | Revoked

  datatype EntitlementSource = SUBSCRIPTION | REWARD | GRANT | PROMO

  datatype Purchase = Purchase(
    id: nat,
    userId: UserId,
    state: SubscriptionState,
    expiresAt: Option<Time>,
    acknowledged: bool,
    linkedToken: Option<Token>)

  /** The unique key of an entitlement row. */
  datatype RowKey = RowKey(userId: UserId, source: EntitlementSource, sourceRef: Option<nat>)

  datatype Row = Row(status: EntitlementStatus, expiresAt: Option<Time>)

  /** `users.isPremium` and `users.premiumExpiresAt`. */
  datatype Cache = Cache(isPremium: bool, expiresAt: Option<Time>)

  datatype Db = Db(
    purchases: map<Token, Purchase>,
    rows: map<RowKey, Row>,
    cache: map<UserId, Cache>)

  /** What Google answers, normalised. */
  datatype Answer = Answer(
    knownProduct: bool,
    state: SubscriptionState,
    expiresAt: Option<Time>,
    acknowledged: bool,
    linkedToken: Option<Token>)

  const Empty := Db(map[], map[], map[])

  // ── Reads ──────────────────────────────────────────────────────────────────

  predicate After(expiresAt: Option<Time>, now: Time) { expiresAt.None? || expiresAt.value > now }

  predicate Live(row: Row, now: Time) { row.status == Active && After(row.expiresAt, now) }

  function LiveRows(db: Db, user: UserId, now: Time): set<RowKey> {
    set k | k in db.rows && k.userId == user && Live(db.rows[k], now)
  }

  function KeyOf(p: Purchase): RowKey { RowKey(p.userId, SUBSCRIPTION, Some(p.id)) }

  function CacheOf(db: Db, user: UserId): Cache { if user in db.cache then db.cache[user] else Cache(false, None) }

  predicate IsEntitling(state: SubscriptionState, expiresAt: Option<Time>, now: Time) {
    state in {ACTIVE, CANCELED, IN_GRACE_PERIOD} && expiresAt.Some? && expiresAt.value > now
  }

  function DeriveStatus(expiresAt: Option<Time>, at: Time): EntitlementStatus {
    if After(expiresAt, at) then Active else Expired
  }

  // ── The premium cache ──────────────────────────────────────────────────────

  /** `premiumExpiresAt` over live rows: null when one is perpetual, else the furthest expiry. */
  ghost predicate IsFurthest(db: Db, live: set<RowKey>, expiresAt: Option<Time>)
    requires live <= db.rows.Keys
  {
    if expiresAt.None? then exists k :: k in live && db.rows[k].expiresAt.None?
    else
      && (exists k :: k in live && db.rows[k].expiresAt == expiresAt)
      && forall k :: k in live ==> db.rows[k].expiresAt.Some? && db.rows[k].expiresAt.value <= expiresAt.value
  }

  ghost function Furthest(db: Db, live: set<RowKey>): (expiresAt: Option<Time>)
    requires live <= db.rows.Keys && live != {}
    ensures IsFurthest(db, live, expiresAt)
  {
    var k :| k in live;
    if live == {k} then db.rows[k].expiresAt
    else
      var rest := Furthest(db, live - {k});
      var own := db.rows[k].expiresAt;
      assert forall j :: j in live <==> j == k || j in live - {k};
      if own.None? || rest.None? then None
      else if own.value > rest.value then own else rest
  }

  ghost function Snapshot(db: Db, user: UserId, now: Time): Cache {
    var live := LiveRows(db, user, now);
    if live == {} then Cache(false, None) else Cache(true, Furthest(db, live))
  }

  ghost function Refresh(db: Db, user: UserId, now: Time): Db {
    db.(cache := db.cache[user := Snapshot(db, user, now)])
  }

  // ── Row transitions ────────────────────────────────────────────────────────

  ghost function Grant(db: Db, key: RowKey, expiresAt: Option<Time>, startsAt: Option<Time>, now: Time): Db {
    var status := DeriveStatus(expiresAt, if startsAt.Some? then startsAt.value else now);
    Refresh(db.(rows := db.rows[key := Row(status, expiresAt)]), key.userId, now)
  }

  /** Close one specific row; nothing is written when it is not active. */
  ghost function Close(db: Db, key: RowKey, toStatus: EntitlementStatus, now: Time): Db {
    if key in db.rows && db.rows[key].status == Active then
      Refresh(db.(rows := db.rows[key := db.rows[key].(status := toStatus)]), key.userId, now)
    else db
  }

  function SetState(db: Db, token: Token, state: SubscriptionState): Db
    requires token in db.purchases
  {
    db.(purchases := db.purchases[token := db.purchases[token].(state := state)])
  }

  // ── Purchases ──────────────────────────────────────────────────────────────

  datatype TxResult =
    | Committed(db: Db)
    | Unattributable
    | OwnershipConflict

  /** Persist Google's fields; the owner of an existing row never changes. */
  function UpsertVerifiedPurchase(db: Db, owner: UserId, token: Token, a: Answer): TxResult {
    if token in db.purchases then
      var p := db.purchases[token];
      if p.userId != owner then OwnershipConflict
      else Committed(db.(purchases := db.purchases[token :=
        Purchase(p.id, p.userId, a.state, a.expiresAt, a.acknowledged, a.linkedToken)]))
    else
      Committed(db.(purchases := db.purchases[token :=
        Purchase(token, owner, a.state, a.expiresAt, a.acknowledged, a.linkedToken)]))
  }

  /** The link followed by a reconcile: a self-link is ignored. */
  function LinkOf(token: Token, a: Answer): Option<Token> {
    if a.linkedToken.Some? && a.linkedToken.value != token then a.linkedToken else None
  }

  /** The predecessor a transaction migrates from: only when the token itself is new. */
  function Predecessor(db: Db, token: Token, a: Answer): Option<Token> {
    var link := LinkOf(token, a);
    if token !in db.purchases && link.Some? && link.value in db.purchases then link else None
  }

  /** An existing row's owner, else the predecessor's, else the asserted identity. */
  function ResolveOwner(db: Db, asserted: Option<UserId>, token: Token, a: Answer): Option<UserId> {
    var pred := Predecessor(db, token, a);
    if token in db.purchases then Some(db.purchases[token].userId)
    else if pred.Some? then Some(db.purchases[pred.value].userId)
    else asserted
  }

  /** The transaction of `reconcileFromGoogle`; `entitling` was decided before it opened. */
  ghost function ReconcileTx(
    db: Db, asserted: Option<UserId>, token: Token, a: Answer, entitling: bool, now: Time): TxResult
  {
    var owner := ResolveOwner(db, asserted, token, a);
    if owner.None? then Unattributable
    else if asserted.Some? && owner != asserted then OwnershipConflict
    else
      var pred := Predecessor(db, token, a);
      var upserted := UpsertVerifiedPurchase(db, owner.value, token, a);
      if !upserted.Committed? then upserted
      else
        var key := KeyOf(upserted.db.purchases[token]);
        if entitling then
          var granted := Grant(upserted.db, key, a.expiresAt, None, now);
          if pred.Some? then
            var closed := Close(granted, KeyOf(db.purchases[pred.value]), Expired, now);
            Committed(SetState(closed, pred.value, EXPIRED))
          else Committed(granted)
        else Committed(Close(upserted.db, key, Expired, now))
  }

  ghost function RevokeTx(db: Db, token: Token, now: Time): Db {
    if token in db.purchases then
      Close(SetState(db, token, REVOKED), KeyOf(db.purchases[token]), Revoked, now)
    else db
  }

  ghost function ExpireTx(db: Db, token: Token, now: Time): Db {
    if token in db.purchases then
      Close(SetState(db, token, EXPIRED), KeyOf(db.purchases[token]), Expired, now)
    else db
  }

  predicate AckCalled(db: Db, token: Token) { token in db.purchases && !db.purchases[token].acknowledged }

  function AcknowledgeTx(db: Db, token: Token, googleAccepts: bool): Db {
    if AckCalled(db, token) && googleAccepts then
      db.(purchases := db.purchases[token := db.purchases[token].(acknowledged := true)])
    else db
  }

  // ── Runs of atomic transactions ────────────────────────────────────────────

  datatype Op =
    | Reconcile(asserted: Option<UserId>, token: Token, answer: Answer, decidedAt: Time)
    | Revoke(token: Token)
    | Expire(token: Token)
    | Acknowledge(token: Token, googleAccepts: bool)
    | GrantOther(key: RowKey, expiresAt: Option<Time>, startsAt: Option<Time>)
    | CloseActive(pick: RowKey, toStatus: EntitlementStatus)
    | Tick(elapsed: nat)

  datatype Sys = Sys(db: Db, now: Time)

  /** `findActiveEntitlement`: a live row with the furthest expiry, null first. */
  ghost predicate IsActivePick(db: Db, pick: RowKey, now: Time) {
    && pick in LiveRows(db, pick.userId, now)
    && IsFurthest(db, LiveRows(db, pick.userId, now), db.rows[pick].expiresAt)
  }

  /** An entitlement decision is never taken in the future; other grants carry their own source. */
  ghost predicate Enabled(s: Sys, op: Op) {
    match op
    case Reconcile(_, _, a, decidedAt) => a.knownProduct && decidedAt <= s.now
    case GrantOther(key, _, _) => key.source != SUBSCRIPTION
    case CloseActive(pick, toStatus) => toStatus != Active && IsActivePick(s.db, pick, s.now)
    case _ => true
  }

  ghost function Apply(db: Db, op: Op, now: Time): Db {
    match op
    case Reconcile(asserted, token, a, decidedAt) =>
      var r := ReconcileTx(db, asserted, token, a, IsEntitling(a.state, a.expiresAt, decidedAt), now);
      if r.Committed? then r.db else db
    case Revoke(token) => RevokeTx(db, token, now)
    case Expire(token) => ExpireTx(db, token, now)
    case Acknowledge(token, ok) => AcknowledgeTx(db, token, ok)
    case GrantOther(key, expiresAt, startsAt) => Grant(db, key, expiresAt, startsAt, now)
    case CloseActive(pick, toStatus) => Close(db, pick, toStatus, now)
    case Tick(_) => db
  }

  /** One step of the system; an operation that cannot occur in the state is skipped. */
  ghost function Step(s: Sys, op: Op): Sys {
    if !Enabled(s, op) then s
    else if op.Tick? then Sys(s.db, s.now + op.elapsed)
    else Sys(Apply(s.db, op, s.now), s.now)
  }

  /** A run under one clock, which only ticks move. */
  ghost function Run(s: Sys, ops: seq<Op>): Sys {
    if ops == [] then s else Step(Run(s, ops[..|ops| - 1]), ops[|ops| - 1])
  }

  // ── Serial schedules, each transaction with its own clock reading ──────────

  datatype Tx = Tx(op: Op, at: Time)

  ghost function Do(db: Db, tx: Tx): Db { Step(Sys(db, tx.at), tx.op).db }

  /** The readings need not ascend: a transaction may commit after one that read its clock later. */
  ghost function Serial(db: Db, txs: seq<Tx>): Db {
    if txs == [] then db else Do(Serial(db, txs[..|txs| - 1]), txs[|txs| - 1])
  }

  lemma SerialOne(db: Db, tx: Tx)
    ensures Serial(db, [tx]) == Do(db, tx)
  {
    assert [tx][..0] == [];
  }

  lemma {:induction false} SerialConcat(db: Db, xs: seq<Tx>, ys: seq<Tx>)
    ensures Serial(db, xs + ys) == Serial(Serial(db, xs), ys)
  {
    if ys == [] {
      assert xs + ys == xs;
    } else {
      var n := |ys| - 1;
      SerialConcat(db, xs, ys[..n]);
      assert (xs + ys)[..|xs + ys| - 1] == xs + ys[..n];
    }
  }

  /** Schedules one after the other. */
  function Flat(parts: seq<seq<Tx>>): seq<Tx> {
    if parts == [] then [] else Flat(parts[..|parts| - 1]) + parts[|parts| - 1]
  }

  lemma {:induction false} FlatIsSerial(dbs: seq<Db>, parts: seq<seq<Tx>>)
    requires |dbs| == |parts| + 1 && forall i :: 0 <= i < |parts| ==> Serial(dbs[i], parts[i]) == dbs[i + 1]
    ensures Serial(dbs[0], Flat(parts)) == dbs[|parts|]
  {
    if parts != [] {
      var n := |parts| - 1;
      FlatIsSerial(dbs[..n + 1], parts[..n]);
      SerialConcat(dbs[0], Flat(parts[..n]), parts[n]);
    }
  }

  ghost predicate Ascend(from: Time, txs: seq<Tx>) {
    && (forall i :: 0 <= i < |txs| ==> from <= txs[i].at && !txs[i].op.Tick?)
    && forall i, j :: 0 <= i < j < |txs| ==> txs[i].at <= txs[j].at
  }

  function LastAt(from: Time, txs: seq<Tx>): Time { if txs == [] then from else txs[|txs| - 1].at }

  /** The operations of a schedule with the ticks between its clock readings. */
  function WithTicks(from: Time, txs: seq<Tx>): seq<Op>
    requires Ascend(from, txs)
  {
    if txs == [] then []
    else
      var init, last := txs[..|txs| - 1], txs[|txs| - 1];
      WithTicks(from, init) + [Tick(last.at - LastAt(from, init)), last.op]
  }

  /** With readings that ascend, a schedule is a run under one clock. */
  lemma {:induction false} SerialIsRun(s: Sys, txs: seq<Tx>)
    requires Ascend(s.now, txs)
    ensures Run(s, WithTicks(s.now, txs)) == Sys(Serial(s.db, txs), LastAt(s.now, txs))
  {
    if txs != [] {
      var init, last := txs[..|txs| - 1], txs[|txs| - 1];
      var from := LastAt(s.now, init);
      assert from <= last.at && !last.op.Tick?;
      SerialIsRun(s, init);
      RunTwo(s, WithTicks(s.now, init), Tick(last.at - from), last.op);
      TickThenDo(Serial(s.db, init), from, last);
    }
  }

  lemma TickThenDo(db: Db, from: Time, tx: Tx)
    requires from <= tx.at && !tx.op.Tick?
    ensures Step(Step(Sys(db, from), Tick(tx.at - from)), tx.op) == Sys(Do(db, tx), tx.at)
  {
  }

  lemma RunTwo(s: Sys, ops: seq<Op>, a: Op, b: Op)
    ensures Run(s, ops + [a, b]) == Step(Step(Run(s, ops), a), b)
  {
    assert (ops + [a, b])[..|ops| + 1] == ops + [a];
    assert (ops + [a])[..|ops|] == ops;
  }
}
