/**
 Acknowledgement over interleavings: how often Google acknowledges one token, and
 never before a grant for it is durable.
 */
module Acknowledgement {
  import opened Wrappers
  import opened EntitlementRows
  import opened Ownership
  import opened Locality
  import opened Interleaving

  function Count(ts: seq<Token>, t: Token): nat { multiset(ts)[t] }

  function Bit(b: bool): nat { if b then 1 else 0 }

  /** Google has acknowledged the token and some job is about to store that. */
  ghost predicate InFlight(w: World, t: Token) { exists j :: j in w.jobs && Unwritten(w.jobs[j], t) }

  // ── Each event keeps the balance of one token ──────────────────────────────

  /** What Google and the reconciles set, against what was unset or is still set. */
  ghost function Balance(w: World, t: Token): int {
    Count(w.acknowledged, t) + Count(w.learned, t) - Count(w.forgotten, t) - Count(w.lost, t)
    - Bit(Acked(w.db, t)) - Bit(InFlight(w, t))
  }

  predicate Writer(w: World, j: JobId, t: Token) { j in w.jobs && Unwritten(w.jobs[j], t) }

  lemma InFlightStays(w: World, r: World, j: JobId, t: Token)
    requires OthersKept(w, r, j) && (Writer(w, j, t) <==> Writer(r, j, t))
    ensures InFlight(w, t) <==> InFlight(r, t)
  {
    if InFlight(w, t) {
      var k :| k in w.jobs && Unwritten(w.jobs[k], t);
      assert Writer(r, k, t) || k == j;
    }
    if InFlight(r, t) {
      var k :| k in r.jobs && Unwritten(r.jobs[k], t);
      assert Writer(w, k, t) || k == j;
    }
  }

  /** A job in its critical section is the only one that can be writing the flag of a token it has locked. */
  lemma OnlyWriter(w: World, r: World, j: JobId, t: Token)
    requires WorldInv(w) && InCriticalSection(w, j) && t in LockOrder(w.jobs[j].op) && OthersKept(w, r, j)
    ensures InFlight(w, t) <==> Writer(w, j, t)
    ensures InFlight(r, t) <==> Writer(r, j, t)
  {
    assert JobOk(w, w.jobs[j]);
    forall k | k in w.jobs && k != j ensures !Unwritten(w.jobs[k], t) {
      assert JobOk(w, w.jobs[k]);
      if Unwritten(w.jobs[k], t) {
        assert HasTaken(w, j, t) && HasTaken(w, k, t);
        OneHolder(w, j, k, t);
      }
    }
  }

  lemma WorkBalances(w: World, j: JobId, ackAccepted: bool, t: Token)
    requires WorldInv(w) && CanWork(w, j)
    ensures Balance(Next(w, Work(j, ackAccepted)), t) == Balance(w, t)
  {
    var r := Next(w, Work(j, ackAccepted));
    assert JobOk(w, w.jobs[j]);
    if Writer(r, j, t) {
      OnlyWriter(w, r, j, t);
    } else {
      InFlightStays(w, r, j, t);
    }
  }

  /** What a transaction does to the stored acknowledgement flag of a token. */
  lemma FlagAfter(db: Db, op: Op, at: Time, t: Token)
    requires Inv(db) && IsTransaction(op)
    ensures op.Acknowledge? ==>
      (Acked(Do(db, Tx(op, at)), t) <==> Acked(db, t) || (t == op.token && AckCalled(db, t) && op.googleAccepts))
    ensures !op.Acknowledge? && !(op.Reconcile? && t == op.token) ==> (Acked(Do(db, Tx(op, at)), t) <==> Acked(db, t))
  {
    match op
    case Reconcile(asserted, token, a, decidedAt) => ReconcileEffect(db, asserted, token, a, Entitles(op), at);
    case Revoke(token) =>
    case Expire(token) =>
    case Acknowledge(token, ok) =>
    case GrantOther(key, expiresAt, startsAt) => GrantEffect(db, key, expiresAt, startsAt, at);
    case _ =>
  }

  /** Only a reconcile of the token itself, or the job that owes the write, changes its flag. */
  lemma CommitFlag(w: World, j: JobId, t: Token)
    requires WorldInv(w) && CanCommit(w, j) && !(w.jobs[j].op.Reconcile? && w.jobs[j].op.token == t)
    ensures Acked(Next(w, Commit(j)).db, t) <==> Acked(w.db, t) || Writer(w, j, t)
    ensures !(Acked(w.db, t) && Writer(w, j, t))
  {
    assert JobOk(w, w.jobs[j]);
    CommitIsStep(w, j);
    FlagAfter(w.db, w.jobs[j].op, w.jobs[j].at, t);
  }

  /** The end of a transaction keeps the balance when its record of what it did to the flag is right. */
  lemma EndBalances(w: World, r: World, j: JobId, t: Token)
    requires WorldInv(w) && OthersKept(w, r, j) && !Writer(r, j, t) && r.acknowledged == w.acknowledged
    requires Bit(Acked(r.db, t)) + Count(r.forgotten, t) + Count(r.lost, t) + Count(w.learned, t)
             == Bit(Acked(w.db, t)) + Count(w.forgotten, t) + Count(w.lost, t) + Count(r.learned, t) + Bit(Writer(w, j, t))
    ensures Balance(r, t) == Balance(w, t)
  {
    if Writer(w, j, t) {
      OnlyWriter(w, r, j, t);
    } else {
      InFlightStays(w, r, j, t);
    }
  }

  lemma CommitBalances(w: World, j: JobId, t: Token)
    requires WorldInv(w) && CanCommit(w, j)
    ensures Balance(Next(w, Commit(j)), t) == Balance(w, t)
  {
    if !(w.jobs[j].op.Reconcile? && w.jobs[j].op.token == t) {
      CommitFlag(w, j, t);
    }
    EndBalances(w, Next(w, Commit(j)), j, t);
  }

  lemma FailBalances(w: World, j: JobId, t: Token)
    requires WorldInv(w) && CanFail(w, j)
    ensures Balance(Next(w, Fail(j)), t) == Balance(w, t)
  {
    EndBalances(w, Next(w, Fail(j)), j, t);
  }

  lemma NextBalances(w: World, e: Event, t: Token)
    requires WorldInv(w)
    ensures Balance(Next(w, e), t) == Balance(w, t)
  {
    if Possible(w, e) {
      match e
      case Begin(j, _) => InFlightStays(w, Next(w, e), j, t);
      case Acquire(j) => InFlightStays(w, Next(w, e), j, t);
      case Enter(j) => InFlightStays(w, Next(w, e), j, t);
      case Work(j, ok) => WorkBalances(w, j, ok, t);
      case Commit(j) => CommitBalances(w, j, t);
      case Fail(j) => FailBalances(w, j, t);
      case Pass(_) => InFlightStays(w, Next(w, e), 0, t);
    }
  }

  lemma {:induction false} PlayBalances(w: World, events: seq<Event>, t: Token)
    requires WorldInv(w)
    ensures Balance(Play(w, events), t) == Balance(w, t)
  {
    if events != [] {
      PlayBalances(w, events[..|events| - 1], t);
      PlayKeepsInv(w, events[..|events| - 1]);
      NextBalances(Play(w, events[..|events| - 1]), events[|events| - 1], t);
    }
  }

  // ── How often Google acknowledges ──────────────────────────────────────────

  ghost predicate GrantedFirst(w: World) { forall t :: t in w.acknowledged ==> t in w.granted }

  lemma {:induction false} PlayGrantsFirst(w: World, events: seq<Event>)
    requires WorldInv(w) && GrantedFirst(w)
    ensures GrantedFirst(Play(w, events))
  {
    if events != [] {
      var v, e := Play(w, events[..|events| - 1]), events[|events| - 1];
      PlayGrantsFirst(w, events[..|events| - 1]);
      PlayKeepsInv(w, events[..|events| - 1]);
      if Possible(v, e) && e.Work? {
        assert JobOk(v, v.jobs[e.job]);
      }
    }
  }

  /**
   In every interleaving, what turned the flag of a token on (Google's successes, the
   answers a reconcile learned it from, the start) equals what turned it off (an older
   answer stored over it, a transaction that failed after the call) and what is on.
   */
  lemma FlagAccounts(db: Db, now: Time, events: seq<Event>, t: Token)
    requires Inv(db)
    ensures var e := Play(Start(db, now), events);
            Count(e.acknowledged, t) + Count(e.learned, t) + Bit(Acked(db, t))
            == Count(e.forgotten, t) + Count(e.lost, t) + Bit(Acked(e.db, t)) + Bit(InFlight(e, t))
  {
    StartInv(db, now);
    PlayBalances(Start(db, now), events, t);
  }

  /**
   So while nothing is forgotten or lost, Google acknowledges a token at most once, and
   not at all when its flag was on already; no success precedes a committed grant.  In
   general it is at most once exactly when what was forgotten, lost or is on exceeds
   what was learned or there at the start by no more than one.
   */
  lemma AtMostOnce(db: Db, now: Time, events: seq<Event>, t: Token)
    requires Inv(db)
    ensures var e := Play(Start(db, now), events);
            && (t !in e.forgotten && t !in e.lost ==> Count(e.acknowledged, t) + Bit(Acked(db, t)) <= 1)
            && (t in e.acknowledged ==> t in e.granted)
            && (Count(e.acknowledged, t) <= 1 <==>
                Count(e.forgotten, t) + Count(e.lost, t) + Bit(Acked(e.db, t)) + Bit(InFlight(e, t))
                <= Count(e.learned, t) + Bit(Acked(db, t)) + 1)
  {
    FlagAccounts(db, now, events, t);
    StartInv(db, now);
    PlayGrantsFirst(Start(db, now), events);
    PlayKeepsInv(Start(db, now), events);
    NotBothOn(Play(Start(db, now), events), t);
  }

  /** While an acknowledgement is yet to be stored the flag is off. */
  lemma NotBothOn(w: World, t: Token)
    requires WorldInv(w)
    ensures !(Acked(w.db, t) && InFlight(w, t))
  {
    if InFlight(w, t) {
      var j :| j in w.jobs && Unwritten(w.jobs[j], t);
      assert JobOk(w, w.jobs[j]);
    }
  }

  // ── The proviso is needed ──────────────────────────────────────────────────

  /** The events of a transaction that nothing interrupts. */
  function Turn(j: JobId, ackAccepted: bool): seq<Event> { [Acquire(j), Enter(j), Work(j, ackAccepted), Commit(j)] }

  lemma TurnPlays(w: World, j: JobId, ackAccepted: bool)
    ensures Play(w, Turn(j, ackAccepted)[..3]) == Next(Next(Next(w, Acquire(j)), Enter(j)), Work(j, ackAccepted))
    ensures Play(w, Turn(j, ackAccepted)) == Next(Play(w, Turn(j, ackAccepted)[..3]), Commit(j))
  {
    var es := Turn(j, ackAccepted);
    assert es[..3] == [Acquire(j), Enter(j), Work(j, ackAccepted)];
    assert es[..3][..2] == [Acquire(j), Enter(j)];
    assert es[..3][..2][..1] == [Acquire(j)];
    assert Play(w, []) == w;
    assert Play(w, es[..3][..2][..1]) == Next(w, Acquire(j));
    assert Play(w, es[..3][..2]) == Next(Next(w, Acquire(j)), Enter(j));
    assert Play(w, es[..3]) == Next(Next(Next(w, Acquire(j)), Enter(j)), Work(j, ackAccepted));
  }

  ghost predicate Awaits(w: World, j: JobId, op: Op, t: Token) {
    IsTransaction(op) && LockOrder(op) == [t] && j in w.jobs && w.jobs[j] == Locking(op, [t]) && t !in w.locks
  }

  /** Where an uninterrupted transaction stands when it has worked. */
  ghost function Worked(w: World, j: JobId, ackAccepted: bool, op: Op, t: Token): World {
    var done, view := Decided(op, ackAccepted), ViewOf(w.db, [t]);
    w.(jobs := w.jobs[j := Ready(done, view, w.now, Overlay(w.db, Writes(view, done, w.now)))],
       locks := w.locks[t := j],
       acknowledged := if op.Acknowledge? && AckCalled(view, t) && ackAccepted then w.acknowledged + [t] else w.acknowledged)
  }

  lemma TurnEnters(w: World, j: JobId, op: Op, t: Token)
    requires Awaits(w, j, op, t)
    ensures Next(Next(w, Acquire(j)), Enter(j)) == w.(locks := w.locks[t := j], jobs := w.jobs[j := Inside(op, ViewOf(w.db, [t]))])
  {
    var a := Next(w, Acquire(j));
    assert a.jobs[j] == Locking(op, []);
    assert a == w.(locks := w.locks[t := j], jobs := w.jobs[j := Locking(op, [])]);
  }

  lemma TurnWorks(w: World, j: JobId, ackAccepted: bool, op: Op, t: Token)
    requires Awaits(w, j, op, t)
    ensures Next(Next(Next(w, Acquire(j)), Enter(j)), Work(j, ackAccepted)) == Worked(w, j, ackAccepted, op, t)
  {
    TurnEnters(w, j, op, t);
    var b := w.(locks := w.locks[t := j], jobs := w.jobs[j := Inside(op, ViewOf(w.db, [t]))]);
    assert Next(b, Work(j, ackAccepted)) == AfterWork(b, j, ackAccepted);
  }

  lemma TurnCommits(w: World, j: JobId, ackAccepted: bool, op: Op, t: Token)
    requires WorldInv(w) && Awaits(w, j, op, t)
    ensures WorldInv(Worked(w, j, ackAccepted, op, t))
    ensures Play(w, Turn(j, ackAccepted)) == Next(Worked(w, j, ackAccepted, op, t), Commit(j))
  {
    TurnPlays(w, j, ackAccepted);
    TurnWorks(w, j, ackAccepted, op, t);
    PlayKeepsInv(w, Turn(j, ackAccepted)[..3]);
  }

  lemma LocksReturn(w: World, j: JobId, op: Op, t: Token)
    requires WorldInv(w) && Awaits(w, j, op, t)
    ensures Release(w.locks[t := j], j) == w.locks
  {
    forall k: Token | k in w.locks ensures w.locks[k] != j {
      assert HasTaken(w, j, k) <==> Holds(w, j, k);
    }
  }

  /** A job that waits for one free lock and runs through uninterrupted leaves what its transaction leaves. */
  lemma TurnTables(w: World, j: JobId, ackAccepted: bool, op: Op, t: Token)
    requires WorldInv(w) && Awaits(w, j, op, t)
    ensures SameTables(Play(w, Turn(j, ackAccepted)).db, Do(w.db, Tx(Decided(op, ackAccepted), w.now)))
    ensures WorldInv(Play(w, Turn(j, ackAccepted)))
  {
    TurnCommits(w, j, ackAccepted, op, t);
    CommitIsStep(Worked(w, j, ackAccepted, op, t), j);
    PlayKeepsInv(w, Turn(j, ackAccepted));
  }

  lemma CommitEnds(c: World, j: JobId)
    requires CanCommit(c, j)
    ensures var r := Next(c, Commit(j));
            && r.now == c.now && r.locks == Release(c.locks, j) && r.acknowledged == c.acknowledged
            && r.jobs == c.jobs[j := Continued(c.jobs[j].view, c.jobs[j].op)]
  {
  }

  lemma TurnEnds(w: World, j: JobId, ackAccepted: bool, op: Op, t: Token)
    requires WorldInv(w) && Awaits(w, j, op, t)
    ensures var e := Play(w, Turn(j, ackAccepted));
            && e.now == w.now && e.locks == w.locks
            && e.jobs == w.jobs[j := Continued(ViewOf(w.db, [t]), Decided(op, ackAccepted))]
            && e.acknowledged == Worked(w, j, ackAccepted, op, t).acknowledged
  {
    TurnCommits(w, j, ackAccepted, op, t);
    LocksReturn(w, j, op, t);
    var c := Worked(w, j, ackAccepted, op, t);
    CommitEnds(c, j);
    assert c.jobs[j := Continued(c.jobs[j].view, c.jobs[j].op)] == w.jobs[j := Continued(c.jobs[j].view, c.jobs[j].op)];
  }

  /** A reconcile that records an unacknowledged entitling answer, then the acknowledge it continues with. */
  function Recording(j: JobId): seq<Event> { Turn(j, false) + Turn(j, true) }

  ghost predicate Records(db: Db, op: Op, t: Token, now: Time) {
    && op.Reconcile? && op.token == t && op.answer.knownProduct && op.decidedAt <= now
    && !op.answer.acknowledged && CommittedEntitling(db, op)
  }

  lemma RecordedUnacknowledged(db: Db, after: Db, op: Op, t: Token, now: Time)
    requires Inv(db) && Records(db, op, t, now) && LockOrder(op) == [t] && SameTables(after, Do(db, Tx(op, now)))
    ensures Continued(ViewOf(db, [t]), op) == Locking(Acknowledge(t, false), [t])
    ensures AckCalled(after, t) && Some(after.purchases[t].userId) == ResolveOwner(db, op.asserted, t, op.answer)
  {
    SameAnswers(db, op);
    ReconcileEffect(db, op.asserted, t, op.answer, true, now);
  }

  lemma AcknowledgedKeepsOwner(db: Db, after: Db, t: Token, now: Time)
    requires t in db.purchases && SameTables(after, Do(db, Tx(Acknowledge(t, true), now)))
    ensures t in after.purchases && after.purchases[t].userId == db.purchases[t].userId
  {
  }

  /** The world after an uninterrupted turn. */
  ghost predicate Turned(w: World, e: World, j: JobId, op: Op, t: Token) {
    && WorldInv(e) && SameTables(e.db, Do(w.db, Tx(op, w.now)))
    && e.now == w.now && e.locks == w.locks && e.jobs == w.jobs[j := Continued(ViewOf(w.db, [t]), op)]
    && e.acknowledged == if op.Acknowledge? && AckCalled(w.db, t) && op.googleAccepts then w.acknowledged + [t] else w.acknowledged
  }

  lemma TurnTurns(w: World, e: World, j: JobId, ackAccepted: bool, op: Op, t: Token)
    requires WorldInv(w) && Awaits(w, j, op, t) && e == Play(w, Turn(j, ackAccepted))
    ensures Turned(w, e, j, Decided(op, ackAccepted), t)
  {
    TurnTables(w, j, ackAccepted, op, t);
    TurnEnds(w, j, ackAccepted, op, t);
    ViewReads(w.db, [t]);
  }

  ghost predicate Recorded(w: World, e: World, j: JobId, op: Op, t: Token)
    requires op.Reconcile?
  {
    && WorldInv(e) && e.now == w.now && e.locks == w.locks && e.jobs == w.jobs[j := Finished]
    && e.acknowledged == w.acknowledged + [t]
    && t in e.db.purchases && Some(e.db.purchases[t].userId) == ResolveOwner(w.db, op.asserted, t, op.answer)
  }

  lemma FirstTurnRecords(w: World, v: World, j: JobId, op: Op, t: Token)
    requires WorldInv(w) && Awaits(w, j, op, t) && Records(w.db, op, t, w.now) && Turned(w, v, j, op, t)
    ensures Awaits(v, j, Acknowledge(t, false), t) && AckCalled(v.db, t)
    ensures Some(v.db.purchases[t].userId) == ResolveOwner(w.db, op.asserted, t, op.answer)
    ensures v.acknowledged == w.acknowledged
  {
    RecordedUnacknowledged(w.db, v.db, op, t, w.now);
  }

  lemma SecondTurnRecords(w: World, v: World, e: World, j: JobId, t: Token)
    requires j in w.jobs && AckCalled(v.db, t) && v.locks == w.locks && v.now == w.now
    requires v.jobs == w.jobs[j := Locking(Acknowledge(t, false), [t])]
    requires Turned(v, e, j, Acknowledge(t, true), t)
    ensures e.now == w.now && e.locks == w.locks && e.jobs == w.jobs[j := Finished] && e.acknowledged == v.acknowledged + [t]
    ensures t in e.db.purchases && e.db.purchases[t].userId == v.db.purchases[t].userId
  {
    AcknowledgedKeepsOwner(v.db, e.db, t, v.now);
    assert Continued(ViewOf(v.db, [t]), Acknowledge(t, true)) == Finished;
    assert e.jobs == w.jobs[j := Finished];
  }

  /** Run through uninterrupted, such a reconcile has Google acknowledge the token, whatever was stored before. */
  lemma RecordingAcknowledges(w: World, e: World, j: JobId, op: Op, t: Token)
    requires WorldInv(w) && Awaits(w, j, op, t) && Records(w.db, op, t, w.now) && e == Play(w, Recording(j))
    ensures Recorded(w, e, j, op, t)
  {
    var v := Play(w, Turn(j, false));
    PlayConcat(w, Turn(j, false), Turn(j, true));
    TurnTurns(w, v, j, false, op, t);
    FirstTurnRecords(w, v, j, op, t);
    TurnTurns(v, e, j, true, Acknowledge(t, false), t);
    RecordedUnacknowledged(w.db, v.db, op, t, w.now);
    SecondTurnRecords(w, v, e, j, t);
  }

  /** Two verifies, sweeps or notifications that fetched the same answer before either transaction opened. */
  function TwoRecordings(op: Op): seq<Event> { [Begin(0, op), Begin(1, op)] + Recording(0) + Recording(1) }

  lemma BothAwait(db: Db, now: Time, x: Op, y: Op, t: Token)
    requires Inv(db) && CanBegin(Start(db, now), 0, x) && CanBegin(Start(db, now), 1, y) && LockOrder(x) == LockOrder(y) == [t]
    ensures var w := Play(Start(db, now), [Begin(0, x), Begin(1, y)]);
            && WorldInv(w) && w.db == db && w.now == now && w.acknowledged == []
            && Awaits(w, 0, x, t) && Awaits(w, 1, y, t)
  {
    StartInv(db, now);
    PlayKeepsInv(Start(db, now), [Begin(0, x), Begin(1, y)]);
    TwoBegin(db, now, x, y);
  }

  lemma TwoRecord(w: World, v: World, e: World, op: Op, t: Token)
    requires WorldInv(w) && op.Reconcile? && Records(w.db, op, t, w.now) && op.answer.linkedToken.None?
    requires Awaits(w, 0, op, t) && Awaits(w, 1, op, t)
    requires v == Play(w, Recording(0)) && e == Play(v, Recording(1))
    ensures e.acknowledged == w.acknowledged + [t] + [t]
  {
    RecordingAcknowledges(w, v, 0, op, t);
    RecordingAcknowledges(v, e, 1, op, t);
  }

  /**
   The proviso is needed, on states the system reaches: two reconciles of one token
   that both fetched an unacknowledged entitling answer have Google acknowledge it
   twice, because the second stores its answer's flag over the first one's.
   */
  lemma SameAnswerTwice(db: Db, now: Time, user: UserId, t: Token, a: Answer)
    requires Inv(db) && (t in db.purchases ==> db.purchases[t].userId == user)
    requires a.knownProduct && !a.acknowledged && a.linkedToken.None? && IsEntitling(a.state, a.expiresAt, now)
    ensures Play(Start(db, now), TwoRecordings(Reconcile(Some(user), t, a, now))).acknowledged == [t, t]
  {
    var op := Reconcile(Some(user), t, a, now);
    var w, begins := Start(db, now), [Begin(0, op), Begin(1, op)];
    PlayConcat(w, begins + Recording(0), Recording(1));
    PlayConcat(w, begins, Recording(0));
    BothAwait(db, now, op, op, t);
    TwoRecord(Play(w, begins), Play(w, begins + Recording(0)), Play(w, TwoRecordings(op)), op, t);
  }
}
