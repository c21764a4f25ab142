/**
 The premium flag when transactions of one user overlap.

 Token locks order the transactions of one token, not those of one user: a
 transaction refreshes the cached pair from the rows it can see, which leave out
 what another has yet to commit.
 */
module Overlap {
  import opened Wrappers
  import opened EntitlementRows
  import opened Ownership
  import opened PremiumCache
  import opened Locality
  import opened Interleaving

  /** A live row exists and readers of the cached pair miss it. */
  ghost predicate FalselyOff(db: Db, user: UserId, t: Time) { HasPremium(db, user, t) && !Reads(CacheOf(db, user), t) }

  /** Readers of the cached pair grant premium and no live row exists. */
  ghost predicate FalselyOn(db: Db, user: UserId, t: Time) { !HasPremium(db, user, t) && Reads(CacheOf(db, user), t) }

  // ── One commit ─────────────────────────────────────────────────────────────

  ghost predicate SameRowAt(a: Db, b: Db, k: RowKey) { (k in a.rows <==> k in b.rows) && (k in a.rows ==> a.rows[k] == b.rows[k]) }

  lemma CloseRefreshes(db: Db, key: RowKey, toStatus: EntitlementStatus, at: Time, k: RowKey)
    ensures var r := Close(db, key, toStatus, at);
            db.cache.Keys <= r.cache.Keys && (k.userId !in r.cache ==> SameRowAt(r, db, k))
  {
  }

  lemma ReconcileRefreshes(db: Db, asserted: Option<UserId>, token: Token, a: Answer, entitling: bool, at: Time, k: RowKey)
    requires ReconcileTx(db, asserted, token, a, entitling, at).Committed?
    requires k.userId !in ReconcileTx(db, asserted, token, a, entitling, at).db.cache
    ensures SameRowAt(ReconcileTx(db, asserted, token, a, entitling, at).db, db, k)
  {
    var owner, pred := ResolveOwner(db, asserted, token, a).value, Predecessor(db, token, a);
    var upserted := UpsertVerifiedPurchase(db, owner, token, a).db;
    var key := KeyOf(upserted.purchases[token]);
    if entitling && pred.Some? {
      CloseRefreshes(Grant(upserted, key, a.expiresAt, None, at), KeyOf(db.purchases[pred.value]), Expired, at, k);
    } else if !entitling {
      CloseRefreshes(upserted, key, Expired, at, k);
    }
  }

  /** A transaction rewrites the cached pair of every user of whom it changes a row. */
  lemma RefreshesWhatItChanges(db: Db, op: Op, at: Time, k: RowKey)
    requires k.userId !in Do(db, Tx(op, at)).cache
    ensures SameRowAt(Do(db, Tx(op, at)), db, k)
  {
    if Enabled(Sys(db, at), op) && op.Reconcile? {
      var entitling := IsEntitling(op.answer.state, op.answer.expiresAt, op.decidedAt);
      if ReconcileTx(db, op.asserted, op.token, op.answer, entitling, at).Committed? {
        ReconcileRefreshes(db, op.asserted, op.token, op.answer, entitling, at, k);
      }
    }
  }

  lemma CommitCaches(w: World, j: JobId, user: UserId)
    requires CanCommit(w, j)
    ensures CacheOf(Next(w, Commit(j)).db, user) ==
            if user in Refreshed(w.jobs[j]) then Snapshot(w.jobs[j].seen, user, w.jobs[j].at) else CacheOf(w.db, user)
  {
  }

  /** From the transaction's reading of its clock on, the pair it caches answers what the rows it saw answer. */
  lemma CommitReads(w: World, j: JobId, user: UserId, t: Time)
    requires CanCommit(w, j) && user in Refreshed(w.jobs[j]) && w.jobs[j].at <= t
    ensures Reads(CacheOf(Next(w, Commit(j)).db, user), t) <==> HasPremium(w.jobs[j].seen, user, t)
  {
    CommitCaches(w, j, user);
    SnapshotIsRight(w.jobs[j].seen, user, w.jobs[j].at, t);
  }

  lemma UnrefreshedRowStays(w: World, j: JobId, k: RowKey)
    requires WorldInv(w) && CanCommit(w, j) && k.userId !in Refreshed(w.jobs[j])
    ensures SameRowAt(Next(w, Commit(j)).db, w.db, k)
  {
    var job := w.jobs[j];
    assert JobOk(w, job);
    RefreshesWhatItChanges(job.view, job.op, job.at, k);
  }

  lemma UnrefreshedRowsStay(w: World, j: JobId, user: UserId, t: Time)
    requires WorldInv(w) && CanCommit(w, j) && user !in Refreshed(w.jobs[j])
    ensures HasPremium(Next(w, Commit(j)).db, user, t) <==> HasPremium(w.db, user, t)
  {
    var after := Next(w, Commit(j)).db;
    forall k: RowKey | k.userId == user ensures SameRowAt(after, w.db, k) {
      UnrefreshedRowStays(w, j, k);
    }
    assert LiveRows(after, user, t) == LiveRows(w.db, user, t);
  }

  /** The rows a committing job saw say of every user it refreshes what the rows say after its commit. */
  ghost predicate SawAll(w: World, j: JobId)
    requires CanCommit(w, j)
  {
    forall user, t :: user in Refreshed(w.jobs[j]) && w.now <= t ==>
      (HasPremium(w.jobs[j].seen, user, t) <==> HasPremium(Next(w, Commit(j)).db, user, t))
  }

  /** A commit keeps the cache right exactly when its job saw all that matters. */
  lemma CommitCoheresIff(w: World, j: JobId)
    requires WorldInv(w) && CanCommit(w, j) && Coherent(w.db, w.now)
    ensures Coherent(Next(w, Commit(j)).db, w.now) <==> SawAll(w, j)
  {
    var after := Next(w, Commit(j)).db;
    assert JobOk(w, w.jobs[j]);
    forall user: UserId, t: Time | w.now <= t
      ensures (Reads(CacheOf(after, user), t) <==> HasPremium(after, user, t)) <==>
              (user in Refreshed(w.jobs[j]) ==> (HasPremium(w.jobs[j].seen, user, t) <==> HasPremium(after, user, t)))
    {
      if user in Refreshed(w.jobs[j]) {
        CommitReads(w, j, user, t);
      } else {
        CommitCaches(w, j, user);
        UnrefreshedRowsStay(w, j, user, t);
      }
    }
  }

  // ── Whole interleavings ────────────────────────────────────────────────────

  ghost predicate AllSawAll(w: World, events: seq<Event>) {
    events == [] ||
    var init, e := events[..|events| - 1], events[|events| - 1];
    AllSawAll(w, init) && (Possible(Play(w, init), e) && e.Commit? ==> SawAll(Play(w, init), e.job))
  }

  /** In an interleaving whose commits all saw what matters, the cache is right throughout. */
  lemma {:induction false} PlayCoheres(w: World, events: seq<Event>)
    requires WorldInv(w) && Coherent(w.db, w.now) && AllSawAll(w, events)
    ensures Coherent(Play(w, events).db, Play(w, events).now)
  {
    if events != [] {
      var init, e := events[..|events| - 1], events[|events| - 1];
      PlayCoheres(w, init);
      PlayKeepsInv(w, init);
      if Possible(Play(w, init), e) && e.Commit? {
        CommitCoheresIff(Play(w, init), e.job);
      } else {
        OtherEventsKeepDb(Play(w, init), e);
      }
    }
  }

  // ── Transactions of one user that do not overlap ───────────────────────────

  /** Of the users it refreshes, the job has seen the rows as its commit will leave them. */
  ghost predicate SawOwnRows(w: World, j: JobId) {
    CanCommit(w, j) && forall k: RowKey :: k.userId in Refreshed(w.jobs[j]) ==>
      SameRowAt(w.jobs[j].seen, Overlay(w.db, Writes(w.jobs[j].view, w.jobs[j].op, w.jobs[j].at)), k)
  }

  /** A job whose users no other commit has touched since it worked has seen all. */
  lemma UntouchedSawAll(w: World, j: JobId)
    requires SawOwnRows(w, j)
    ensures SawAll(w, j)
  {
    forall user: UserId, t: Time | user in Refreshed(w.jobs[j])
      ensures HasPremium(w.jobs[j].seen, user, t) <==> HasPremium(Next(w, Commit(j)).db, user, t)
    {
      var after := Next(w, Commit(j)).db;
      assert forall k: RowKey :: k.userId == user ==> SameRowAt(w.jobs[j].seen, after, k);
      assert LiveRows(w.jobs[j].seen, user, t) == LiveRows(after, user, t);
    }
  }

  ghost predicate Apart(w: World, j: JobId, k: JobId)
    requires CanCommit(w, j) && CanCommit(w, k)
  {
    forall user :: user in Refreshed(w.jobs[j]) ==> user !in Refreshed(w.jobs[k])
  }

  /** The commit of a job that refreshes other users takes nothing away from what a job has seen. */
  lemma ApartKeepsSeen(w: World, j: JobId, k: JobId)
    requires WorldInv(w) && CanCommit(w, k) && j != k && SawOwnRows(w, j) && Apart(w, j, k)
    ensures SawOwnRows(Next(w, Commit(k)), j)
  {
    var r := Next(w, Commit(k));
    forall key: RowKey | key.userId in Refreshed(w.jobs[j])
      ensures SameRowAt(w.jobs[j].seen, Overlay(r.db, Writes(w.jobs[j].view, w.jobs[j].op, w.jobs[j].at)), key)
    {
      UnrefreshedRowStays(w, k, key);
      assert SameRowAt(w.jobs[j].seen, Overlay(w.db, Writes(w.jobs[j].view, w.jobs[j].op, w.jobs[j].at)), key);
    }
  }

  ghost predicate ReadySaw(w: World) { forall j :: CanCommit(w, j) ==> SawOwnRows(w, j) }

  /** Whoever commits shares no user with a job that has worked and is yet to commit. */
  ghost predicate CommitsApart(w: World, events: seq<Event>) {
    events == [] ||
    var init, e := events[..|events| - 1], events[|events| - 1];
    CommitsApart(w, init)
    && (Possible(Play(w, init), e) && e.Commit? ==>
          forall j :: j != e.job && CanCommit(Play(w, init), j) ==> Apart(Play(w, init), j, e.job))
  }

  lemma WorkSaw(w: World, j: JobId, ackAccepted: bool)
    requires ReadySaw(w) && CanWork(w, j)
    ensures ReadySaw(Next(w, Work(j, ackAccepted)))
  {
    var r := Next(w, Work(j, ackAccepted));
    forall k | CanCommit(r, k) ensures SawOwnRows(r, k) {
      if k != j {
        assert SawOwnRows(w, k);
      }
    }
  }

  lemma CommitSaw(w: World, j: JobId)
    requires WorldInv(w) && ReadySaw(w) && CanCommit(w, j)
    requires forall k :: k != j && CanCommit(w, k) ==> Apart(w, k, j)
    ensures ReadySaw(Next(w, Commit(j)))
  {
    var r := Next(w, Commit(j));
    forall k | CanCommit(r, k) ensures SawOwnRows(r, k) {
      assert k != j && CanCommit(w, k);
      ApartKeepsSeen(w, k, j);
    }
  }

  lemma OthersSaw(w: World, e: Event)
    requires ReadySaw(w) && !(Possible(w, e) && (e.Commit? || e.Work?))
    ensures ReadySaw(Next(w, e))
  {
    var r := Next(w, e);
    forall k | CanCommit(r, k) ensures SawOwnRows(r, k) {
      assert CanCommit(w, k) && SawOwnRows(w, k);
    }
  }

  lemma {:induction false} PlaySaw(w: World, events: seq<Event>)
    requires WorldInv(w) && ReadySaw(w) && CommitsApart(w, events)
    ensures ReadySaw(Play(w, events)) && AllSawAll(w, events)
  {
    if events != [] {
      var init, e := events[..|events| - 1], events[|events| - 1];
      var v := Play(w, init);
      PlaySaw(w, init);
      PlayKeepsInv(w, init);
      if Possible(v, e) && e.Commit? {
        UntouchedSawAll(v, e.job);
        CommitSaw(v, e.job);
      } else if Possible(v, e) && e.Work? {
        WorkSaw(v, e.job, e.ackAccepted);
      } else {
        OthersSaw(v, e);
      }
    }
  }

  /** Interleavings in which transactions of one user never overlap keep the cache right throughout. */
  lemma ApartCoheres(db: Db, now: Time, events: seq<Event>)
    requires Inv(db) && Coherent(db, now) && CommitsApart(Start(db, now), events)
    ensures Coherent(Play(Start(db, now), events).db, Play(Start(db, now), events).now)
  {
    StartInv(db, now);
    PlaySaw(Start(db, now), events);
    PlayCoheres(Start(db, now), events);
  }

  /** The job worked on the tables as they are now. */
  ghost predicate WorkedOnThis(w: World, j: JobId) {
    CanCommit(w, j) && w.jobs[j].seen == Overlay(w.db, Writes(w.jobs[j].view, w.jobs[j].op, w.jobs[j].at))
  }

  // ── Two transactions that overlap ──────────────────────────────────────────

  ghost function Written(job: Job): map<RowKey, Row>
    requires job.Ready?
  {
    Writes(job.view, job.op, job.at).rows
  }

  /** A live row of the user that `first` wrote and `last` did not. */
  ghost predicate Adds(first: Job, last: Job, user: UserId, t: Time)
    requires first.Ready? && last.Ready?
  {
    exists k :: k in Written(first) && k !in Written(last) && k.userId == user && Live(Written(first)[k], t)
  }

  /** Every row `last` saw live is one that `first` closed. */
  ghost predicate ClosesAll(first: Job, last: Job, user: UserId, t: Time)
    requires first.Ready? && last.Ready?
  {
    forall k :: k in LiveRows(last.seen, user, t) ==> k in Written(first) && k !in Written(last) && !Live(Written(first)[k], t)
  }

  lemma RowsAfterBoth(w: World, first: JobId, last: JobId)
    requires WorldInv(w) && first != last && WorkedOnThis(w, first) && WorkedOnThis(w, last)
    ensures var v := Next(w, Commit(first));
            CanCommit(v, last) && v.jobs[last] == w.jobs[last]
            && Next(v, Commit(last)).db.rows == w.db.rows + Written(w.jobs[first]) + Written(w.jobs[last])
  {
  }

  lemma LiveOnTop(
    e: Db, seen: Db, base: map<RowKey, Row>, first: map<RowKey, Row>, last: map<RowKey, Row>, user: UserId, t: Time)
    requires e.rows == base + first + last && seen.rows == base + last
    ensures forall k :: k in LiveRows(e, user, t) <==>
      (k in first && k !in last && k.userId == user && Live(first[k], t))
      || (k in LiveRows(seen, user, t) && !(k in first && k !in last))
  {
  }

  lemma PremiumAfterBoth(w: World, first: JobId, last: JobId, user: UserId, t: Time)
    requires WorldInv(w) && first != last && WorkedOnThis(w, first) && WorkedOnThis(w, last)
    ensures HasPremium(Next(Next(w, Commit(first)), Commit(last)).db, user, t) <==>
            Adds(w.jobs[first], w.jobs[last], user, t) || !ClosesAll(w.jobs[first], w.jobs[last], user, t)
  {
    RowsAfterBoth(w, first, last);
    var e := Next(Next(w, Commit(first)), Commit(last)).db;
    var a, b := w.jobs[first], w.jobs[last];
    LiveOnTop(e, b.seen, w.db.rows, Written(a), Written(b), user, t);
    PremiumOnTop(e, a, b, user, t);
  }

  lemma PremiumOnTop(e: Db, a: Job, b: Job, user: UserId, t: Time)
    requires a.Ready? && b.Ready?
    requires forall k :: k in LiveRows(e, user, t) <==>
      (k in Written(a) && k !in Written(b) && k.userId == user && Live(Written(a)[k], t))
      || (k in LiveRows(b.seen, user, t) && !(k in Written(a) && k !in Written(b)))
    ensures HasPremium(e, user, t) <==> Adds(a, b, user, t) || !ClosesAll(a, b, user, t)
  {
    if HasPremium(e, user, t) {
      var k :| k in LiveRows(e, user, t);
    }
  }

  /**
   Two jobs that worked on the same tables and commit one after the other leave the
   pair cached by the last one falsely off exactly when it saw no live row and the
   first one wrote one, and falsely on exactly when it saw live rows, the first one
   closed them all and wrote none.
   */
  lemma OverlapIff(w: World, first: JobId, last: JobId, user: UserId, t: Time)
    requires WorldInv(w) && first != last && WorkedOnThis(w, first) && WorkedOnThis(w, last)
    requires user in Refreshed(w.jobs[last]) && w.jobs[last].at <= t
    ensures var e := Next(Next(w, Commit(first)), Commit(last)).db; var a, b := w.jobs[first], w.jobs[last];
            && (FalselyOff(e, user, t) <==> !HasPremium(b.seen, user, t) && Adds(a, b, user, t))
            && (FalselyOn(e, user, t) <==>
                HasPremium(b.seen, user, t) && ClosesAll(a, b, user, t) && !Adds(a, b, user, t))
  {
    RowsAfterBoth(w, first, last);
    CommitReads(Next(w, Commit(first)), last, user, t);
    PremiumAfterBoth(w, first, last, user, t);
  }

  // ── A schedule that reaches the overlap ────────────────────────────────────

  function Acquires(j: JobId, n: nat): seq<Event> { if n == 0 then [] else Acquires(j, n - 1) + [Acquire(j)] }

  /** Both jobs begin, take their locks, read and work before either commits; `last` commits last. */
  function Prelude(last: Op, first: Op): seq<Event>
    requires IsTransaction(last) && IsTransaction(first)
  {
    [Begin(0, last), Begin(1, first)] + Acquires(0, |LockOrder(last)|) + Acquires(1, |LockOrder(first)|)
    + [Enter(0), Enter(1)] + [Work(0, false), Work(1, false)]
  }

  function Overlapping(last: Op, first: Op): seq<Event>
    requires IsTransaction(last) && IsTransaction(first)
  {
    Prelude(last, first) + [Commit(1), Commit(0)]
  }

  /** The job has taken the first `n` of its locks, and nothing else has changed. */
  ghost predicate HasAcquired(w: World, v: World, j: JobId, op: Op, n: nat)
    requires IsTransaction(op) && n <= |LockOrder(op)|
  {
    && v.db == w.db && v.now == w.now && OthersKept(w, v, j)
    && j in v.jobs && v.jobs[j] == Locking(op, LockOrder(op)[n..])
    && forall t :: t in v.locks <==> t in w.locks || t in LockOrder(op)[..n]
  }

  lemma AcquiresNext(w: World, v: World, j: JobId, op: Op, n: nat)
    requires IsTransaction(op) && n < |LockOrder(op)| && HasAcquired(w, v, j, op, n)
    requires LockOrder(op)[n] !in w.locks
    ensures HasAcquired(w, Next(v, Acquire(j)), j, op, n + 1)
  {
    var order := LockOrder(op);
    LockOrderAscends(op);
    assert order[n..][1..] == order[n + 1..] && order[n..][0] == order[n];
    assert order[..n + 1] == order[..n] + [order[n]];
    assert CanAcquire(v, j);
    assert Next(v, Acquire(j)) == v.(locks := v.locks[order[n] := j], jobs := v.jobs[j := Locking(op, order[n + 1..])]);
  }

  /** Free locks can be taken one after the other. */
  lemma {:induction false} AcquiresAll(w: World, j: JobId, op: Op, n: nat)
    requires IsTransaction(op) && n <= |LockOrder(op)| && j in w.jobs && w.jobs[j] == Locking(op, LockOrder(op))
    requires forall t :: t in LockOrder(op) ==> t !in w.locks
    ensures HasAcquired(w, Play(w, Acquires(j, n)), j, op, n)
  {
    if n > 0 {
      var v := Play(w, Acquires(j, n - 1));
      AcquiresAll(w, j, op, n - 1);
      AcquiresNext(w, v, j, op, n - 1);
      var es := Acquires(j, n);
      assert es[..|es| - 1] == Acquires(j, n - 1);
    }
  }

  /** The tables and the clock are still these, and jobs 0 and 1 stand as given. */
  ghost predicate Stands(w: World, db: Db, now: Time, a: Job, b: Job) {
    w.db == db && w.now == now && 0 in w.jobs && 1 in w.jobs && w.jobs[0] == a && w.jobs[1] == b
  }

  ghost function Entered(db: Db, op: Op): Job
    requires IsTransaction(op)
  {
    Inside(op, ViewOf(db, LockOrder(op)))
  }

  /** A job that has worked on the given tables. */
  ghost function WorkedOn(db: Db, op: Op, now: Time): Job
    requires IsTransaction(op)
  {
    var view := ViewOf(db, LockOrder(op));
    Ready(op, view, now, Overlay(db, Writes(view, op, now)))
  }

  lemma AllAcquired(w: World, v: World, j: JobId, op: Op)
    requires IsTransaction(op) && HasAcquired(w, v, j, op, |LockOrder(op)|)
    ensures v.jobs[j] == Locking(op, [])
    ensures forall t :: t in v.locks <==> t in w.locks || t in LockOrder(op)
  {
    var all := LockOrder(op);
    assert all[..|all|] == all && all[|all|..] == [];
  }

  lemma BothEnter(w: World, db: Db, now: Time, last: Op, first: Op)
    requires IsTransaction(last) && IsTransaction(first) && Stands(w, db, now, Locking(last, []), Locking(first, []))
    ensures Stands(Play(w, [Enter(0), Enter(1)]), db, now, Entered(db, last), Entered(db, first))
  {
    PlayTwo(w, Enter(0), Enter(1));
    assert Stands(Next(w, Enter(0)), db, now, Entered(db, last), Locking(first, []));
  }

  lemma BothWork(w: World, db: Db, now: Time, last: Op, first: Op)
    requires IsTransaction(last) && IsTransaction(first) && !last.Acknowledge? && !first.Acknowledge?
    requires Stands(w, db, now, Entered(db, last), Entered(db, first))
    ensures Stands(Play(w, [Work(0, false), Work(1, false)]), db, now, WorkedOn(db, last, now), WorkedOn(db, first, now))
  {
    PlayTwo(w, Work(0, false), Work(1, false));
    assert Stands(Next(w, Work(0, false)), db, now, WorkedOn(db, last, now), Entered(db, first));
  }

  /** The prelude, stage by stage. */
  lemma PreludeConcat(w: World, last: Op, first: Op)
    requires IsTransaction(last) && IsTransaction(first)
    ensures Play(w, Prelude(last, first)) ==
            Play(Play(Play(Play(Play(w, [Begin(0, last), Begin(1, first)]),
              Acquires(0, |LockOrder(last)|)), Acquires(1, |LockOrder(first)|)),
              [Enter(0), Enter(1)]), [Work(0, false), Work(1, false)])
  {
    var begins, ms, ns := [Begin(0, last), Begin(1, first)], Acquires(0, |LockOrder(last)|), Acquires(1, |LockOrder(first)|);
    PlayConcat(w, begins + ms + ns + [Enter(0), Enter(1)], [Work(0, false), Work(1, false)]);
    PlayConcat(w, begins + ms + ns, [Enter(0), Enter(1)]);
    PlayConcat(w, begins + ms, ns);
    PlayConcat(w, begins, ms);
  }

  lemma PreludeStands(db: Db, now: Time, last: Op, first: Op)
    requires CanBegin(Start(db, now), 0, last) && CanBegin(Start(db, now), 1, first)
    requires forall t :: t in LockOrder(last) ==> t !in LockOrder(first)
    ensures Stands(Play(Start(db, now), Prelude(last, first)), db, now, WorkedOn(db, last, now), WorkedOn(db, first, now))
  {
    PreludeConcat(Start(db, now), last, first);
    TwoBegin(db, now, last, first);
    var a := Play(Start(db, now), [Begin(0, last), Begin(1, first)]);
    var b := Play(a, Acquires(0, |LockOrder(last)|));
    AcquiresAll(a, 0, last, |LockOrder(last)|);
    AllAcquired(a, b, 0, last);
    var c := Play(b, Acquires(1, |LockOrder(first)|));
    AcquiresAll(b, 1, first, |LockOrder(first)|);
    AllAcquired(b, c, 1, first);
    BothEnter(c, db, now, last, first);
    BothWork(Play(c, [Enter(0), Enter(1)]), db, now, last, first);
  }

  /** Any two transactions on different tokens can both have worked before either commits. */
  lemma PreludeReaches(db: Db, now: Time, last: Op, first: Op)
    requires Inv(db) && CanBegin(Start(db, now), 0, last) && CanBegin(Start(db, now), 1, first)
    requires forall t :: t in LockOrder(last) ==> t !in LockOrder(first)
    ensures var v := Play(Start(db, now), Prelude(last, first));
            && WorldInv(v) && WorkedOnThis(v, 0) && WorkedOnThis(v, 1)
            && Stands(v, db, now, WorkedOn(db, last, now), WorkedOn(db, first, now))
  {
    StartInv(db, now);
    PlayKeepsInv(Start(db, now), Prelude(last, first));
    PreludeStands(db, now, last, first);
  }

  /**
   So whatever the tables, any two transactions on different tokens that begin now
   can leave the cached pair of a user wrong, and leave it wrong exactly like this.
   The row lock that a refresh takes on its user's row is not modelled: it rules this
   schedule out when both refresh the user and `last` is a migration, which refreshes
   twice and so reads again after it holds that lock.
   */
  lemma ReachableOverlap(db: Db, now: Time, last: Op, first: Op, user: UserId, t: Time)
    requires Inv(db) && CanBegin(Start(db, now), 0, last) && CanBegin(Start(db, now), 1, first)
    requires forall t :: t in LockOrder(last) ==> t !in LockOrder(first)
    requires user in Refreshed(WorkedOn(db, last, now)) && now <= t
    ensures var e := Play(Start(db, now), Overlapping(last, first)).db;
            var a, b := WorkedOn(db, first, now), WorkedOn(db, last, now);
            && (FalselyOff(e, user, t) <==> !HasPremium(b.seen, user, t) && Adds(a, b, user, t))
            && (FalselyOn(e, user, t) <==>
                HasPremium(b.seen, user, t) && ClosesAll(a, b, user, t) && !Adds(a, b, user, t))
  {
    PreludeReaches(db, now, last, first);
    var v := Play(Start(db, now), Prelude(last, first));
    PlayConcat(Start(db, now), Prelude(last, first), [Commit(1), Commit(0)]);
    PlayTwo(v, Commit(1), Commit(0));
    OverlapIff(v, 1, 0, user, t);
  }

  // ── A closing that overlaps a grant ────────────────────────────────────────

  /** A transaction that closes the row of a token on record: a forced ending, or a reconcile that is not entitling. */
  predicate Closes(db: Db, op: Op, token: Token, now: Time) {
    && token in db.purchases
    && (op == Expire(token) || op == Revoke(token)
        || (op.Reconcile? && op.token == token && op.answer.knownProduct && op.decidedAt <= now && !Entitles(op)
            && (op.asserted.None? || op.asserted.value == db.purchases[token].userId)))
  }

  lemma ClosingEffect(db: Db, op: Op, token: Token, now: Time)
    requires Inv(db) && Closes(db, op, token, now)
    requires KeyOf(db.purchases[token]) in db.rows && db.rows[KeyOf(db.purchases[token])].status == Active
    ensures var r := Do(db, Tx(op, now)); var key := KeyOf(db.purchases[token]);
            && key.userId in r.cache
            && (forall k :: k != key ==> SameRowAt(r, db, k))
            && key in r.rows && r.rows[key].status != Active
  {
  }

  ghost predicate ActiveRow(db: Db, token: Token) {
    token in db.purchases && KeyOf(db.purchases[token]) in db.rows && db.rows[KeyOf(db.purchases[token])].status == Active
  }

  lemma ClosingViews(db: Db, op: Op, token: Token)
    requires Inv(db) && IsTransaction(op) && token in LockOrder(op) && ActiveRow(db, token)
    ensures var view := ViewOf(db, LockOrder(op));
            Inv(view) && ActiveRow(view, token) && view.purchases[token] == db.purchases[token]
  {
    ViewReads(db, LockOrder(op));
  }

  lemma ClosingRefreshes(db: Db, op: Op, token: Token, now: Time)
    requires Inv(db) && IsTransaction(op) && Closes(db, op, token, now) && ActiveRow(db, token)
    ensures db.purchases[token].userId in Refreshed(WorkedOn(db, op, now))
    ensures KeyOf(db.purchases[token]) in Written(WorkedOn(db, op, now))
  {
    ClosingViews(db, op, token);
    ClosingEffect(ViewOf(db, LockOrder(op)), op, token, now);
  }

  lemma OneRowLess(before: Db, after: Db, key: RowKey, user: UserId, t: Time)
    requires forall k :: k != key ==> SameRowAt(after, before, k)
    requires key in after.rows && after.rows[key].status != Active
    ensures LiveRows(after, user, t) == LiveRows(before, user, t) - {key}
  {
    forall k ensures k in LiveRows(after, user, t) <==> k in LiveRows(before, user, t) && k != key {
      assert k != key ==> SameRowAt(after, before, k);
    }
  }

  lemma WorkedRows(db: Db, op: Op, now: Time)
    requires Inv(db) && IsTransaction(op)
    ensures WorkedOn(db, op, now).seen.rows == Do(db, Tx(op, now)).rows
  {
    WritesAreLocal(db, op, now);
  }

  lemma ClosingSees(db: Db, op: Op, token: Token, now: Time, user: UserId, t: Time)
    requires Inv(db) && IsTransaction(op) && Closes(db, op, token, now) && ActiveRow(db, token)
    ensures LiveRows(WorkedOn(db, op, now).seen, user, t) == LiveRows(db, user, t) - {KeyOf(db.purchases[token])}
  {
    ClosingEffect(db, op, token, now);
    WorkedRows(db, op, now);
    OneRowLess(db, WorkedOn(db, op, now).seen, KeyOf(db.purchases[token]), user, t);
  }

  /** A closing transaction writes no row but those its tokens source. */
  lemma ClosingWrites(db: Db, op: Op, token: Token, now: Time, k: RowKey)
    requires Inv(db) && IsTransaction(op) && Closes(db, op, token, now) && ActiveRow(db, token)
    requires k in Written(WorkedOn(db, op, now))
    ensures Sources(db, LockOrder(op), k)
  {
    ViewReads(db, LockOrder(op));
    assert token in LockOrder(op);
    ClosingEffect(ViewOf(db, LockOrder(op)), op, token, now);
  }

  /** A reconcile that grants the row of a token of the user. */
  ghost predicate Grants(db: Db, op: Op, user: UserId, now: Time) {
    && CommittedEntitling(db, op) && op.answer.knownProduct && op.decidedAt <= now
    && ResolveOwner(db, op.asserted, op.token, op.answer) == Some(user)
  }

  /** What a grant wrote live is the row of its token, or was live already. */
  lemma GrantWrites(db: Db, op: Op, user: UserId, now: Time, k: RowKey, t: Time)
    requires Inv(db) && op.Reconcile? && Grants(db, op, user, now) && now <= t
    ensures var written := Written(WorkedOn(db, op, now)); var key := RowKey(user, SUBSCRIPTION, Some(op.token));
            && key in written && (Live(written[key], t) <==> op.answer.expiresAt.value > t)
            && (k in written && k.userId == user && Live(written[k], t) && k != key ==> k in LiveRows(db, user, t))
  {
    var view := ViewOf(db, LockOrder(op));
    ViewReads(db, LockOrder(op));
    SameAnswers(db, op);
    ReconcileEffect(view, op.asserted, op.token, op.answer, true, now);
  }

  /** What the grant adds to what the closing one saw, when no other row is live. */
  lemma AddsIffAhead(db: Db, now: Time, closing: Op, token: Token, granting: Op, t: Time)
    requires Inv(db) && IsTransaction(closing) && Closes(db, closing, token, now) && ActiveRow(db, token) && now <= t
    requires granting.Reconcile? && Grants(db, granting, db.purchases[token].userId, now)
    requires granting.token !in LockOrder(closing)
    requires LiveRows(db, db.purchases[token].userId, t) <= {KeyOf(db.purchases[token])}
    ensures Adds(WorkedOn(db, granting, now), WorkedOn(db, closing, now), db.purchases[token].userId, t)
            <==> granting.answer.expiresAt.value > t
  {
    var user := db.purchases[token].userId;
    var a, b := WorkedOn(db, granting, now), WorkedOn(db, closing, now);
    var granted := RowKey(user, SUBSCRIPTION, Some(granting.token));
    ClosingRefreshes(db, closing, token, now);
    GrantWrites(db, granting, user, now, granted, t);
    if granted in Written(b) {
      ClosingWrites(db, closing, token, now, granted);
    }
    if Adds(a, b, user, t) {
      var k :| k in Written(a) && k !in Written(b) && k.userId == user && Live(Written(a)[k], t);
      GrantWrites(db, granting, user, now, k, t);
    }
  }

  lemma MissesIff(db: Db, now: Time, closing: Op, token: Token, granting: Op, user: UserId, t: Time)
    requires Inv(db) && IsTransaction(closing) && Closes(db, closing, token, now) && ActiveRow(db, token) && now <= t
    requires user == db.purchases[token].userId && granting.Reconcile? && Grants(db, granting, user, now)
    requires granting.token !in LockOrder(closing)
    ensures var a, b := WorkedOn(db, granting, now), WorkedOn(db, closing, now);
            !HasPremium(b.seen, user, t) && Adds(a, b, user, t) <==>
            granting.answer.expiresAt.value > t && LiveRows(db, user, t) <= {KeyOf(db.purchases[token])}
  {
    ClosingSees(db, closing, token, now, user, t);
    if LiveRows(db, user, t) <= {KeyOf(db.purchases[token])} {
      AddsIffAhead(db, now, closing, token, granting, t);
    }
  }

  lemma BothCanBegin(db: Db, now: Time, closing: Op, token: Token, granting: Op)
    requires Closes(db, closing, token, now) && granting.Reconcile? && Grants(db, granting, db.purchases[token].userId, now)
    ensures CanBegin(Start(db, now), 0, closing) && CanBegin(Start(db, now), 1, granting)
    ensures IsTransaction(closing) && IsTransaction(granting) && granting.token in LockOrder(granting)
  {
  }

  /**
   A transaction that closes a user's row overlaps one that grants the row of another
   of their tokens, and commits last.  Readers of the cached pair then miss that the
   user is premium exactly while the grant has time left and no row is live but, at
   most, the one that was closed.
   */
  lemma ClosingMissesGrant(db: Db, now: Time, closing: Op, token: Token, granting: Op, t: Time)
    requires Inv(db) && Closes(db, closing, token, now) && ActiveRow(db, token) && now <= t
    requires granting.Reconcile? && Grants(db, granting, db.purchases[token].userId, now)
    requires forall k :: k in LockOrder(closing) ==> k !in LockOrder(granting)
    ensures var e := Play(Start(db, now), Overlapping(closing, granting)).db; var user := db.purchases[token].userId;
            FalselyOff(e, user, t) <==>
            granting.answer.expiresAt.value > t && LiveRows(db, user, t) <= {KeyOf(db.purchases[token])}
  {
    var user := db.purchases[token].userId;
    BothCanBegin(db, now, closing, token, granting);
    ClosingRefreshes(db, closing, token, now);
    MissesIff(db, now, closing, token, granting, user, t);
    ReachableOverlap(db, now, closing, granting, user, t);
  }
}
