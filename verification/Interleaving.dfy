/**
 The same transactions, interleaved.  A job opens a transaction with an answer
 Google gave earlier, takes the advisory locks of its one or two tokens in sorted
 order, reads the purchases of those tokens and the rows they source, then works:
 it reads its clock and the user's other rows, or calls Google to acknowledge.
 What it computed from what it read becomes visible at its commit, which releases
 the locks; a transaction that fails leaves nothing but what Google was told.  Any
 number of jobs run, and other jobs may step between any two of these events.
 */
module Interleaving {
  import opened Wrappers
  import opened EntitlementRows
  import opened Ownership
  import opened Register
  import opened Migration
  import opened Locality

  type JobId = nat

  datatype Job =
    | Locking(op: Op, todo: seq<Token>)
    | Inside(op: Op, view: Db)
    | Ready(op: Op, view: Db, at: Time, seen: Db)
    | Finished

  /**
   `acknowledged` lists the tokens Google acknowledged, in order; `learned` and
   `forgotten` the tokens whose stored flag a reconcile turned on or off; `lost` the
   acknowledged tokens whose transaction failed before it stored the flag.
   */
  datatype World = World(
    db: Db,
    now: Time,
    jobs: map<JobId, Job>,
    locks: map<Token, JobId>,
    acknowledged: seq<Token>,
    learned: seq<Token>,
    forgotten: seq<Token>,
    lost: seq<Token>,
    granted: set<Token>)

  predicate CommittedEntitling(view: Db, op: Op) {
    && op.Reconcile?
    && var owner := ResolveOwner(view, op.asserted, op.token, op.answer);
       owner.Some? && (op.asserted.None? || op.asserted == owner)
       && IsEntitling(op.answer.state, op.answer.expiresAt, op.decidedAt)
  }

  // ── Events ─────────────────────────────────────────────────────────────────

  datatype Event =
    | Begin(job: JobId, op: Op)
    | Acquire(job: JobId)
    | Enter(job: JobId)
    | Work(job: JobId, ackAccepted: bool)
    | Commit(job: JobId)
    | Fail(job: JobId)
    | Pass(elapsed: nat)

  predicate CanBegin(w: World, j: JobId, op: Op) {
    && j !in w.jobs
    && match op
       case Reconcile(_, _, a, decidedAt) => a.knownProduct && decidedAt <= w.now
       case Revoke(token) => token in w.db.purchases
       case Expire(token) => token in w.db.purchases
       case GrantOther(key, _, _) => key.source != SUBSCRIPTION
       case _ => false
  }

  predicate CanAcquire(w: World, j: JobId) {
    j in w.jobs && w.jobs[j].Locking? && w.jobs[j].todo != [] && w.jobs[j].todo[0] !in w.locks
  }

  predicate CanEnter(w: World, j: JobId) { j in w.jobs && w.jobs[j].Locking? && w.jobs[j].todo == [] }

  predicate CanWork(w: World, j: JobId) { j in w.jobs && w.jobs[j].Inside? }

  predicate CanCommit(w: World, j: JobId) { j in w.jobs && w.jobs[j].Ready? }

  predicate CanFail(w: World, j: JobId) { j in w.jobs && !w.jobs[j].Finished? }

  predicate Possible(w: World, e: Event) {
    match e
    case Begin(j, op) => CanBegin(w, j, op)
    case Acquire(j) => CanAcquire(w, j)
    case Enter(j) => CanEnter(w, j)
    case Work(j, _) => CanWork(w, j)
    case Commit(j) => CanCommit(w, j)
    case Fail(j) => CanFail(w, j)
    case Pass(_) => true
  }

  /** Google's reply decides an acknowledge. */
  function Decided(op: Op, ackAccepted: bool): Op {
    if op.Acknowledge? then Acknowledge(op.token, ackAccepted) else op
  }

  function Release(locks: map<Token, JobId>, j: JobId): map<Token, JobId> {
    map t | t in locks && locks[t] != j :: locks[t]
  }

  /** The job after its commit: an unacknowledged entitling reconcile continues with the acknowledge. */
  function Continued(view: Db, op: Op): Job {
    if CommittedEntitling(view, op) && !op.answer.acknowledged
    then Locking(Acknowledge(op.token, false), [op.token]) else Finished
  }

  predicate Acked(db: Db, t: Token) { t in db.purchases && db.purchases[t].acknowledged }

  /** Google has acknowledged the token and the flag is yet to be committed. */
  predicate Unwritten(job: Job, t: Token) { job.Ready? && job.op == Acknowledge(t, true) && AckCalled(job.view, t) }

  /** The users whose cached pair the transaction rewrites, with the pair it computed from what it saw. */
  ghost function Refreshed(job: Job): map<UserId, Cache>
    requires job.Ready?
  {
    map u | u in Writes(job.view, job.op, job.at).cache :: Snapshot(job.seen, u, job.at)
  }

  ghost function Committed(db: Db, job: Job): Db
    requires job.Ready?
  {
    Overlay(db, Writes(job.view, job.op, job.at)).(cache := db.cache + Refreshed(job))
  }

  ghost function AfterWork(w: World, j: JobId, ackAccepted: bool): World
    requires CanWork(w, j)
  {
    var view, op := w.jobs[j].view, Decided(w.jobs[j].op, ackAccepted);
    w.(jobs := w.jobs[j := Ready(op, view, w.now, Overlay(w.db, Writes(view, op, w.now)))],
       acknowledged := if op.Acknowledge? && AckCalled(view, op.token) && ackAccepted
                       then w.acknowledged + [op.token] else w.acknowledged)
  }

  ghost function AfterCommit(w: World, j: JobId): World
    requires CanCommit(w, j)
  {
    var job, op := w.jobs[j], w.jobs[j].op;
    var db := Committed(w.db, job);
    w.(db := db,
       jobs := w.jobs[j := Continued(job.view, op)],
       locks := Release(w.locks, j),
       learned := if op.Reconcile? && !Acked(w.db, op.token) && Acked(db, op.token)
                  then w.learned + [op.token] else w.learned,
       forgotten := if op.Reconcile? && Acked(w.db, op.token) && !Acked(db, op.token)
                    then w.forgotten + [op.token] else w.forgotten,
       granted := if CommittedEntitling(job.view, op) then w.granted + {op.token} else w.granted)
  }

  function AfterFail(w: World, j: JobId): World
    requires CanFail(w, j)
  {
    var job := w.jobs[j];
    w.(jobs := w.jobs[j := Finished],
       locks := Release(w.locks, j),
       lost := if job.op.Acknowledge? && Unwritten(job, job.op.token) then w.lost + [job.op.token] else w.lost)
  }

  ghost function Next(w: World, e: Event): World {
    if !Possible(w, e) then w
    else match e
      case Begin(j, op) => w.(jobs := w.jobs[j := Locking(op, LockOrder(op))])
      case Acquire(j) =>
        var job := w.jobs[j];
        w.(locks := w.locks[job.todo[0] := j], jobs := w.jobs[j := Locking(job.op, job.todo[1..])])
      case Enter(j) =>
        var op := w.jobs[j].op;
        w.(jobs := w.jobs[j := Inside(op, if IsTransaction(op) then ViewOf(w.db, LockOrder(op)) else Empty)])
      case Work(j, ackAccepted) => AfterWork(w, j, ackAccepted)
      case Commit(j) => AfterCommit(w, j)
      case Fail(j) => AfterFail(w, j)
      case Pass(elapsed) => w.(now := w.now + elapsed)
  }

  ghost function Play(w: World, events: seq<Event>): World {
    if events == [] then w else Next(Play(w, events[..|events| - 1]), events[|events| - 1])
  }

  lemma {:induction false} PlayConcat(w: World, xs: seq<Event>, ys: seq<Event>)
    ensures Play(w, xs + ys) == Play(Play(w, xs), ys)
  {
    if ys == [] {
      assert xs + ys == xs;
    } else {
      var n := |ys| - 1;
      PlayConcat(w, xs, ys[..n]);
      assert (xs + ys)[..|xs + ys| - 1] == xs + ys[..n];
    }
  }

  /** No job, no lock, nothing acknowledged yet. */
  function Start(db: Db, now: Time): World { World(db, now, map[], map[], [], [], [], [], {}) }

  lemma PlayTwo(w: World, x: Event, y: Event)
    ensures Play(w, [x, y]) == Next(Next(w, x), y)
  {
    assert [x, y][..1] == [x];
    assert Play(w, []) == w;
    assert Play(w, [x]) == Next(w, x);
  }

  lemma TwoBegin(db: Db, now: Time, x: Op, y: Op)
    requires CanBegin(Start(db, now), 0, x) && CanBegin(Start(db, now), 1, y)
    ensures Play(Start(db, now), [Begin(0, x), Begin(1, y)]) ==
            Start(db, now).(jobs := map[0 := Locking(x, LockOrder(x)), 1 := Locking(y, LockOrder(y))])
  {
    PlayTwo(Start(db, now), Begin(0, x), Begin(1, y));
    assert map[0 := Locking(x, LockOrder(x))][1 := Locking(y, LockOrder(y))]
           == map[0 := Locking(x, LockOrder(x)), 1 := Locking(y, LockOrder(y))];
  }

  // ── The invariant ──────────────────────────────────────────────────────────

  /** The locks an unfinished job has taken so far. */
  function Held(job: Job): seq<Token> {
    if job.Finished? || !IsTransaction(job.op) then []
    else if !job.Locking? then LockOrder(job.op)
    else if |job.todo| <= |LockOrder(job.op)| then LockOrder(job.op)[..|LockOrder(job.op)| - |job.todo|]
    else []
  }

  /** The decision a reconcile carries was taken by the given time; an acknowledge follows a committed grant. */
  predicate Timely(w: World, op: Op, at: Time) {
    && (op.Reconcile? ==> op.answer.knownProduct && op.decidedAt <= at)
    && (op.Acknowledge? ==> op.token in w.granted)
  }

  /** What the job has read of its own tokens is still what the tables hold. */
  ghost predicate ViewCurrent(w: World, job: Job)
    requires job.Inside? || job.Ready?
  {
    IsTransaction(job.op) && job.view == ViewOf(w.db, LockOrder(job.op))
  }

  ghost predicate JobOk(w: World, job: Job) {
    match job
    case Locking(op, todo) => IsTransaction(op) && LockOrder(op) == Held(job) + todo && Timely(w, op, w.now)
    case Inside(op, _) => ViewCurrent(w, job) && Timely(w, op, w.now)
    case Ready(op, _, at, _) => ViewCurrent(w, job) && at <= w.now && Timely(w, op, at)
    case Finished => true
  }

  ghost predicate JobsOk(w: World) { forall j :: j in w.jobs ==> JobOk(w, w.jobs[j]) }

  predicate HasTaken(w: World, j: JobId, t: Token) { j in w.jobs && t in Held(w.jobs[j]) }

  predicate Holds(w: World, j: JobId, t: Token) { t in w.locks && w.locks[t] == j }

  /** A lock is held by exactly the unfinished job that has taken it. */
  ghost predicate LocksOk(w: World) { forall j, t :: HasTaken(w, j, t) <==> Holds(w, j, t) }

  ghost predicate WorldInv(w: World) { Inv(w.db) && JobsOk(w) && LocksOk(w) }

  lemma StartInv(db: Db, now: Time)
    requires Inv(db)
    ensures WorldInv(Start(db, now))
  {
    forall k: JobId, t: Token ensures HasTaken(Start(db, now), k, t) <==> Holds(Start(db, now), k, t) {
    }
  }

  lemma LockOrderAscends(op: Op)
    requires IsTransaction(op)
    ensures forall i, j :: 0 <= i < j < |LockOrder(op)| ==> LockOrder(op)[i] < LockOrder(op)[j]
  {
  }

  // ── Events that change no table ────────────────────────────────────────────

  lemma JobsStayOk(w: World, r: World, j: JobId)
    requires JobsOk(w) && r.db == w.db && w.now <= r.now && w.granted <= r.granted
    requires j in r.jobs && JobOk(r, r.jobs[j])
    requires forall k :: k in r.jobs && k != j ==> k in w.jobs && r.jobs[k] == w.jobs[k]
    ensures JobsOk(r)
  {
    forall k | k in r.jobs && k != j ensures JobOk(r, r.jobs[k]) {
      assert JobOk(w, w.jobs[k]);
    }
  }

  lemma SplitNext(order: seq<Token>, todo: seq<Token>)
    requires todo != [] && |todo| <= |order| && order == order[..|order| - |todo|] + todo
    ensures order[..|order| - |todo| + 1] == order[..|order| - |todo|] + [todo[0]]
    ensures order == order[..|order| - |todo| + 1] + todo[1..]
  {
    var k := |order| - |todo|;
    assert order[k..] == todo;
    assert order[k] == todo[0];
  }

  lemma TakesNext(w: World, job: Job)
    requires JobOk(w, job) && job.Locking? && job.todo != []
    ensures JobOk(w, Locking(job.op, job.todo[1..]))
    ensures Held(Locking(job.op, job.todo[1..])) == Held(job) + [job.todo[0]]
  {
    SplitNext(LockOrder(job.op), job.todo);
  }

  lemma AcquireKeepsLocks(w: World, j: JobId)
    requires LocksOk(w) && CanAcquire(w, j)
    requires Held(Locking(w.jobs[j].op, w.jobs[j].todo[1..])) == Held(w.jobs[j]) + [w.jobs[j].todo[0]]
    ensures LocksOk(Next(w, Acquire(j)))
  {
    var taken, r := w.jobs[j].todo[0], Next(w, Acquire(j));
    forall k: JobId, t: Token ensures HasTaken(r, k, t) <==> Holds(r, k, t) {
      assert HasTaken(w, k, t) <==> Holds(w, k, t);
      assert HasTaken(w, k, taken) <==> Holds(w, k, taken);
    }
  }

  lemma AcquireKeepsInv(w: World, j: JobId)
    requires WorldInv(w) && CanAcquire(w, j)
    ensures WorldInv(Next(w, Acquire(j)))
  {
    assert JobOk(w, w.jobs[j]);
    TakesNext(w, w.jobs[j]);
    AcquireKeepsLocks(w, j);
    JobsStayOk(w, Next(w, Acquire(j)), j);
  }

  /** No job but this one has changed. */
  ghost predicate OthersKept(w: World, r: World, j: JobId) {
    forall k :: k != j ==> (k in r.jobs <==> k in w.jobs) && (k in w.jobs ==> r.jobs[k] == w.jobs[k])
  }

  /** The locks stay as they are when the one job that changes keeps what it holds. */
  lemma LocksStay(w: World, r: World, j: JobId)
    requires LocksOk(w) && r.locks == w.locks && j in r.jobs
    requires Held(r.jobs[j]) == if j in w.jobs then Held(w.jobs[j]) else []
    requires OthersKept(w, r, j)
    ensures LocksOk(r)
  {
    forall k: JobId, t: Token ensures HasTaken(r, k, t) <==> Holds(r, k, t) {
      assert HasTaken(w, k, t) <==> Holds(w, k, t);
    }
  }

  lemma BeginKeepsInv(w: World, j: JobId, op: Op)
    requires WorldInv(w) && CanBegin(w, j, op)
    ensures WorldInv(Next(w, Begin(j, op)))
  {
    var r := Next(w, Begin(j, op));
    JobsStayOk(w, r, j);
    LocksStay(w, r, j);
  }

  lemma EnterKeepsInv(w: World, j: JobId)
    requires WorldInv(w) && CanEnter(w, j)
    ensures WorldInv(Next(w, Enter(j)))
  {
    var r := Next(w, Enter(j));
    assert JobOk(w, w.jobs[j]);
    JobsStayOk(w, r, j);
    LocksStay(w, r, j);
  }

  lemma WorkKeepsInv(w: World, j: JobId, ackAccepted: bool)
    requires WorldInv(w) && CanWork(w, j)
    ensures WorldInv(Next(w, Work(j, ackAccepted)))
  {
    var r := Next(w, Work(j, ackAccepted));
    assert JobOk(w, w.jobs[j]);
    assert LockOrder(r.jobs[j].op) == LockOrder(w.jobs[j].op);
    JobsStayOk(w, r, j);
    LocksStay(w, r, j);
  }

  lemma PassKeepsInv(w: World, elapsed: nat)
    requires WorldInv(w)
    ensures WorldInv(Next(w, Pass(elapsed)))
  {
    var r := Next(w, Pass(elapsed));
    forall k | k in r.jobs ensures JobOk(r, r.jobs[k]) {
      assert JobOk(w, w.jobs[k]);
    }
    forall k: JobId, t: Token ensures HasTaken(r, k, t) <==> Holds(r, k, t) {
      assert HasTaken(w, k, t) <==> Holds(w, k, t);
    }
  }

  // ── Commits ────────────────────────────────────────────────────────────────

  /**
   What a job commits, computed from a view it read some events ago, is what the
   whole transaction would have written in one step now: the view is current because
   the job holds the locks of its tokens.
   */
  lemma CommitIsStep(w: World, j: JobId)
    requires WorldInv(w) && CanCommit(w, j)
    ensures IsTransaction(w.jobs[j].op)
    ensures SameTables(Next(w, Commit(j)).db, Do(w.db, Tx(w.jobs[j].op, w.jobs[j].at)))
  {
    assert JobOk(w, w.jobs[j]);
    WritesAreLocal(w.db, w.jobs[j].op, w.jobs[j].at);
  }

  /** Two jobs that hold a token are the same job. */
  lemma OneHolder(w: World, j: JobId, k: JobId, t: Token)
    requires LocksOk(w) && HasTaken(w, j, t) && HasTaken(w, k, t)
    ensures j == k
  {
    assert Holds(w, j, t) && Holds(w, k, t);
  }

  lemma CommitKeepsView(w: World, j: JobId, k: JobId)
    requires WorldInv(w) && CanCommit(w, j) && k in w.jobs && k != j && (w.jobs[k].Inside? || w.jobs[k].Ready?)
    ensures ViewCurrent(Next(w, Commit(j)), w.jobs[k])
  {
    var op, other := w.jobs[j].op, w.jobs[k];
    assert JobOk(w, w.jobs[j]) && JobOk(w, other);
    forall t | t in LockOrder(other.op) ensures t !in LockOrder(op) {
      if HasTaken(w, j, t) && HasTaken(w, k, t) {
        OneHolder(w, j, k, t);
      }
    }
    OtherViewsStay(w.db, op, w.jobs[j].at, LockOrder(other.op));
    CommitIsStep(w, j);
    SameViews(Next(w, Commit(j)).db, Do(w.db, Tx(op, w.jobs[j].at)), LockOrder(other.op));
  }

  lemma ContinuedOk(w: World, r: World, view: Db, op: Op)
    requires CommittedEntitling(view, op) ==> op.token in r.granted
    ensures Held(Continued(view, op)) == [] && JobOk(r, Continued(view, op))
  {
  }

  lemma CommitKeepsJobs(w: World, j: JobId)
    requires WorldInv(w) && CanCommit(w, j)
    ensures JobsOk(Next(w, Commit(j)))
  {
    var r := Next(w, Commit(j));
    forall k | k in r.jobs ensures JobOk(r, r.jobs[k]) {
      if k == j {
        ContinuedOk(w, r, w.jobs[j].view, w.jobs[j].op);
      } else {
        assert JobOk(w, w.jobs[k]);
        if w.jobs[k].Inside? || w.jobs[k].Ready? {
          CommitKeepsView(w, j, k);
        }
      }
    }
  }

  /** A transaction that ends gives up every lock of its job. */
  lemma EndKeepsLocks(w: World, r: World, j: JobId)
    requires LocksOk(w) && j in w.jobs && j in r.jobs
    requires r.locks == Release(w.locks, j) && Held(r.jobs[j]) == []
    requires OthersKept(w, r, j)
    ensures LocksOk(r)
  {
    forall k: JobId, t: Token ensures HasTaken(r, k, t) <==> Holds(r, k, t) {
      assert HasTaken(w, k, t) <==> Holds(w, k, t);
    }
  }

  lemma SameTablesInv(a: Db, b: Db)
    requires Inv(a) && SameTables(a, b)
    ensures Inv(b)
  {
    forall k | k in b.rows && k.source == SUBSCRIPTION ensures SourcedBy(b, k) {
      assert SourcedBy(a, k);
    }
  }

  lemma CommitKeepsLocks(w: World, j: JobId)
    requires WorldInv(w) && CanCommit(w, j)
    ensures LocksOk(Next(w, Commit(j)))
  {
    ContinuedOk(w, Next(w, Commit(j)), w.jobs[j].view, w.jobs[j].op);
    EndKeepsLocks(w, Next(w, Commit(j)), j);
  }

  lemma CommitKeepsTables(w: World, j: JobId)
    requires WorldInv(w) && CanCommit(w, j)
    ensures Inv(Next(w, Commit(j)).db)
  {
    CommitIsStep(w, j);
    DoKeepsInv(w.db, Tx(w.jobs[j].op, w.jobs[j].at));
    SameTablesInv(Do(w.db, Tx(w.jobs[j].op, w.jobs[j].at)), Next(w, Commit(j)).db);
  }

  lemma CommitKeepsInv(w: World, j: JobId)
    requires WorldInv(w) && CanCommit(w, j)
    ensures WorldInv(Next(w, Commit(j)))
  {
    CommitKeepsTables(w, j);
    CommitKeepsJobs(w, j);
    CommitKeepsLocks(w, j);
  }

  lemma FailKeepsInv(w: World, j: JobId)
    requires WorldInv(w) && CanFail(w, j)
    ensures WorldInv(Next(w, Fail(j)))
  {
    JobsStayOk(w, Next(w, Fail(j)), j);
    EndKeepsLocks(w, Next(w, Fail(j)), j);
  }

  lemma NextKeepsInv(w: World, e: Event)
    requires WorldInv(w)
    ensures WorldInv(Next(w, e))
  {
    if Possible(w, e) {
      match e
      case Begin(j, op) => BeginKeepsInv(w, j, op);
      case Acquire(j) => AcquireKeepsInv(w, j);
      case Enter(j) => EnterKeepsInv(w, j);
      case Work(j, ok) => WorkKeepsInv(w, j, ok);
      case Commit(j) => CommitKeepsInv(w, j);
      case Fail(j) => FailKeepsInv(w, j);
      case Pass(elapsed) => PassKeepsInv(w, elapsed);
    }
  }

  lemma {:induction false} PlayKeepsInv(w: World, events: seq<Event>)
    requires WorldInv(w)
    ensures WorldInv(Play(w, events))
  {
    if events != [] {
      PlayKeepsInv(w, events[..|events| - 1]);
      NextKeepsInv(Play(w, events[..|events| - 1]), events[|events| - 1]);
    }
  }

  // ── Mutual exclusion ───────────────────────────────────────────────────────

  predicate InCriticalSection(w: World, j: JobId) { j in w.jobs && (w.jobs[j].Inside? || w.jobs[j].Ready?) }

  /** Two jobs in their critical sections never share a token, and what each has read is still true. */
  lemma CriticalSectionsDisjoint(w: World, events: seq<Event>, j: JobId, k: JobId, t: Token)
    requires WorldInv(w)
    requires InCriticalSection(Play(w, events), j) && InCriticalSection(Play(w, events), k) && j != k
    ensures var e := Play(w, events);
            && ViewCurrent(e, e.jobs[j]) && ViewCurrent(e, e.jobs[k])
            && !(t in LockOrder(e.jobs[j].op) && t in LockOrder(e.jobs[k].op))
  {
    PlayKeepsInv(w, events);
    var e := Play(w, events);
    assert JobOk(e, e.jobs[j]) && JobOk(e, e.jobs[k]);
    if HasTaken(e, j, t) && HasTaken(e, k, t) {
      OneHolder(e, j, k, t);
    }
  }

  // ── Progress ───────────────────────────────────────────────────────────────

  predicate CanAdvance(w: World, j: JobId) { CanAcquire(w, j) || CanEnter(w, j) || CanWork(w, j) || CanCommit(w, j) }

  predicate Waiting(w: World, j: JobId) { j in w.jobs && w.jobs[j].Locking? && w.jobs[j].todo != [] }

  /** A bound above every token any of the given jobs still waits for. */
  lemma {:induction false} WaitBound(w: World, js: set<JobId>) returns (bound: nat)
    ensures forall j :: j in js && Waiting(w, j) ==> w.jobs[j].todo[0] < bound
  {
    if js == {} {
      bound := 0;
    } else {
      var j :| j in js;
      bound := WaitBound(w, js - {j});
      if Waiting(w, j) {
        bound := bound + w.jobs[j].todo[0] + 1;
      }
    }
  }

  /** A blocked job waits for one that itself waits only for larger tokens. */
  lemma HolderWaitsHigher(w: World, j: JobId)
    requires WorldInv(w) && Waiting(w, j) && !CanAcquire(w, j)
    ensures var t := w.jobs[j].todo[0]; var h := w.locks[t];
            h in w.jobs && !w.jobs[h].Finished? && (Waiting(w, h) ==> t < w.jobs[h].todo[0])
  {
    var t := w.jobs[j].todo[0];
    var h := w.locks[t];
    assert Holds(w, h, t) && HasTaken(w, h, t);
    var job := w.jobs[h];
    assert JobOk(w, job);
    LockOrderAscends(job.op);
    if Waiting(w, h) {
      var i :| 0 <= i < |Held(job)| && Held(job)[i] == t;
      assert LockOrder(job.op)[i] == t && LockOrder(job.op)[|Held(job)|] == job.todo[0];
    }
  }

  lemma {:induction false} SomeoneAdvances(w: World, j: JobId, bound: nat) returns (k: JobId)
    requires WorldInv(w) && j in w.jobs && !w.jobs[j].Finished?
    requires forall i :: Waiting(w, i) ==> w.jobs[i].todo[0] < bound
    ensures CanAdvance(w, k)
    decreases if Waiting(w, j) then bound - w.jobs[j].todo[0] else 0
  {
    if CanAdvance(w, j) {
      k := j;
    } else {
      HolderWaitsHigher(w, j);
      k := SomeoneAdvances(w, w.locks[w.jobs[j].todo[0]], bound);
    }
  }

  /** No deadlock: while some job is unfinished, some job can take its next step. */
  lemma NoDeadlock(w: World, events: seq<Event>, j: JobId) returns (k: JobId)
    requires WorldInv(w)
    requires j in Play(w, events).jobs && !Play(w, events).jobs[j].Finished?
    ensures CanAdvance(Play(w, events), k)
  {
    PlayKeepsInv(w, events);
    var e := Play(w, events);
    var bound := WaitBound(e, e.jobs.Keys);
    k := SomeoneAdvances(e, j, bound);
  }

  // ── Interleavings are serial schedules ─────────────────────────────────────

  /** The transactions in the order of their commits, each with the clock it read. */
  ghost function Trace(w: World, events: seq<Event>): seq<Tx> {
    if events == [] then []
    else
      var init, e := events[..|events| - 1], events[|events| - 1];
      var v := Play(w, init);
      Trace(w, init) + if Possible(v, e) && e.Commit? then [Tx(v.jobs[e.job].op, v.jobs[e.job].at)] else []
  }

  lemma OtherEventsKeepDb(w: World, e: Event)
    requires !(Possible(w, e) && e.Commit?)
    ensures Next(w, e).db == w.db
  {
  }

  /** Whatever the interleaving, the tables are those of the serial schedule in commit order. */
  lemma {:induction false} PlayIsSerial(w: World, events: seq<Event>)
    requires WorldInv(w)
    ensures SameTables(Play(w, events).db, Serial(w.db, Trace(w, events)))
  {
    if events != [] {
      var init, e := events[..|events| - 1], events[|events| - 1];
      var v, txs := Play(w, init), Trace(w, init);
      PlayIsSerial(w, init);
      PlayKeepsInv(w, init);
      if Possible(v, e) && e.Commit? {
        var tx := Tx(v.jobs[e.job].op, v.jobs[e.job].at);
        CommitIsStep(v, e.job);
        SerialKeepsOwners(w.db, txs);
        TablesDecide(v.db, Serial(w.db, txs), tx.op, tx.at);
        assert (txs + [tx])[..|txs|] == txs;
      } else {
        OtherEventsKeepDb(v, e);
        assert txs + [] == txs;
      }
    }
  }

  /** No decision in the trace was taken after its transaction read the clock. */
  lemma {:induction false} TraceIsTimely(w: World, events: seq<Event>)
    requires WorldInv(w)
    ensures forall tx :: tx in Trace(w, events) && tx.op.Reconcile? ==> tx.op.answer.knownProduct && tx.op.decidedAt <= tx.at
  {
    if events != [] {
      var v, e := Play(w, events[..|events| - 1]), events[|events| - 1];
      TraceIsTimely(w, events[..|events| - 1]);
      PlayKeepsInv(w, events[..|events| - 1]);
      if Possible(v, e) && e.Commit? {
        assert JobOk(v, v.jobs[e.job]);
      }
    }
  }

  /** Every transaction that commits could occur when it read its clock. */
  lemma CommitsAreEnabled(w: World, events: seq<Event>, j: JobId)
    requires WorldInv(w) && CanCommit(Play(w, events), j)
    ensures var e := Play(w, events); e.jobs[j].at <= e.now && Enabled(Sys(e.db, e.jobs[j].at), e.jobs[j].op)
  {
    PlayKeepsInv(w, events);
    assert JobOk(Play(w, events), Play(w, events).jobs[j]);
  }

  // ── What therefore holds in every interleaving ─────────────────────────────

  /** No token changes hands, and every new owner was asserted by a client. */
  lemma InterleavedOwners(w: World, events: seq<Event>)
    requires WorldInv(w)
    ensures var e := Play(w, events).db;
            Inv(e) && KeepsOwners(w.db, e) && Owners(e) <= Owners(w.db) + Asserted(Trace(w, events))
  {
    PlayIsSerial(w, events);
    PlayKeepsInv(w, events);
    SerialKeepsOwners(w.db, Trace(w, events));
    SerialOwners(w.db, Trace(w, events));
  }

  /**
   A token first recorded while its linked predecessor is on record has the
   predecessor's owner, whatever other jobs did before its commit and do after it.
   */
  lemma InterleavedChain(w: World, events: seq<Event>, j: JobId, pred: Token, later: seq<Event>)
    requires WorldInv(w) && CanCommit(Play(w, events), j)
    requires var v := Play(w, events); var op := v.jobs[j].op;
             && op.Reconcile? && op.answer.linkedToken == Some(pred) && op.token !in v.db.purchases && pred in v.db.purchases
             && op.token in Next(v, Commit(j)).db.purchases
    ensures var v := Play(w, events); var t := v.jobs[j].op.token;
            var e := Play(Next(v, Commit(j)), later).db;
            t in e.purchases && pred in e.purchases
            && e.purchases[t].userId == v.db.purchases[pred].userId == e.purchases[pred].userId
  {
    var v := Play(w, events);
    var job := v.jobs[j];
    PlayKeepsInv(w, events);
    CommitIsStep(v, j);
    ChainKeepsOwner(v.db, job.op.asserted, job.op.token, job.op.answer, job.op.decidedAt, job.at, pred, []);
    CommitKeepsInv(v, j);
    InterleavedOwners(Next(v, Commit(j)), later);
  }

  /** In every interleaving, what only reconciles, ends or acknowledges other tokens leaves a token alone. */
  lemma InterleavedSpares(w: World, events: seq<Event>, t: Token)
    requires WorldInv(w) && t in w.db.purchases
    requires forall tx :: tx in Trace(w, events) ==> Spares(tx.op, t, w.db.purchases.Keys)
    ensures Untouched(w.db, Play(w, events).db, t)
  {
    PlayIsSerial(w, events);
    SerialSpares(w.db, Trace(w, events), t);
  }

  lemma SamePremium(a: Db, b: Db, user: UserId, now: Time)
    requires SameTables(a, b)
    ensures PremiumBySubscription(a, user, now) <==> PremiumBySubscription(b, user, now)
  {
    assert LiveRows(a, user, now) == LiveRows(b, user, now);
  }

  /**
   In every interleaving a user is premium by subscription exactly when the last
   touch, in commit order, of some token they own was an entitling reconcile whose
   expiry is still ahead.
   */
  lemma InterleavedPremium(w: World, events: seq<Event>, user: UserId, now: Time)
    requires WorldInv(w)
    ensures var e := Play(w, events).db; var txs := Trace(w, events);
            PremiumBySubscription(e, user, now) <==>
            exists t :: t in e.purchases && e.purchases[t].userId == user
                        && LastTouch(w.db, txs, t).Some? && LastTouch(w.db, txs, t).value > now
  {
    PlayIsSerial(w, events);
    PremiumIffLastTouch(w.db, Trace(w, events), user, now);
    SamePremium(Play(w, events).db, Serial(w.db, Trace(w, events)), user, now);
  }
}
