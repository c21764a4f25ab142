/**
 Friend calls that overlap.  Each call reads, decides and then writes, and only the
 write is one statement or transaction: nothing stops another call from writing
 between any two of its reads, or between the last read and the write.  Two calls
 keep the friend graph's invariant, however their statements interleave, except when
 they clash.
 */
module FriendOverlap {
  import opened Wrappers
  import opened Sums
  import opened FriendRequests

  /** What a call has decided to write. */
  datatype Decision =
    | Nothing(outcome: Outcome)
    | Create(fromUserId: UserId, toUserId: UserId)
    | Mark(id: nat, status: Status)
    | Befriend(id: nat)
    | Drop(pair: Pair)

  /** A send reads the friendship, then the row towards the actor, then the row towards the target. */
  function DecideSend(friends: Db, incoming: Db, outgoing: Db, users: set<UserId>, actor: UserId, target: UserId): Decision {
    var towards := FindByDirection(incoming.requests, target, actor);
    var own := FindByDirection(outgoing.requests, actor, target);
    if target == actor then Nothing(BadRequest)
    else if target !in users then Nothing(NotFound)
    else if Friends(friends, actor, target) then Nothing(Conflict)
    else if towards.Some? && incoming.requests[towards.value].status == PENDING then Nothing(Conflict)
    else if own.None? then Create(actor, target)
    else if outgoing.requests[own.value].status == PENDING then Nothing(Done(own.value))
    else Mark(own.value, PENDING)
  }

  function Answer(db: Db, id: nat, actor: UserId, asSender: bool, decision: Decision): Decision {
    var refusal := Refusal(db, id, actor, asSender);
    if refusal.Some? then Nothing(refusal.value) else decision
  }

  /** How many statements a call reads with. */
  function ReadsOf(call: Call): nat { if call.SendCall? then 3 else 1 }

  /** The decision of a call that made its reads on these states; one it would have skipped changes nothing. */
  function DecideFrom(saw: seq<Db>, users: set<UserId>, call: Call): Decision
    requires |saw| == ReadsOf(call)
  {
    match call
    case SendCall(actor, target) => DecideSend(saw[0], saw[1], saw[2], users, actor, target)
    case AcceptCall(actor, id) => Answer(saw[0], id, actor, false, Befriend(id))
    case RejectCall(actor, id) => Answer(saw[0], id, actor, false, Mark(id, DECLINED))
    case CancelCall(actor, id) => Answer(saw[0], id, actor, true, Mark(id, CANCELLED))
    case RemoveCall(actor, friend) =>
      if actor == friend then Nothing(BadRequest)
      else if !Friends(saw[0], actor, friend) then Nothing(NotFound)
      else Drop(Canonical(actor, friend))
  }

  /** The decision of a call that made all its reads on one state. */
  function Decide(db: Db, users: set<UserId>, call: Call): Decision {
    DecideFrom(if call.SendCall? then [db, db, db] else [db], users, call)
  }

  /** The decision of a call that made its first `k` reads before another call wrote, and the rest after. */
  function DecideAcross(before: Db, after: Db, users: set<UserId>, call: Call, k: nat): Decision {
    var second, third := if k > 1 then before else after, if k > 2 then before else after;
    var first := if k > 0 then before else after;
    DecideFrom(if call.SendCall? then [first, second, third] else [first], users, call)
  }

  /** The write checks nothing the call read, but for the unique indexes and the friendship an accept looks up again. */
  function Write(db: Db, d: Decision): (Db, Outcome) {
    match d
    case Nothing(outcome) => (db, outcome)
    case Create(u, v) =>
      if FindByDirection(db.requests, u, v).Some? then (db, Failed)
      else (db.(requests := db.requests + [Request(u, v, PENDING)]), Done(|db.requests|))
    case Mark(id, status) => if id < |db.requests| then (WithStatus(db, id, status), Done(id)) else (db, Failed)
    case Befriend(id) =>
      if id >= |db.requests| || db.requests[id].fromUserId == db.requests[id].toUserId then (db, Failed)
      else
        var r, accepted := db.requests[id], WithStatus(db, id, ACCEPTED);
        if Friends(db, r.fromUserId, r.toUserId) then (accepted, Done(id))
        else (accepted.(friendships := accepted.friendships + [Canonical(r.fromUserId, r.toUserId)]), Done(id))
    case Drop(pair) => (db.(friendships := Without(db.friendships, pair)), Removed)
  }

  /** A call that nothing interrupts is the atomic call. */
  lemma DecideThenWrite(db: Db, users: set<UserId>, call: Call)
    ensures Write(db, Decide(db, users, call)) == Perform(db, users, call)
  {
  }

  function Written(db: Db, d: Decision): Db { Write(db, d).0 }

  // ── When two decisions clash ───────────────────────────────────────────────

  /** The direction in which a write makes a request pending. */
  function Opens(db: Db, d: Decision): Option<(UserId, UserId)> {
    match d
    case Create(u, v) => Some((u, v))
    case Mark(id, PENDING) => if id < |db.requests| then Some((db.requests[id].fromUserId, db.requests[id].toUserId)) else None
    case _ => None
  }

  predicate Opposite(x: Option<(UserId, UserId)>, y: Option<(UserId, UserId)>) {
    x.Some? && y.Some? && x.value.0 == y.value.1 && x.value.1 == y.value.0
  }

  /** Another accepted request between the users of request `id`: the one of the other direction. */
  ghost predicate AcceptedBeside(db: Db, id: nat)
    requires id < |db.requests|
  {
    exists i :: 0 <= i < |db.requests| && Sent(db.requests[i], db.requests[id].toUserId, db.requests[id].fromUserId)
                && db.requests[i].status == ACCEPTED
  }

  /**
   Decisions made on one state clash when both open a request, in opposite directions;
   or when the second turns down or takes back the request the first accepts, and no
   accepted request stands beside it.
   */
  ghost predicate DecisionsClash(db: Db, first: Decision, second: Decision) {
    || Opposite(Opens(db, first), Opens(db, second))
    || (first.Befriend? && second.Mark? && second.id == first.id && first.id < |db.requests| && !AcceptedBeside(db, first.id))
  }

  // ── What a decision rests on ───────────────────────────────────────────────

  /** No pending request between two users who are not friends. */
  ghost predicate Free(db: Db, u: UserId, v: UserId) {
    && u != v && !Friends(db, u, v)
    && forall i :: 0 <= i < |db.requests| ==> !PendingFrom(db.requests[i], u, v) && !PendingFrom(db.requests[i], v, u)
  }

  /** What the call had read when it decided to write. */
  ghost predicate Sound(db: Db, d: Decision) {
    match d
    case Nothing(_) => false
    case Create(u, v) => Free(db, u, v) && forall i :: 0 <= i < |db.requests| ==> !Sent(db.requests[i], u, v)
    case Mark(id, PENDING) => id < |db.requests| && Free(db, db.requests[id].fromUserId, db.requests[id].toUserId)
    case Mark(id, status) => id < |db.requests| && db.requests[id].status == PENDING && status != ACCEPTED
    case Befriend(id) => id < |db.requests| && db.requests[id].status == PENDING
    case Drop(pair) => pair in db.friendships
  }

  lemma DecisionIsSound(db: Db, users: set<UserId>, call: Call)
    requires Inv(db)
    ensures Decide(db, users, call).Nothing? || Sound(db, Decide(db, users, call))
  {
    if call.SendCall? && (Decide(db, users, call).Create? || Decide(db, users, call).Mark?) {
      NoPendingRow(db, call.actor, call.target);
      NoPendingRow(db, call.target, call.actor);
    }
  }

  lemma NoPendingRow(db: Db, u: UserId, v: UserId)
    requires Inv(db)
    requires var id := FindByDirection(db.requests, u, v); id.None? || db.requests[id.value].status != PENDING
    ensures forall i :: 0 <= i < |db.requests| ==> !PendingFrom(db.requests[i], u, v)
  {
    forall i | 0 <= i < |db.requests| && Sent(db.requests[i], u, v) ensures db.requests[i].status != PENDING {
      FoundIsTheRow(db.requests, u, v, i);
    }
  }

  /** A call that decides just this. */
  lemma CallFor(db: Db, d: Decision) returns (users: set<UserId>, call: Call)
    requires Inv(db) && Sound(db, d)
    ensures Decide(db, users, call) == d
  {
    users := {};
    match d
    case Create(u, v) =>
      users, call := {v}, SendCall(u, v);
      FreeSends(db, users, u, v);
    case Mark(id, status) =>
      var r := db.requests[id];
      if status == PENDING {
        users, call := {r.toUserId}, SendCall(r.fromUserId, r.toUserId);
        FoundIsTheRow(db.requests, r.fromUserId, r.toUserId, id);
        FreeSends(db, users, r.fromUserId, r.toUserId);
      } else {
        call := if status == DECLINED then RejectCall(r.toUserId, id) else CancelCall(r.fromUserId, id);
      }
    case Befriend(id) => call := AcceptCall(db.requests[id].toUserId, id);
    case Drop(pair) => call := RemoveCall(pair.userAId, pair.userBId);
  }

  lemma FreeSends(db: Db, users: set<UserId>, u: UserId, v: UserId)
    requires Free(db, u, v) && v in users
    ensures var outgoing := FindByDirection(db.requests, u, v);
            DecideSend(db, db, db, users, u, v) == if outgoing.None? then Create(u, v) else Mark(outgoing.value, PENDING)
  {
  }

  lemma SoundKeepsInv(db: Db, d: Decision)
    requires Inv(db) && Sound(db, d)
    ensures Inv(Written(db, d))
  {
    var users, call := CallFor(db, d);
    DecideThenWrite(db, users, call);
    PerformKeepsInv(db, users, call);
  }

  // ── Decisions about different pairs ────────────────────────────────────────

  /** The two users a decision is about. */
  function PairOf(db: Db, d: Decision): Pair {
    match d
    case Create(u, v) => if u != v then Canonical(u, v) else Pair(u, v)
    case Mark(id, _) => if id < |db.requests| then PairOfRow(db.requests[id]) else Pair(0, 0)
    case Befriend(id) => if id < |db.requests| then PairOfRow(db.requests[id]) else Pair(0, 0)
    case Drop(pair) => pair
    case Nothing(_) => Pair(0, 0)
  }

  function PairOfRow(r: Request): Pair {
    if r.fromUserId != r.toUserId then Canonical(r.fromUserId, r.toUserId) else Pair(r.fromUserId, r.toUserId)
  }

  /** Nothing about the pair differs. */
  ghost predicate SameFor(db: Db, next: Db, p: Pair) {
    && |db.requests| <= |next.requests|
    && (forall i :: 0 <= i < |db.requests| && PairOfRow(db.requests[i]) == p ==> next.requests[i] == db.requests[i])
    && (forall i :: 0 <= i < |next.requests| && PairOfRow(next.requests[i]) == p ==> i < |db.requests| && next.requests[i] == db.requests[i])
    && (p in next.friendships <==> p in db.friendships)
  }

  lemma WriteElsewhere(db: Db, d: Decision, p: Pair)
    requires Inv(db) && Sound(db, d) && PairOf(db, d) != p
    ensures SameFor(db, Written(db, d), p)
  {
  }

  lemma SoundElsewhere(db: Db, next: Db, d: Decision)
    requires Inv(db) && Sound(db, d) && SameFor(db, next, PairOf(db, d))
    ensures Sound(next, d)
  {
  }

  // ── Decisions about one pair ───────────────────────────────────────────────

  predicate Closes(d: Decision) { d.Befriend? || (d.Mark? && d.status != PENDING) }

  /** Decisions on one state about one pair are of one kind, and those that close a request close the same one. */
  lemma OneKind(db: Db, x: Decision, y: Decision)
    requires Inv(db) && Sound(db, x) && Sound(db, y) && PairOf(db, x) == PairOf(db, y)
    ensures (Opens(db, x).Some? && Opens(db, y).Some?) || (Closes(x) && Closes(y) && x.id == y.id) || (x.Drop? && y == x)
  {
  }

  /** The row that an opening decision leaves pending. */
  function OpenedRow(db: Db, d: Decision): nat
    requires Opens(db, d).Some?
  {
    if d.Create? then |db.requests| else d.id
  }

  lemma Opened(db: Db, x: Decision)
    requires Inv(db) && Sound(db, x) && Opens(db, x).Some?
    ensures var s, i, (u, v) := Written(db, x), OpenedRow(db, x), Opens(db, x).value;
            Inv(s) && i < |s.requests| && PendingFrom(s.requests[i], u, v) && FindByDirection(s.requests, u, v) == Some(i)
  {
    SoundKeepsInv(db, x);
    FoundIsTheRow(Written(db, x).requests, Opens(db, x).value.0, Opens(db, x).value.1, OpenedRow(db, x));
  }

  lemma SameDirection(db: Db, x: Decision, y: Decision)
    requires Inv(db) && Sound(db, x) && Sound(db, y)
    requires Opens(db, x).Some? && Opens(db, y) == Opens(db, x)
    ensures y == x
  {
    if x.Mark? {
      FoundIsTheRow(db.requests, Opens(db, x).value.0, Opens(db, x).value.1, x.id);
    }
  }

  lemma OppositeOpen(db: Db, x: Decision, y: Decision)
    requires Inv(db) && Sound(db, x) && Sound(db, y) && Opposite(Opens(db, x), Opens(db, y))
    ensures !Inv(Written(Written(db, x), y))
  {
    Opened(db, x);
    BothPending(db, Written(db, x), y, OpenedRow(db, x));
  }

  lemma OpenTwice(db: Db, x: Decision)
    requires Inv(db) && Sound(db, x) && Opens(db, x).Some?
    ensures Written(Written(db, x), x) == Written(db, x)
  {
    Opened(db, x);
    assert Written(Written(db, x), x).requests == Written(db, x).requests;
  }

  lemma BothOpen(db: Db, x: Decision, y: Decision)
    requires Inv(db) && Sound(db, x) && Sound(db, y) && PairOf(db, x) == PairOf(db, y)
    requires Opens(db, x).Some? && Opens(db, y).Some?
    ensures Inv(Written(Written(db, x), y)) <==> !Opposite(Opens(db, x), Opens(db, y))
  {
    if Opposite(Opens(db, x), Opens(db, y)) {
      OppositeOpen(db, x, y);
    } else {
      SameDirection(db, x, y);
      OpenTwice(db, x);
      SoundKeepsInv(db, x);
    }
  }

  /** Opening the other direction of a pending request leaves both pending. */
  lemma BothPending(db: Db, s: Db, y: Decision, i: nat)
    requires Sound(db, y) && Opens(db, y).Some? && i < |s.requests| && |db.requests| <= |s.requests|
    requires PendingFrom(s.requests[i], Opens(db, y).value.1, Opens(db, y).value.0)
    requires forall k :: 0 <= k < |db.requests| ==> Sent(s.requests[k], db.requests[k].fromUserId, db.requests[k].toUserId)
    requires y.Create? ==> forall k :: 0 <= k < |s.requests| ==> !Sent(s.requests[k], y.fromUserId, y.toUserId)
    ensures !OneWay(Written(s, y).requests)
  {
    var e := Written(s, y);
    var j := if y.Create? then |s.requests| else y.id;
    assert e.requests[i] == s.requests[i];
    assert PendingFrom(e.requests[j], e.requests[i].toUserId, e.requests[i].fromUserId);
  }

  lemma BothClose(db: Db, x: Decision, y: Decision)
    requires Inv(db) && Sound(db, x) && Sound(db, y) && Closes(x) && Closes(y) && x.id == y.id
    ensures Inv(Written(Written(db, x), y)) <==> !(x.Befriend? && y.Mark? && !AcceptedBeside(db, x.id))
  {
    var e := Written(Written(db, x), y);
    SoundKeepsInv(db, x);
    SoundKeepsInv(db, y);
    if y.Befriend? {
      assert e.requests == Written(db, y).requests;
      assert e == Written(db, y);
    } else if x.Mark? {
      assert e.requests == Written(db, y).requests;
    } else {
      MarkAfterBefriend(db, x.id, y.status);
    }
  }

  /** Turning down or taking back a request after it was accepted. */
  lemma MarkAfterBefriend(db: Db, id: nat, status: Status)
    requires Inv(db) && id < |db.requests| && db.requests[id].status == PENDING && status in {DECLINED, CANCELLED}
    requires Inv(Written(db, Befriend(id)))
    ensures Inv(WithStatus(Written(db, Befriend(id)), id, status)) <==> AcceptedBeside(db, id)
  {
    if AcceptedBeside(db, id) {
      StandsBeside(db, id, status);
    }
    if Inv(WithStatus(Written(db, Befriend(id)), id, status)) {
      MustStandBeside(db, id, status);
    }
  }

  lemma StandsBeside(db: Db, id: nat, status: Status)
    requires Inv(db) && id < |db.requests| && db.requests[id].status == PENDING && status in {DECLINED, CANCELLED}
    requires Inv(Written(db, Befriend(id))) && AcceptedBeside(db, id)
    ensures Inv(WithStatus(Written(db, Befriend(id)), id, status))
  {
    var s, r := Written(db, Befriend(id)), db.requests[id];
    var e, p := WithStatus(s, id, status), Canonical(r.fromUserId, r.toUserId);
    var i :| 0 <= i < |db.requests| && Sent(db.requests[i], r.toUserId, r.fromUserId) && db.requests[i].status == ACCEPTED;
    assert Between(e.requests[i], p) && e.requests[i].status == ACCEPTED;
    forall q | q in e.friendships
      ensures exists k :: 0 <= k < |e.requests| && Between(e.requests[k], q) && e.requests[k].status == ACCEPTED
    {
      if q != p {
        var k :| 0 <= k < |s.requests| && Between(s.requests[k], q) && s.requests[k].status == ACCEPTED;
        assert e.requests[k] == s.requests[k];
      }
    }
  }

  lemma MustStandBeside(db: Db, id: nat, status: Status)
    requires Inv(db) && id < |db.requests| && db.requests[id].status == PENDING && status in {DECLINED, CANCELLED}
    requires FriendshipsFounded(WithStatus(Written(db, Befriend(id)), id, status))
    ensures AcceptedBeside(db, id)
  {
    var e, p := WithStatus(Written(db, Befriend(id)), id, status), PairOfRow(db.requests[id]);
    assert p in e.friendships;
    var k :| 0 <= k < |e.requests| && Between(e.requests[k], p) && e.requests[k].status == ACCEPTED;
    assert e.requests[k] == db.requests[k];
  }

  lemma WithoutTwice(pairs: seq<Pair>, p: Pair)
    ensures Without(Without(pairs, p), p) == Without(pairs, p)
  {
    NothingToDrop(Without(pairs, p), p);
  }

  lemma {:induction false} NothingToDrop(pairs: seq<Pair>, p: Pair)
    requires p !in pairs
    ensures Without(pairs, p) == pairs
  {
    if pairs != [] {
      Snoc(pairs);
      NothingToDrop(pairs[..|pairs| - 1], p);
    }
  }

  lemma SoundOverlap(db: Db, x: Decision, y: Decision)
    requires Inv(db) && Sound(db, x) && Sound(db, y)
    ensures Inv(Written(Written(db, x), y)) <==> !DecisionsClash(db, x, y)
  {
    if PairOf(db, x) != PairOf(db, y) {
      SoundKeepsInv(db, x);
      WriteElsewhere(db, x, PairOf(db, y));
      SoundElsewhere(db, Written(db, x), y);
      SoundKeepsInv(Written(db, x), y);
    } else {
      OneKind(db, x, y);
      if x.Drop? {
        WithoutTwice(db.friendships, x.pair);
        SoundKeepsInv(db, x);
      } else if Closes(x) && Closes(y) {
        BothClose(db, x, y);
      } else {
        BothOpen(db, x, y);
      }
    }
  }

  lemma OneStateIff(db: Db, users: set<UserId>, x: Decision, second: Call)
    requires Inv(db) && Sound(db, x)
    ensures Inv(Written(Written(db, x), Decide(db, users, second))) <==> !DecisionsClash(db, x, Decide(db, users, second))
  {
    DecisionIsSound(db, users, second);
    SoundKeepsInv(db, x);
    if !Decide(db, users, second).Nothing? {
      SoundOverlap(db, x, Decide(db, users, second));
    }
  }

  // ── Two calls ──────────────────────────────────────────────────────────────

  /** The state after two calls of which the second made `k` reads before the first wrote. */
  function Across(db: Db, users: set<UserId>, first: Call, second: Call, k: nat): Db {
    var middle := Written(db, Decide(db, users, first));
    Written(middle, DecideAcross(db, middle, users, second, k))
  }

  /** A send that read both rows of the pair before the opposite send wrote. */
  predicate CrossingSends(db: Db, users: set<UserId>, first: Call, second: Call, k: nat) {
    && first.SendCall? && second.SendCall? && first.actor == second.target && first.target == second.actor
    && second.target in users && !Decide(db, users, first).Nothing? && k >= 2
  }

  /**
   A send that found no friendship before a request of its pair was accepted, and read
   the accepted row after: the incoming one by its second read, its own by its third.
   */
  predicate AcceptedMeanwhile(db: Db, users: set<UserId>, first: Call, second: Call, k: nat) {
    && Decide(db, users, first).Befriend? && first.AcceptCall? && first.id < |db.requests|
    && second.SendCall? && second.target in users
    && var r := db.requests[first.id];
       (Sent(r, second.target, second.actor) && k == 1) || (Sent(r, second.actor, second.target) && 1 <= k <= 2)
  }

  /** A rejection or cancellation that read the request as pending before it was accepted. */
  ghost predicate ClosedTooLate(db: Db, users: set<UserId>, first: Call, second: Call, k: nat) {
    && Decide(db, users, first).Befriend? && first.AcceptCall? && first.id < |db.requests|
    && (second.RejectCall? || second.CancelCall?) && second.id == first.id && !Decide(db, users, second).Nothing?
    && k == 1 && !AcceptedBeside(db, first.id)
  }

  ghost predicate Clash(db: Db, users: set<UserId>, first: Call, second: Call, k: nat) {
    || CrossingSends(db, users, first, second, k)
    || AcceptedMeanwhile(db, users, first, second, k)
    || ClosedTooLate(db, users, first, second, k)
  }

  /** After every read of the second call, the calls are atomic, one after the other. */
  lemma AfterIsAtomic(db: Db, users: set<UserId>, x: Decision, second: Call)
    requires Inv(db) && Sound(db, x)
    ensures Inv(Written(Written(db, x), Decide(Written(db, x), users, second)))
  {
    SoundKeepsInv(db, x);
    DecideThenWrite(Written(db, x), users, second);
    PerformKeepsInv(Written(db, x), users, second);
  }

  lemma WholeReads(db: Db, after: Db, users: set<UserId>, call: Call)
    ensures DecideAcross(db, after, users, call, 0) == Decide(after, users, call)
    ensures DecideAcross(db, after, users, call, ReadsOf(call)) == Decide(db, users, call)
  {
  }

  // ── A write between the reads of a send ────────────────────────────────────

  /** The direction of the row a decision writes. */
  function Direction(db: Db, d: Decision): Option<(UserId, UserId)> {
    match d
    case Create(u, v) => Some((u, v))
    case Mark(id, _) => if id < |db.requests| then Some((db.requests[id].fromUserId, db.requests[id].toUserId)) else None
    case Befriend(id) => if id < |db.requests| then Some((db.requests[id].fromUserId, db.requests[id].toUserId)) else None
    case _ => None
  }

  /** The lookup in the direction finds the same row, unchanged. */
  predicate SameRow(db: Db, next: Db, u: UserId, v: UserId) {
    var id := FindByDirection(db.requests, u, v);
    FindByDirection(next.requests, u, v) == id
    && (id.Some? ==> id.value < |next.requests| && next.requests[id.value] == db.requests[id.value])
  }

  /** The rows in the direction are the same ones, unchanged. */
  ghost predicate KeepsDirection(db: Db, next: Db, u: UserId, v: UserId) {
    && (forall i :: 0 <= i < |db.requests| && Sent(db.requests[i], u, v) ==> i < |next.requests| && next.requests[i] == db.requests[i])
    && forall i :: 0 <= i < |next.requests| && Sent(next.requests[i], u, v) ==> i < |db.requests| && next.requests[i] == db.requests[i]
  }

  lemma SameRowFound(db: Db, next: Db, u: UserId, v: UserId)
    requires DirectionsUnique(next.requests) && KeepsDirection(db, next, u, v)
    ensures SameRow(db, next, u, v)
  {
    var id := FindByDirection(db.requests, u, v);
    if id.Some? {
      FoundIsTheRow(next.requests, u, v, id.value);
    }
  }

  lemma OtherDirectionKept(db: Db, x: Decision, u: UserId, v: UserId)
    requires Sound(db, x) && Direction(db, x) != Some((u, v))
    ensures KeepsDirection(db, Written(db, x), u, v)
  {
  }

  lemma OtherDirectionStays(db: Db, x: Decision, u: UserId, v: UserId)
    requires Inv(db) && Sound(db, x) && Direction(db, x) != Some((u, v))
    ensures SameRow(db, Written(db, x), u, v)
  {
    SoundKeepsInv(db, x);
    OtherDirectionKept(db, x, u, v);
    SameRowFound(db, Written(db, x), u, v);
  }

  predicate ChangesFriendship(db: Db, x: Decision, u: UserId, v: UserId) {
    u != v && (x.Befriend? || x.Drop?) && PairOf(db, x) == Canonical(u, v)
  }

  lemma FriendshipStays(db: Db, x: Decision, u: UserId, v: UserId)
    requires Inv(db) && Sound(db, x) && !ChangesFriendship(db, x, u, v)
    ensures Friends(Written(db, x), u, v) <==> Friends(db, u, v)
  {
  }

  /** Unless the write changed the friendship, a send that read only that before it might have read nothing. */
  lemma OneReadBefore(db: Db, users: set<UserId>, x: Decision, u: UserId, v: UserId)
    requires Inv(db) && Sound(db, x) && !ChangesFriendship(db, x, u, v)
    ensures DecideAcross(db, Written(db, x), users, SendCall(u, v), 1) == Decide(Written(db, x), users, SendCall(u, v))
  {
    FriendshipStays(db, x, u, v);
  }

  /** A send that read both rows of the pair, the second one untouched, might have read all before the write. */
  lemma OwnRowUntouched(db: Db, users: set<UserId>, x: Decision, u: UserId, v: UserId)
    requires Inv(db) && Sound(db, x) && Direction(db, x) != Some((u, v))
    ensures DecideAcross(db, Written(db, x), users, SendCall(u, v), 2) == Decide(db, users, SendCall(u, v))
  {
    OtherDirectionStays(db, x, u, v);
  }

  /** With friendship and incoming row untouched, it might have read nothing. */
  lemma OnlyOwnRowTouched(db: Db, users: set<UserId>, x: Decision, u: UserId, v: UserId)
    requires Inv(db) && Sound(db, x) && Direction(db, x) != Some((v, u)) && !ChangesFriendship(db, x, u, v)
    ensures DecideAcross(db, Written(db, x), users, SendCall(u, v), 2) == Decide(Written(db, x), users, SendCall(u, v))
  {
    FriendshipStays(db, x, u, v);
    OtherDirectionStays(db, x, v, u);
  }

  /** Opening a request between friends. */
  lemma PendingBesideFriends(db: Db, y: Decision, u: UserId, v: UserId)
    requires Friends(db, u, v) && Opens(db, y) == Some((u, v))
    requires y.Create? ==> FindByDirection(db.requests, u, v).None?
    ensures !FriendshipsFounded(Written(db, y))
  {
    var e := Written(db, y);
    assert Canonical(u, v) in e.friendships;
    assert PendingFrom(e.requests[OpenedRow(db, y)], u, v);
    assert Between(e.requests[OpenedRow(db, y)], Canonical(u, v));
  }

  lemma AcceptedBetweenReads(db: Db, users: set<UserId>, id: nat, u: UserId, v: UserId, k: nat)
    requires Inv(db) && Sound(db, Befriend(id)) && v in users
    requires var r := db.requests[id]; (Sent(r, v, u) && k == 1) || (Sent(r, u, v) && 1 <= k <= 2)
    ensures var middle := Written(db, Befriend(id));
            !Inv(Written(middle, DecideAcross(db, middle, users, SendCall(u, v), k)))
  {
    var x, middle := Befriend(id), Written(db, Befriend(id));
    var y := DecideAcross(db, middle, users, SendCall(u, v), k);
    SoundKeepsInv(db, x);
    assert !Friends(db, u, v) by {
      assert Between(db.requests[id], PairOfRow(db.requests[id]));
    }
    assert Friends(middle, u, v);
    AcceptedReads(db, id, u, v);
    PendingBesideFriends(middle, y, u, v);
  }

  /** What a send reads of an accepted request and of the row beside it. */
  lemma AcceptedReads(db: Db, id: nat, u: UserId, v: UserId)
    requires Inv(db) && Sound(db, Befriend(id)) && (Sent(db.requests[id], u, v) || Sent(db.requests[id], v, u))
    ensures var middle := Written(db, Befriend(id));
            var own, towards := FindByDirection(middle.requests, u, v), FindByDirection(middle.requests, v, u);
            && (own.Some? ==> middle.requests[own.value].status != PENDING)
            && (towards.Some? ==> middle.requests[towards.value].status != PENDING)
            && (Sent(db.requests[id], u, v) ==> own == Some(id))
            && (Sent(db.requests[id], u, v) ==>
                  var before := FindByDirection(db.requests, v, u);
                  before.Some? ==> db.requests[before.value].status != PENDING)
  {
    var middle := Written(db, Befriend(id));
    SoundKeepsInv(db, Befriend(id));
    assert Canonical(u, v) in middle.friendships;
    assert forall i :: 0 <= i < |middle.requests| && (Sent(middle.requests[i], u, v) || Sent(middle.requests[i], v, u)) ==>
      Between(middle.requests[i], Canonical(u, v));
    if Sent(db.requests[id], u, v) {
      FoundIsTheRow(middle.requests, u, v, id);
    }
  }

  // ── Exactly when two calls break the invariant ─────────────────────────────

  lemma OnlySendsOpen(db: Db, users: set<UserId>, call: Call)
    ensures Opens(db, Decide(db, users, call)).Some? ==>
      call.SendCall? && Opens(db, Decide(db, users, call)) == Some((call.actor, call.target))
  {
  }

  lemma CrossingIff(db: Db, users: set<UserId>, first: Call, second: Call, k: nat)
    requires Inv(db) && !Decide(db, users, first).Nothing? && (second.SendCall? ==> k >= 2)
    ensures Opposite(Opens(db, Decide(db, users, first)), Opens(db, Decide(db, users, second))) <==> CrossingSends(db, users, first, second, k)
  {
    OnlySendsOpen(db, users, first);
    OnlySendsOpen(db, users, second);
    if CrossingSends(db, users, first, second, k) {
      DecisionIsSound(db, users, first);
      FreeSends(db, users, second.actor, second.target);
    }
  }

  lemma ClosedIff(db: Db, users: set<UserId>, first: Call, second: Call, k: nat)
    requires Inv(db) && !Decide(db, users, first).Nothing? && (!second.SendCall? ==> k == 1)
    ensures var x, y := Decide(db, users, first), Decide(db, users, second);
            ClosedTooLate(db, users, first, second, k) <==>
            x.Befriend? && y.Mark? && y.id == x.id && x.id < |db.requests| && !AcceptedBeside(db, x.id)
  {
  }

  lemma NotMeanwhile(db: Db, users: set<UserId>, first: Call, second: Call, k: nat)
    requires k == ReadsOf(second) || (k == 2 && second.SendCall? && Direction(db, Decide(db, users, first)) != Some((second.actor, second.target)))
    ensures !AcceptedMeanwhile(db, users, first, second, k)
  {
  }

  /** When all reads of the second call came first, its decision clashes exactly when the calls do. */
  lemma ClashOnOneState(db: Db, users: set<UserId>, first: Call, second: Call, k: nat)
    requires Inv(db) && !Decide(db, users, first).Nothing?
    requires k == ReadsOf(second) || (k == 2 && second.SendCall? && Direction(db, Decide(db, users, first)) != Some((second.actor, second.target)))
    ensures DecisionsClash(db, Decide(db, users, first), Decide(db, users, second)) <==> Clash(db, users, first, second, k)
  {
    CrossingIff(db, users, first, second, k);
    ClosedIff(db, users, first, second, k);
    NotMeanwhile(db, users, first, second, k);
  }

  lemma OneReadClash(db: Db, users: set<UserId>, first: Call, u: UserId, v: UserId)
    requires Inv(db) && Sound(db, Decide(db, users, first))
    ensures var x := Decide(db, users, first);
            Clash(db, users, first, SendCall(u, v), 1) <==> x.Befriend? && ChangesFriendship(db, x, u, v) && v in users
  {
  }

  lemma SendOneReadIff(db: Db, users: set<UserId>, first: Call, u: UserId, v: UserId)
    requires Inv(db) && !Decide(db, users, first).Nothing?
    ensures Inv(Across(db, users, first, SendCall(u, v), 1)) <==> !Clash(db, users, first, SendCall(u, v), 1)
  {
    var x, second := Decide(db, users, first), SendCall(u, v);
    DecisionIsSound(db, users, first);
    OneReadClash(db, users, first, u, v);
    SoundKeepsInv(db, x);
    if !ChangesFriendship(db, x, u, v) {
      OneReadBefore(db, users, x, u, v);
      AfterIsAtomic(db, users, x, second);
    } else if x.Befriend? && v in users {
      AcceptedBetweenReads(db, users, x.id, u, v, 1);
    }
  }

  lemma TwoReadsOneState(db: Db, users: set<UserId>, first: Call, u: UserId, v: UserId)
    requires Inv(db) && Sound(db, Decide(db, users, first)) && Direction(db, Decide(db, users, first)) != Some((u, v))
    ensures Inv(Across(db, users, first, SendCall(u, v), 2)) <==> !Clash(db, users, first, SendCall(u, v), 2)
  {
    var x, second := Decide(db, users, first), SendCall(u, v);
    OwnRowUntouched(db, users, x, u, v);
    OneStateIff(db, users, x, second);
    ClashOnOneState(db, users, first, second, 2);
  }

  lemma TwoReadsClash(db: Db, users: set<UserId>, first: Call, u: UserId, v: UserId)
    requires Inv(db) && Sound(db, Decide(db, users, first)) && Direction(db, Decide(db, users, first)) == Some((u, v))
    ensures Clash(db, users, first, SendCall(u, v), 2) <==>
            Decide(db, users, first).Befriend? && ChangesFriendship(db, Decide(db, users, first), u, v) && v in users
  {
    OnlySendsOpen(db, users, first);
  }

  lemma SendTwoReadsIff(db: Db, users: set<UserId>, first: Call, u: UserId, v: UserId)
    requires Inv(db) && !Decide(db, users, first).Nothing?
    ensures Inv(Across(db, users, first, SendCall(u, v), 2)) <==> !Clash(db, users, first, SendCall(u, v), 2)
  {
    var x, second := Decide(db, users, first), SendCall(u, v);
    DecisionIsSound(db, users, first);
    SoundKeepsInv(db, x);
    if Direction(db, x) != Some((u, v)) {
      TwoReadsOneState(db, users, first, u, v);
    } else if !ChangesFriendship(db, x, u, v) {
      TwoReadsClash(db, users, first, u, v);
      OnlyOwnRowTouched(db, users, x, u, v);
      AfterIsAtomic(db, users, x, second);
    } else if v in users {
      TwoReadsClash(db, users, first, u, v);
      AcceptedBetweenReads(db, users, x.id, u, v, 2);
    }
  }

  lemma RefusedFirst(db: Db, users: set<UserId>, first: Call, second: Call, k: nat)
    requires Inv(db) && Decide(db, users, first).Nothing?
    ensures Inv(Across(db, users, first, second, k)) && !Clash(db, users, first, second, k)
  {
    DecideThenWrite(db, users, second);
    PerformKeepsInv(db, users, second);
  }

  lemma EndsIff(db: Db, users: set<UserId>, first: Call, second: Call, k: nat)
    requires Inv(db) && !Decide(db, users, first).Nothing? && (k == 0 || k == ReadsOf(second))
    ensures Inv(Across(db, users, first, second, k)) <==> !Clash(db, users, first, second, k)
  {
    var x := Decide(db, users, first);
    DecisionIsSound(db, users, first);
    WholeReads(db, Written(db, x), users, second);
    if k == 0 {
      AfterIsAtomic(db, users, x, second);
    } else {
      OneStateIff(db, users, x, second);
      ClashOnOneState(db, users, first, second, k);
    }
  }

  /**
   Two calls, the second of which made `k` of its reads before the first wrote, keep the
   invariant exactly when they do not clash: when they are not sends that cross, no
   request of the pair was accepted between the reads of a send, and none was turned
   down or taken back by a call that had not seen it accepted.
   */
  lemma OverlapIff(db: Db, users: set<UserId>, first: Call, second: Call, k: nat)
    requires Inv(db) && k <= ReadsOf(second)
    ensures Inv(Across(db, users, first, second, k)) <==> !Clash(db, users, first, second, k)
  {
    if Decide(db, users, first).Nothing? {
      RefusedFirst(db, users, first, second, k);
    } else if k == 0 || k == ReadsOf(second) {
      EndsIff(db, users, first, second, k);
    } else if k == 1 {
      SendOneReadIff(db, users, first, second.actor, second.target);
    } else {
      SendTwoReadsIff(db, users, first, second.actor, second.target);
    }
  }

  // ── Every interleaving of two calls ────────────────────────────────────────

  /** A call under way: the states its reads saw, and whether it has written. */
  datatype Process = Process(call: Call, saw: seq<Db>, finished: bool)

  predicate Fits(p: Process) { |p.saw| <= ReadsOf(p.call) && (p.finished ==> |p.saw| == ReadsOf(p.call)) }

  /** Two calls over the tables. */
  datatype Two = Two(db: Db, left: Process, right: Process)

  function Advance(db: Db, users: set<UserId>, p: Process): (Db, Process)
    requires Fits(p)
    ensures Fits(Advance(db, users, p).1)
  {
    if p.finished then (db, p)
    else if |p.saw| < ReadsOf(p.call) then (db, p.(saw := p.saw + [db]))
    else (Written(db, DecideFrom(p.saw, users, p.call)), p.(finished := true))
  }

  /** The next statement of the left or of the right call. */
  function Step(s: Two, users: set<UserId>, leftMoves: bool): Two
    requires Fits(s.left) && Fits(s.right)
    ensures Fits(Step(s, users, leftMoves).left) && Fits(Step(s, users, leftMoves).right)
  {
    if leftMoves then
      var (db, p) := Advance(s.db, users, s.left);
      Two(db, p, s.right)
    else
      var (db, p) := Advance(s.db, users, s.right);
      Two(db, s.left, p)
  }

  function Play(db: Db, users: set<UserId>, left: Call, right: Call, moves: seq<bool>): (s: Two)
    ensures Fits(s.left) && Fits(s.right)
  {
    if moves == [] then Two(db, Process(left, [], false), Process(right, [], false))
    else Step(Play(db, users, left, right, moves[..|moves| - 1]), users, moves[|moves| - 1])
  }

  /** The call has read the state it started from, and not yet written. */
  ghost predicate Reading(p: Process, call: Call, db: Db) {
    p.call == call && Fits(p) && !p.finished && forall i :: 0 <= i < |p.saw| ==> p.saw[i] == db
  }

  /** The first call has written; the second had made `k` reads before. */
  ghost predicate FirstDone(s: Two, first: Process, second: Process, db: Db, users: set<UserId>, a: Call, b: Call, k: nat) {
    var middle := Written(db, Decide(db, users, a));
    && first.finished && second.call == b && Fits(second) && !second.finished
    && s.db == middle && k <= |second.saw|
    && forall i :: 0 <= i < |second.saw| ==> second.saw[i] == if i < k then db else middle
  }

  ghost predicate BothDone(s: Two, db: Db, users: set<UserId>, a: Call, b: Call, k: nat) {
    s.left.finished && s.right.finished && k <= ReadsOf(b) && s.db == Across(db, users, a, b, k)
  }

  /** Neither has written, one has, or both have. */
  ghost predicate Stage(s: Two, db: Db, users: set<UserId>, left: Call, right: Call, leftFirst: bool, k: nat) {
    || (s.db == db && Reading(s.left, left, db) && Reading(s.right, right, db))
    || (if leftFirst then FirstDone(s, s.left, s.right, db, users, left, right, k)
        else FirstDone(s, s.right, s.left, db, users, right, left, k))
    || (if leftFirst then BothDone(s, db, users, left, right, k) else BothDone(s, db, users, right, left, k))
  }

  /** The one call reads or writes while neither had written. */
  lemma FirstMoves(db: Db, users: set<UserId>, p: Process, call: Call)
    requires Reading(p, call, db)
    ensures var (next, q) := Advance(db, users, p);
            if q.finished then next == Written(db, Decide(db, users, call)) else next == db && Reading(q, call, db)
  {
    if |p.saw| == ReadsOf(call) {
      assert p.saw == if call.SendCall? then [db, db, db] else [db];
    }
  }

  lemma SecondMoves(s: Two, first: Process, second: Process, db: Db, users: set<UserId>, a: Call, b: Call, k: nat)
    requires FirstDone(s, first, second, db, users, a, b, k)
    ensures var (next, q) := Advance(s.db, users, second);
            if q.finished then k <= ReadsOf(b) && next == Across(db, users, a, b, k)
            else FirstDone(Two(next, first, q), first, q, db, users, a, b, k)
  {
    var middle := s.db;
    if |second.saw| == ReadsOf(b) {
      var x0, x1, x2 := if k > 0 then db else middle, if k > 1 then db else middle, if k > 2 then db else middle;
      assert second.saw == if b.SendCall? then [x0, x1, x2] else [x0];
    }
  }

  lemma MoveKeepsStage(s: Two, db: Db, users: set<UserId>, left: Call, right: Call, leftFirst: bool, k: nat, leftMoves: bool)
    returns (first: bool, j: nat)
    requires Fits(s.left) && Fits(s.right) && Stage(s, db, users, left, right, leftFirst, k)
    ensures Stage(Step(s, users, leftMoves), db, users, left, right, first, j)
  {
    first, j := leftFirst, k;
    if s.db == db && Reading(s.left, left, db) && Reading(s.right, right, db) {
      first, j := leftMoves, if leftMoves then |s.right.saw| else |s.left.saw|;
      FirstMoves(db, users, if leftMoves then s.left else s.right, if leftMoves then left else right);
    } else if leftFirst && FirstDone(s, s.left, s.right, db, users, left, right, k) {
      SecondMoves(s, s.left, s.right, db, users, left, right, k);
    } else if !leftFirst && FirstDone(s, s.right, s.left, db, users, right, left, k) {
      SecondMoves(s, s.right, s.left, db, users, right, left, k);
    }
  }

  lemma {:induction false} PlayStage(db: Db, users: set<UserId>, left: Call, right: Call, moves: seq<bool>)
    returns (leftFirst: bool, k: nat)
    ensures Stage(Play(db, users, left, right, moves), db, users, left, right, leftFirst, k)
  {
    if moves == [] {
      leftFirst, k := true, 0;
    } else {
      var n := |moves| - 1;
      leftFirst, k := PlayStage(db, users, left, right, moves[..n]);
      leftFirst, k := MoveKeepsStage(Play(db, users, left, right, moves[..n]), db, users, left, right, leftFirst, k, moves[n]);
    }
  }

  /**
   However the statements of two calls interleave, one of them wrote first and the other
   had then made some of its reads; that decides the state they leave, which keeps the
   invariant exactly when they do not clash.
   */
  lemma InterleavedIff(db: Db, users: set<UserId>, left: Call, right: Call, moves: seq<bool>)
    returns (first: Call, second: Call, k: nat)
    requires Inv(db)
    requires var s := Play(db, users, left, right, moves); s.left.finished && s.right.finished
    ensures (first, second) == (left, right) || (first, second) == (right, left)
    ensures k <= ReadsOf(second) && Play(db, users, left, right, moves).db == Across(db, users, first, second, k)
    ensures Inv(Play(db, users, left, right, moves).db) <==> !Clash(db, users, first, second, k)
  {
    var leftFirst;
    leftFirst, k := PlayStage(db, users, left, right, moves);
    first, second := if leftFirst then left else right, if leftFirst then right else left;
    OverlapIff(db, users, first, second, k);
  }

  lemma PlaySnoc(db: Db, users: set<UserId>, left: Call, right: Call, moves: seq<bool>, leftMoves: bool)
    ensures Play(db, users, left, right, moves + [leftMoves]) == Step(Play(db, users, left, right, moves), users, leftMoves)
  {
    assert (moves + [leftMoves])[..|moves|] == moves;
  }

  /** A send reads the friendship; an accept reads and writes; the send reads on and writes. */
  lemma AcceptFallsBetween(db: Db, users: set<UserId>, send: Call, accept: Call)
    requires send.SendCall? && accept.AcceptCall?
    ensures var s := Play(db, users, send, accept, [true] + [false] + [false] + [true] + [true] + [true]);
            s.left.finished && s.right.finished && s.db == Across(db, users, accept, send, 1)
  {
    var middle := Written(db, Decide(db, users, accept));
    PlaySnoc(db, users, send, accept, [], true);
    PlaySnoc(db, users, send, accept, [true], false);
    PlaySnoc(db, users, send, accept, [true] + [false], false);
    PlaySnoc(db, users, send, accept, [true] + [false] + [false], true);
    PlaySnoc(db, users, send, accept, [true] + [false] + [false] + [true], true);
    PlaySnoc(db, users, send, accept, [true] + [false] + [false] + [true] + [true], true);
    assert [] + [true] == [true];
    assert Play(db, users, send, accept, [true]) == Two(db, Process(send, [db], false), Process(accept, [], false));
    assert Play(db, users, send, accept, [true] + [false]) == Two(db, Process(send, [db], false), Process(accept, [db], false));
    assert Play(db, users, send, accept, [true] + [false] + [false]) == Two(middle, Process(send, [db], false), Process(accept, [db], true));
    assert Play(db, users, send, accept, [true] + [false] + [false] + [true])
           == Two(middle, Process(send, [db, middle], false), Process(accept, [db], true));
    assert Play(db, users, send, accept, [true] + [false] + [false] + [true] + [true])
           == Two(middle, Process(send, [db, middle, middle], false), Process(accept, [db], true));
  }

  /**
   From any state with a pending request, a send of its recipient back to its sender
   refuses before the accept and after it, and breaks the invariant when the accept
   falls between its first two reads: a pending request beside a friendship.
   */
  lemma AcceptBetweenReads(db: Db, users: set<UserId>, id: nat)
    requires Inv(db) && id < |db.requests| && db.requests[id].status == PENDING && db.requests[id].fromUserId in users
    ensures var (sender, recipient) := (db.requests[id].fromUserId, db.requests[id].toUserId);
            var send, accept := SendCall(recipient, sender), AcceptCall(recipient, id);
            && Decide(db, users, send).Nothing? && Decide(Perform(db, users, accept).0, users, send).Nothing?
            && !Inv(Play(db, users, send, accept, [true] + [false] + [false] + [true] + [true] + [true]).db)
  {
    var sender, recipient := db.requests[id].fromUserId, db.requests[id].toUserId;
    var send, accept := SendCall(recipient, sender), AcceptCall(recipient, id);
    FoundIsTheRow(db.requests, sender, recipient, id);
    AcceptFallsBetween(db, users, send, accept);
    AcceptedBetweenReads(db, users, id, recipient, sender, 1);
    DecideThenWrite(db, users, accept);
  }
}
