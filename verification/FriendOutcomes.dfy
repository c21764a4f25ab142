/**
 What each friend call comes to and what each view says, in the terms of the rows: the
 guards and their errors, the one row a call writes, and nothing beside it.
 */
module FriendOutcomes {
  import opened Wrappers
  import opened FriendRequests

  /** Only the status of row `id` differs. */
  ghost predicate OnlyStatus(db: Db, next: Db, id: nat, status: Status)
    requires id < |db.requests|
  {
    && next.friendships == db.friendships && |next.requests| == |db.requests|
    && forall i :: 0 <= i < |db.requests| ==>
         next.requests[i] == if i == id then Request(db.requests[i].fromUserId, db.requests[i].toUserId, status) else db.requests[i]
  }

  /** A user may turn down what came in and take back what went out while it is pending; the row remembers which. */
  lemma ClosingOutcome(db: Db, actor: UserId, id: nat)
    ensures var (r, outcome) := Reject(db, actor, id);
            if id >= |db.requests| then (r, outcome) == (db, NotFound)
            else if db.requests[id].toUserId != actor then (r, outcome) == (db, Forbidden)
            else if db.requests[id].status != PENDING then (r, outcome) == (db, Conflict)
            else outcome == Done(id) && OnlyStatus(db, r, id, DECLINED)
    ensures var (r, outcome) := Cancel(db, actor, id);
            if id >= |db.requests| then (r, outcome) == (db, NotFound)
            else if db.requests[id].fromUserId != actor then (r, outcome) == (db, Forbidden)
            else if db.requests[id].status != PENDING then (r, outcome) == (db, Conflict)
            else outcome == Done(id) && OnlyStatus(db, r, id, CANCELLED)
  {
  }

  /** Accepting marks the request and adds the one row of the pair, smaller id first. */
  lemma AcceptOutcome(db: Db, actor: UserId, id: nat)
    requires Inv(db)
    ensures var (r, outcome) := Accept(db, actor, id);
            if id >= |db.requests| then (r, outcome) == (db, NotFound)
            else if db.requests[id].toUserId != actor then (r, outcome) == (db, Forbidden)
            else if db.requests[id].status != PENDING then (r, outcome) == (db, Conflict)
            else
              var u, v := db.requests[id].fromUserId, db.requests[id].toUserId;
              && outcome == Done(id) && OnlyStatus(db, Db(r.requests, db.friendships), id, ACCEPTED)
              && r.friendships == db.friendships + [if u < v then Pair(u, v) else Pair(v, u)]
  {
    AcceptKeepsInv(db, actor, id);
    if Refusal(db, id, actor, false).None? {
      assert Between(db.requests[id], Canonical(db.requests[id].fromUserId, db.requests[id].toUserId));
    }
  }

  /** A pending request of `u` to `v`. */
  ghost predicate Asks(db: Db, u: UserId, v: UserId) { exists i :: 0 <= i < |db.requests| && PendingFrom(db.requests[i], u, v) }

  lemma AsksIff(db: Db, u: UserId, v: UserId)
    requires Inv(db)
    ensures var id := FindByDirection(db.requests, u, v); Asks(db, u, v) <==> id.Some? && db.requests[id.value].status == PENDING
  {
    forall i | 0 <= i < |db.requests| && PendingFrom(db.requests[i], u, v) ensures FindByDirection(db.requests, u, v) == Some(i) {
      FoundIsTheRow(db.requests, u, v, i);
    }
  }

  /** Two users are friends when the one row of the pair is there, smaller id first. */
  ghost predicate Paired(db: Db, u: UserId, v: UserId) { u != v && (if u < v then Pair(u, v) else Pair(v, u)) in db.friendships }

  /**
   A send is refused to oneself, to a stranger, to a friend, and to someone who asks
   already.  Otherwise the one row of its direction ends pending: a new one, the pending
   one as it is, or a closed one opened again.
   */
  lemma SendOutcome(db: Db, users: set<UserId>, actor: UserId, target: UserId)
    requires Inv(db)
    ensures var (r, outcome) := Send(db, users, actor, target);
            if target == actor then (r, outcome) == (db, BadRequest)
            else if target !in users then (r, outcome) == (db, NotFound)
            else if Paired(db, actor, target) || Asks(db, target, actor) then (r, outcome) == (db, Conflict)
            else
              && outcome.Done? && outcome.id < |r.requests| && r.requests[outcome.id] == Request(actor, target, PENDING)
              && r.friendships == db.friendships
              && (if exists i :: 0 <= i < |db.requests| && Sent(db.requests[i], actor, target)
                  then |r.requests| == |db.requests| else |r.requests| == |db.requests| + 1)
              && forall i :: 0 <= i < |db.requests| && i != outcome.id ==> r.requests[i] == db.requests[i]
  {
    AsksIff(db, target, actor);
  }

  /** Removing drops the one row of the pair; requests stay as they are. */
  lemma RemoveOutcome(db: Db, actor: UserId, friend: UserId)
    ensures var (r, outcome) := Remove(db, actor, friend);
            if actor == friend then (r, outcome) == (db, BadRequest)
            else if !Paired(db, actor, friend) then (r, outcome) == (db, NotFound)
            else
              && outcome == Removed && r.requests == db.requests && !Paired(r, actor, friend)
              && forall p :: p in db.friendships && p != (if actor < friend then Pair(actor, friend) else Pair(friend, actor)) ==> p in r.friendships
  {
  }

  /** A user sees a friend, else the request they sent, else the one sent to them, else nothing. */
  lemma ViewMeans(db: Db, viewer: UserId, other: UserId)
    requires Inv(db)
    ensures var seen := RelationshipOf(db, viewer, other);
            && (seen.Friend? <==> Paired(db, viewer, other))
            && (seen.OutgoingRequest? <==> !Paired(db, viewer, other) && Asks(db, viewer, other))
            && (seen.IncomingRequest? <==> !Paired(db, viewer, other) && !Asks(db, viewer, other) && Asks(db, other, viewer))
            && (seen.OutgoingRequest? ==> seen.id < |db.requests| && db.requests[seen.id] == Request(viewer, other, PENDING))
            && (seen.IncomingRequest? ==> seen.id < |db.requests| && db.requests[seen.id] == Request(other, viewer, PENDING))
  {
    AsksIff(db, viewer, other);
    AsksIff(db, other, viewer);
  }
}
