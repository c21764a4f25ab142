/**
 The friend graph: requests that are sent, accepted, rejected, cancelled and
 reopened, and friendships stored once per pair.  The invariant of its runs is
 what makes the two-query batched view of a list of users equal to asking about
 each user alone.
 */
module FriendRequests {
  import opened Wrappers
  import opened Sums

  type UserId = nat

  datatype Status = PENDING | ACCEPTED | DECLINED | CANCELLED

  datatype Request = Request(fromUserId: UserId, toUserId: UserId, status: Status)

  /** A friendship row. */
  datatype Pair = Pair(userAId: UserId, userBId: UserId)

  /** Requests are never deleted: the id of a request is its position. */
  datatype Db = Db(requests: seq<Request>, friendships: seq<Pair>)

  datatype Outcome = Done(id: nat) | Removed | BadRequest | NotFound | Forbidden | Conflict | Failed

  function Canonical(u: UserId, v: UserId): (p: Pair)
    requires u != v
    ensures p.userAId < p.userBId && {p.userAId, p.userBId} == {u, v}
  {
    if u < v then Pair(u, v) else Pair(v, u)
  }

  predicate Friends(db: Db, u: UserId, v: UserId) { u != v && Canonical(u, v) in db.friendships }

  predicate Sent(r: Request, u: UserId, v: UserId) { r.fromUserId == u && r.toUserId == v }

  /** The row of the unique index over directions. */
  function FindByDirection(rows: seq<Request>, u: UserId, v: UserId): (id: Option<nat>)
    ensures id.Some? ==> id.value < |rows| && Sent(rows[id.value], u, v)
    ensures id.None? ==> forall i :: 0 <= i < |rows| ==> !Sent(rows[i], u, v)
  {
    if rows == [] then None
    else if FindByDirection(rows[..|rows| - 1], u, v).Some? then FindByDirection(rows[..|rows| - 1], u, v)
    else if Sent(rows[|rows| - 1], u, v) then Some(|rows| - 1)
    else None
  }

  // ── Operations ─────────────────────────────────────────────────────────────

  function WithStatus(db: Db, id: nat, status: Status): Db
    requires id < |db.requests|
  {
    db.(requests := db.requests[id := db.requests[id].(status := status)])
  }

  function Send(db: Db, users: set<UserId>, actor: UserId, target: UserId): (Db, Outcome) {
    if target == actor then (db, BadRequest)
    else if target !in users then (db, NotFound)
    else if Friends(db, actor, target) then (db, Conflict)
    else
      var incoming := FindByDirection(db.requests, target, actor);
      if incoming.Some? && db.requests[incoming.value].status == PENDING then (db, Conflict)
      else
        var outgoing := FindByDirection(db.requests, actor, target);
        if outgoing.None? then (db.(requests := db.requests + [Request(actor, target, PENDING)]), Done(|db.requests|))
        else if db.requests[outgoing.value].status == PENDING then (db, Done(outgoing.value))
        else (WithStatus(db, outgoing.value, PENDING), Done(outgoing.value))
  }

  /** The guards shared by accept, reject and cancel. */
  function Refusal(db: Db, id: nat, actor: UserId, asSender: bool): Option<Outcome> {
    if id >= |db.requests| then Some(NotFound)
    else if (if asSender then db.requests[id].fromUserId else db.requests[id].toUserId) != actor then Some(Forbidden)
    else if db.requests[id].status != PENDING then Some(Conflict)
    else None
  }

  /** One transaction; creating the pair fails, and rolls back, when both ends are one user. */
  function Accept(db: Db, actor: UserId, id: nat): (Db, Outcome) {
    if Refusal(db, id, actor, false).Some? then (db, Refusal(db, id, actor, false).value)
    else
      var r := db.requests[id];
      if r.fromUserId == r.toUserId then (db, Failed)
      else
        var accepted := WithStatus(db, id, ACCEPTED);
        if Friends(db, r.fromUserId, r.toUserId) then (accepted, Done(id))
        else (accepted.(friendships := accepted.friendships + [Canonical(r.fromUserId, r.toUserId)]), Done(id))
  }

  function Reject(db: Db, actor: UserId, id: nat): (Db, Outcome) {
    if Refusal(db, id, actor, false).Some? then (db, Refusal(db, id, actor, false).value)
    else (WithStatus(db, id, DECLINED), Done(id))
  }

  function Cancel(db: Db, actor: UserId, id: nat): (Db, Outcome) {
    if Refusal(db, id, actor, true).Some? then (db, Refusal(db, id, actor, true).value)
    else (WithStatus(db, id, CANCELLED), Done(id))
  }

  function Without(pairs: seq<Pair>, p: Pair): (r: seq<Pair>)
    ensures forall q :: q in r <==> q in pairs && q != p
  {
    if pairs == [] then []
    else
      Snoc(pairs);
      Without(pairs[..|pairs| - 1], p) + if pairs[|pairs| - 1] == p then [] else [pairs[|pairs| - 1]]
  }

  function Remove(db: Db, actor: UserId, friend: UserId): (Db, Outcome) {
    if actor == friend then (db, BadRequest)
    else if !Friends(db, actor, friend) then (db, NotFound)
    else (db.(friendships := Without(db.friendships, Canonical(actor, friend))), Removed)
  }

  datatype Call =
    | SendCall(actor: UserId, target: UserId)
    | AcceptCall(actor: UserId, id: nat)
    | RejectCall(actor: UserId, id: nat)
    | CancelCall(actor: UserId, id: nat)
    | RemoveCall(actor: UserId, friend: UserId)

  function Perform(db: Db, users: set<UserId>, call: Call): (Db, Outcome) {
    match call
    case SendCall(actor, target) => Send(db, users, actor, target)
    case AcceptCall(actor, id) => Accept(db, actor, id)
    case RejectCall(actor, id) => Reject(db, actor, id)
    case CancelCall(actor, id) => Cancel(db, actor, id)
    case RemoveCall(actor, friend) => Remove(db, actor, friend)
  }

  function Run(db: Db, users: set<UserId>, calls: seq<Call>): Db {
    if calls == [] then db else Perform(Run(db, users, calls[..|calls| - 1]), users, calls[|calls| - 1]).0
  }

  // ── The service ────────────────────────────────────────────────────────────

  class FriendService {
    var requests: seq<Request>
    var friendships: seq<Pair>

    ghost function State(): Db
      reads this
    {
      Db(requests, friendships)
    }

    constructor ()
      ensures State() == Db([], [])
    {
      requests, friendships := [], [];
    }

    method FindFriendship(u: UserId, v: UserId) returns (found: bool)
      ensures found <==> Friends(State(), u, v)
    {
      if u == v { return false; }
      found := Canonical(u, v) in friendships;
    }

    method SendRequest(users: set<UserId>, actor: UserId, target: UserId) returns (outcome: Outcome)
      modifies this`requests
      ensures (State(), outcome) == Send(old(State()), users, actor, target)
    {
      if target == actor { return BadRequest; }
      if target !in users { return NotFound; }
      var already := FindFriendship(actor, target);
      if already { return Conflict; }
      var incoming := FindByDirection(requests, target, actor);
      if incoming.Some? && requests[incoming.value].status == PENDING { return Conflict; }
      var outgoing := FindByDirection(requests, actor, target);
      if outgoing.None? {
        requests := requests + [Request(actor, target, PENDING)];
        return Done(|requests| - 1);
      }
      var id := outgoing.value;
      if requests[id].status != PENDING {
        requests := requests[id := requests[id].(status := PENDING)];
      }
      return Done(id);
    }

    method AcceptRequest(actor: UserId, id: nat) returns (outcome: Outcome)
      modifies this
      ensures (State(), outcome) == Accept(old(State()), actor, id)
    {
      if id >= |requests| { return NotFound; }
      if requests[id].toUserId != actor { return Forbidden; }
      if requests[id].status != PENDING { return Conflict; }
      var r := requests[id];
      if r.fromUserId == r.toUserId { return Failed; }
      requests := requests[id := r.(status := ACCEPTED)];
      var existing := FindFriendship(r.fromUserId, r.toUserId);
      if !existing {
        friendships := friendships + [Canonical(r.fromUserId, r.toUserId)];
      }
      return Done(id);
    }

    method RejectRequest(actor: UserId, id: nat) returns (outcome: Outcome)
      modifies this`requests
      ensures (State(), outcome) == Reject(old(State()), actor, id)
    {
      if id >= |requests| { return NotFound; }
      if requests[id].toUserId != actor { return Forbidden; }
      if requests[id].status != PENDING { return Conflict; }
      requests := requests[id := requests[id].(status := DECLINED)];
      return Done(id);
    }

    method CancelRequest(actor: UserId, id: nat) returns (outcome: Outcome)
      modifies this`requests
      ensures (State(), outcome) == Cancel(old(State()), actor, id)
    {
      if id >= |requests| { return NotFound; }
      if requests[id].fromUserId != actor { return Forbidden; }
      if requests[id].status != PENDING { return Conflict; }
      requests := requests[id := requests[id].(status := CANCELLED)];
      return Done(id);
    }

    method RemoveFriend(actor: UserId, friend: UserId) returns (outcome: Outcome)
      modifies this`friendships
      ensures (State(), outcome) == Remove(old(State()), actor, friend)
    {
      if actor == friend { return BadRequest; }
      var found := FindFriendship(actor, friend);
      if !found { return NotFound; }
      friendships := Without(friendships, Canonical(actor, friend));
      return Removed;
    }
  }

  // ── What every run keeps ───────────────────────────────────────────────────

  predicate PendingFrom(r: Request, u: UserId, v: UserId) { Sent(r, u, v) && r.status == PENDING }

  /** One row per direction, none to oneself. */
  ghost predicate DirectionsUnique(rows: seq<Request>) {
    && (forall i :: 0 <= i < |rows| ==> rows[i].fromUserId != rows[i].toUserId)
    && forall i, j :: 0 <= i < |rows| && 0 <= j < |rows| && Sent(rows[j], rows[i].fromUserId, rows[i].toUserId) ==> i == j
  }

  /** Never a pending request in both directions. */
  ghost predicate OneWay(rows: seq<Request>) {
    forall i, j :: 0 <= i < |rows| && 0 <= j < |rows| && rows[i].status == PENDING ==>
      !PendingFrom(rows[j], rows[i].toUserId, rows[i].fromUserId)
  }

  ghost predicate PairsCanonical(pairs: seq<Pair>) {
    && (forall i :: 0 <= i < |pairs| ==> pairs[i].userAId < pairs[i].userBId)
    && forall i, j :: 0 <= i < j < |pairs| ==> pairs[i] != pairs[j]
  }

  predicate Between(r: Request, p: Pair) {
    Sent(r, p.userAId, p.userBId) || Sent(r, p.userBId, p.userAId)
  }

  /** Friends have an accepted request behind them and none pending. */
  ghost predicate FriendshipsFounded(db: Db) {
    forall p :: p in db.friendships ==>
      && (exists i :: 0 <= i < |db.requests| && Between(db.requests[i], p) && db.requests[i].status == ACCEPTED)
      && forall i :: 0 <= i < |db.requests| && Between(db.requests[i], p) ==> db.requests[i].status != PENDING
  }

  ghost predicate Inv(db: Db) {
    DirectionsUnique(db.requests) && OneWay(db.requests) && PairsCanonical(db.friendships) && FriendshipsFounded(db)
  }

  /** Giving row `id` a status other than PENDING, when no friendship rests on it. */
  lemma ClosingKeepsInv(db: Db, id: nat, status: Status)
    requires Inv(db) && id < |db.requests| && db.requests[id].status == PENDING && status != PENDING
    ensures Inv(WithStatus(db, id, status))
  {
    var r := WithStatus(db, id, status);
    forall p | p in r.friendships
      ensures exists i :: 0 <= i < |r.requests| && Between(r.requests[i], p) && r.requests[i].status == ACCEPTED
    {
      var i :| 0 <= i < |db.requests| && Between(db.requests[i], p) && db.requests[i].status == ACCEPTED;
      assert r.requests[i] == db.requests[i];
    }
  }

  lemma AcceptKeepsInv(db: Db, actor: UserId, id: nat)
    requires Inv(db)
    ensures Inv(Accept(db, actor, id).0) && !Accept(db, actor, id).1.Failed?
  {
    if Refusal(db, id, actor, false).None? {
      ClosingKeepsInv(db, id, ACCEPTED);
      var r, s := db.requests[id], Accept(db, actor, id).0;
      var p := Canonical(r.fromUserId, r.toUserId);
      assert Between(r, p);
      assert s.friendships == db.friendships + [p];
      forall i | 0 <= i < |s.requests| && Between(s.requests[i], p) ensures s.requests[i].status != PENDING {
        if i != id {
          OtherRowBetween(db.requests, id, i);
        }
      }
      assert Between(s.requests[id], p) && s.requests[id].status == ACCEPTED;
    }
  }

  /** Of two rows between the same users, one pending, the other runs the other way and is not. */
  lemma OtherRowBetween(rows: seq<Request>, id: nat, i: nat)
    requires DirectionsUnique(rows) && OneWay(rows) && id < |rows| && i < |rows| && i != id
    requires rows[id].status == PENDING
    requires Between(rows[i], Canonical(rows[id].fromUserId, rows[id].toUserId))
    ensures rows[i].status != PENDING
  {
  }

  lemma FoundIsTheRow(rows: seq<Request>, u: UserId, v: UserId, i: nat)
    requires DirectionsUnique(rows) && i < |rows| && Sent(rows[i], u, v)
    ensures FindByDirection(rows, u, v) == Some(i)
  {
  }

  lemma NoneIncoming(db: Db, users: set<UserId>, actor: UserId, target: UserId)
    requires Inv(db) && Send(db, users, actor, target).1.Done?
    ensures forall i :: 0 <= i < |db.requests| ==> !PendingFrom(db.requests[i], target, actor)
  {
  }

  /** Friendships stay founded when the only row that changes lies between two users who are not friends. */
  lemma FoundedElsewhere(db: Db, rows: seq<Request>, u: UserId, v: UserId)
    requires Inv(db) && u != v && !Friends(db, u, v)
    requires |db.requests| <= |rows|
    requires forall i :: 0 <= i < |rows| ==> (i < |db.requests| && rows[i] == db.requests[i]) || Sent(rows[i], u, v)
    requires forall i :: 0 <= i < |db.requests| ==> rows[i] == db.requests[i] || Sent(db.requests[i], u, v)
    ensures FriendshipsFounded(Db(rows, db.friendships))
  {
  }

  lemma SendKeepsInv(db: Db, users: set<UserId>, actor: UserId, target: UserId)
    requires Inv(db)
    ensures Inv(Send(db, users, actor, target).0)
  {
    var s := Send(db, users, actor, target).0;
    if s != db {
      NoneIncoming(db, users, actor, target);
      FoundedElsewhere(db, s.requests, actor, target);
    }
  }

  lemma {:induction false} WithoutKeepsDistinct(pairs: seq<Pair>, p: Pair)
    requires PairsCanonical(pairs)
    ensures PairsCanonical(Without(pairs, p))
  {
    if pairs != [] {
      var n := |pairs| - 1;
      WithoutKeepsDistinct(pairs[..n], p);
      var init := Without(pairs[..n], p);
      assert pairs[n] !in pairs[..n];
      assert forall i :: 0 <= i < |init| ==> init[i] in init;
    }
  }

  lemma PerformKeepsInv(db: Db, users: set<UserId>, call: Call)
    requires Inv(db)
    ensures Inv(Perform(db, users, call).0)
  {
    match call
    case SendCall(actor, target) => SendKeepsInv(db, users, actor, target);
    case AcceptCall(actor, id) => AcceptKeepsInv(db, actor, id);
    case RejectCall(actor, id) =>
      if Refusal(db, id, actor, false).None? { ClosingKeepsInv(db, id, DECLINED); }
    case CancelCall(actor, id) =>
      if Refusal(db, id, actor, true).None? { ClosingKeepsInv(db, id, CANCELLED); }
    case RemoveCall(actor, friend) =>
      if Friends(db, actor, friend) { WithoutKeepsDistinct(db.friendships, Canonical(actor, friend)); }
  }

  lemma {:induction false} RunKeepsInv(db: Db, users: set<UserId>, calls: seq<Call>)
    requires Inv(db)
    ensures Inv(Run(db, users, calls))
  {
    if calls != [] {
      RunKeepsInv(db, users, calls[..|calls| - 1]);
      PerformKeepsInv(Run(db, users, calls[..|calls| - 1]), users, calls[|calls| - 1]);
    }
  }

  // ── The batched view ───────────────────────────────────────────────────────

  datatype Relationship = Friend | OutgoingRequest(id: nat) | IncomingRequest(id: nat) | NoRelation

  /** What the viewer is to one user, asked for that user alone. */
  function RelationshipOf(db: Db, viewer: UserId, other: UserId): Relationship {
    var outgoing := FindByDirection(db.requests, viewer, other);
    var incoming := FindByDirection(db.requests, other, viewer);
    if Friends(db, viewer, other) then Friend
    else if outgoing.Some? && db.requests[outgoing.value].status == PENDING then OutgoingRequest(outgoing.value)
    else if incoming.Some? && db.requests[incoming.value].status == PENDING then IncomingRequest(incoming.value)
    else NoRelation
  }

  /** The rows of the friendship query, in whatever order they arrive. */
  ghost predicate FriendshipRows(db: Db, viewer: UserId, ids: seq<UserId>, rows: seq<Pair>) {
    forall p :: p in rows <==>
      p in db.friendships && ((p.userAId == viewer && p.userBId in ids) || (p.userBId == viewer && p.userAId in ids))
  }

  /** The ids of the rows of the active-request query, in whatever order they arrive. */
  ghost predicate RequestRows(db: Db, viewer: UserId, ids: seq<UserId>, rows: seq<nat>) {
    forall i: nat :: i in rows <==>
      i < |db.requests| && db.requests[i].status == PENDING
      && ((db.requests[i].fromUserId == viewer && db.requests[i].toUserId in ids)
          || (db.requests[i].toUserId == viewer && db.requests[i].fromUserId in ids))
  }

  function OtherSide(p: Pair, viewer: UserId): UserId { if p.userAId == viewer then p.userBId else p.userAId }

  function OtherEnd(r: Request, viewer: UserId): UserId { if r.fromUserId == viewer then r.toUserId else r.fromUserId }

  method FriendIds(viewer: UserId, rows: seq<Pair>) returns (friendIds: set<UserId>)
    ensures forall u :: u in friendIds <==> exists k :: 0 <= k < |rows| && OtherSide(rows[k], viewer) == u
  {
    friendIds := {};
    for k := 0 to |rows|
      invariant forall u :: u in friendIds <==> exists j :: 0 <= j < k && OtherSide(rows[j], viewer) == u
    {
      friendIds := friendIds + {OtherSide(rows[k], viewer)};
    }
  }

  /** Later rows overwrite earlier ones. */
  method RequestByOther(requests: seq<Request>, viewer: UserId, rows: seq<nat>) returns (byOther: map<UserId, nat>)
    requires forall k :: 0 <= k < |rows| ==> rows[k] < |requests|
    ensures forall u :: u in byOther <==> exists k :: 0 <= k < |rows| && OtherEnd(requests[rows[k]], viewer) == u
    ensures forall u :: u in byOther ==> byOther[u] in rows && OtherEnd(requests[byOther[u]], viewer) == u
  {
    byOther := map[];
    for k := 0 to |rows|
      invariant forall u :: u in byOther <==> exists j :: 0 <= j < k && OtherEnd(requests[rows[j]], viewer) == u
      invariant forall u :: u in byOther ==> byOther[u] in rows && OtherEnd(requests[byOther[u]], viewer) == u
    {
      byOther := byOther[OtherEnd(requests[rows[k]], viewer) := rows[k]];
    }
  }

  lemma FriendIdsRight(db: Db, viewer: UserId, ids: seq<UserId>, rows: seq<Pair>, u: UserId)
    requires Inv(db) && FriendshipRows(db, viewer, ids, rows) && u in ids
    ensures (exists k :: 0 <= k < |rows| && OtherSide(rows[k], viewer) == u) <==> Friends(db, viewer, u)
  {
  }

  /** A pending row between the viewer and `u` is the one, whichever way it runs, that the lookup finds. */
  lemma PendingRowRight(db: Db, viewer: UserId, u: UserId, i: nat)
    requires Inv(db) && i < |db.requests| && db.requests[i].status == PENDING
    requires Sent(db.requests[i], viewer, u) || Sent(db.requests[i], u, viewer)
    ensures RelationshipOf(db, viewer, u) ==
      if Sent(db.requests[i], viewer, u) then OutgoingRequest(i) else IncomingRequest(i)
  {
  }

  lemma RequestRowRight(db: Db, viewer: UserId, ids: seq<UserId>, rows: seq<nat>, u: UserId, id: nat)
    requires Inv(db) && RequestRows(db, viewer, ids, rows) && id in rows && OtherEnd(db.requests[id], viewer) == u
    ensures RelationshipOf(db, viewer, u) ==
            if db.requests[id].fromUserId == viewer then OutgoingRequest(id) else IncomingRequest(id)
  {
    PendingRowRight(db, viewer, u, id);
  }

  lemma NoRow(db: Db, viewer: UserId, ids: seq<UserId>, rows: seq<nat>, u: UserId)
    requires RequestRows(db, viewer, ids, rows) && u in ids && !Friends(db, viewer, u)
    requires forall k :: 0 <= k < |rows| ==> rows[k] < |db.requests| && OtherEnd(db.requests[rows[k]], viewer) != u
    ensures RelationshipOf(db, viewer, u) == NoRelation
  {
  }

  /** What the batch finds for one user: the set of friends first, then the map of requests. */
  function Found(friendIds: set<UserId>, byOther: map<UserId, nat>, requests: seq<Request>, viewer: UserId, u: UserId): Relationship
    requires u in byOther ==> byOther[u] < |requests|
  {
    if u in friendIds then Friend
    else if u !in byOther then NoRelation
    else if requests[byOther[u]].fromUserId == viewer then OutgoingRequest(byOther[u]) else IncomingRequest(byOther[u])
  }

  ghost predicate FriendIdsAre(friendIds: set<UserId>, viewer: UserId, rows: seq<Pair>) {
    forall u :: u in friendIds <==> exists k :: 0 <= k < |rows| && OtherSide(rows[k], viewer) == u
  }

  ghost predicate ByOtherIs(byOther: map<UserId, nat>, requests: seq<Request>, viewer: UserId, rows: seq<nat>)
    requires forall k :: 0 <= k < |rows| ==> rows[k] < |requests|
  {
    && (forall u :: u in byOther <==> exists k :: 0 <= k < |rows| && OtherEnd(requests[rows[k]], viewer) == u)
    && forall u :: u in byOther ==> byOther[u] in rows && OtherEnd(requests[byOther[u]], viewer) == u
  }

  lemma FoundRight(
    db: Db, viewer: UserId, ids: seq<UserId>, friendships: seq<Pair>, rows: seq<nat>,
    friendIds: set<UserId>, byOther: map<UserId, nat>, u: UserId)
    requires Inv(db) && u in ids
    requires FriendshipRows(db, viewer, ids, friendships) && RequestRows(db, viewer, ids, rows)
    requires forall k :: 0 <= k < |rows| ==> rows[k] < |db.requests|
    requires FriendIdsAre(friendIds, viewer, friendships) && ByOtherIs(byOther, db.requests, viewer, rows)
    ensures u in byOther ==> byOther[u] < |db.requests|
    ensures Found(friendIds, byOther, db.requests, viewer, u) == RelationshipOf(db, viewer, u)
  {
    FriendIdsRight(db, viewer, ids, friendships, u);
    if u !in friendIds {
      if u in byOther {
        RequestRowRight(db, viewer, ids, rows, u, byOther[u]);
      } else {
        NoRow(db, viewer, ids, rows, u);
      }
    }
  }

  method DecorateUsers(db: Db, viewer: UserId, others: seq<UserId>, friendships: seq<Pair>, requests: seq<nat>)
    returns (decorated: seq<Relationship>)
    requires Inv(db)
    requires FriendshipRows(db, viewer, others, friendships) && RequestRows(db, viewer, others, requests)
    ensures |decorated| == |others|
    ensures forall k :: 0 <= k < |others| ==> decorated[k] == RelationshipOf(db, viewer, others[k])
  {
    assert forall k :: 0 <= k < |requests| ==> requests[k] in requests;
    var friendIds := FriendIds(viewer, friendships);
    var byOther := RequestByOther(db.requests, viewer, requests);
    decorated := [];
    for k := 0 to |others|
      invariant |decorated| == k
      invariant forall j :: 0 <= j < k ==> decorated[j] == RelationshipOf(db, viewer, others[j])
    {
      var u := others[k];
      FoundRight(db, viewer, others, friendships, requests, friendIds, byOther, u);
      if u in friendIds {
        decorated := decorated + [Friend];
      } else if u in byOther {
        var id := byOther[u];
        decorated := decorated + [if db.requests[id].fromUserId == viewer then OutgoingRequest(id) else IncomingRequest(id)];
      } else {
        decorated := decorated + [NoRelation];
      }
    }
  }

  /** The two sides of a relationship see the same one, from opposite ends. */
  lemma ViewsAgree(db: Db, u: UserId, v: UserId)
    requires Inv(db)
    ensures RelationshipOf(db, u, v).Friend? <==> RelationshipOf(db, v, u).Friend?
    ensures forall i :: RelationshipOf(db, u, v) == OutgoingRequest(i) <==> RelationshipOf(db, v, u) == IncomingRequest(i)
  {
    forall i: nat | i < |db.requests| && PendingFrom(db.requests[i], u, v)
      ensures RelationshipOf(db, u, v) == OutgoingRequest(i) && RelationshipOf(db, v, u) == IncomingRequest(i)
    {
      PendingRowRight(db, u, v, i);
      PendingRowRight(db, v, u, i);
    }
  }

  // ── What a call shows its users ────────────────────────────────────────────

  /** The two users a successful call is about. */
  function Partners(db: Db, call: Call): (UserId, UserId) {
    match call
    case SendCall(actor, target) => (actor, target)
    case RemoveCall(actor, friend) => (actor, friend)
    case AcceptCall(_, id) => if id < |db.requests| then (db.requests[id].fromUserId, db.requests[id].toUserId) else (0, 0)
    case RejectCall(_, id) => if id < |db.requests| then (db.requests[id].fromUserId, db.requests[id].toUserId) else (0, 0)
    case CancelCall(_, id) => if id < |db.requests| then (db.requests[id].fromUserId, db.requests[id].toUserId) else (0, 0)
  }

  /** Closing the pending request of two users who are not friends leaves nothing between them. */
  lemma ClosedShowsNothing(db: Db, id: nat, status: Status)
    requires Inv(db) && id < |db.requests| && db.requests[id].status == PENDING && status != PENDING
    ensures RelationshipOf(WithStatus(db, id, status), db.requests[id].fromUserId, db.requests[id].toUserId) == NoRelation
  {
  }

  /**
   What the two users see after a call that succeeded: sending shows the request,
   accepting a friend, and rejecting, cancelling and removing leave nothing.
   */
  lemma CallShows(db: Db, users: set<UserId>, call: Call)
    requires Inv(db)
    requires Succeeds(db, users, call)
    ensures var (r, outcome) := Perform(db, users, call); var (u, v) := Partners(db, call);
            RelationshipOf(r, u, v) ==
            match call
            case SendCall(_, _) => OutgoingRequest(outcome.id)
            case AcceptCall(_, _) => Friend
            case _ => NoRelation
  {
    var (r, outcome) := Perform(db, users, call);
    PerformKeepsInv(db, users, call);
    match call
    case SendCall(actor, target) => PendingRowRight(r, actor, target, outcome.id);
    case AcceptCall(actor, id) =>
    case RejectCall(actor, id) => ClosedShowsNothing(db, id, DECLINED);
    case CancelCall(actor, id) => ClosedShowsNothing(db, id, CANCELLED);
    case RemoveCall(actor, friend) => RemovedShowsNothing(db, actor, friend);
  }

  lemma RemovedShowsNothing(db: Db, u: UserId, v: UserId)
    requires Inv(db) && Friends(db, u, v)
    ensures RelationshipOf(Remove(db, u, v).0, u, v) == NoRelation
  {
  }

  predicate Succeeds(db: Db, users: set<UserId>, call: Call) {
    Perform(db, users, call).1.Done? || Perform(db, users, call).1.Removed?
  }

  /** The pending request is the one its two users see, from their ends; no other user sees it. */
  lemma SeenByItsUsers(db: Db, actor: UserId, id: nat)
    requires Inv(db)
    ensures (exists other :: RelationshipOf(db, actor, other) == IncomingRequest(id)) <==> Refusal(db, id, actor, false).None?
    ensures (exists other :: RelationshipOf(db, actor, other) == OutgoingRequest(id)) <==> Refusal(db, id, actor, true).None?
  {
    if Refusal(db, id, actor, false).None? {
      PendingRowRight(db, actor, db.requests[id].fromUserId, id);
    }
    if Refusal(db, id, actor, true).None? {
      PendingRowRight(db, actor, db.requests[id].toUserId, id);
    }
  }

  /**
   A call succeeds exactly when it is what the actor's view offers: to send where
   nothing stands or one's own request does, to accept or reject what comes in, to
   cancel what went out, to remove a friend.  A call that fails changes nothing.
   */
  lemma CallSucceedsIff(db: Db, users: set<UserId>, call: Call)
    requires Inv(db)
    ensures Succeeds(db, users, call) <==>
      match call
      case SendCall(actor, target) =>
        var seen := RelationshipOf(db, actor, target);
        actor != target && target in users && (seen.NoRelation? || seen.OutgoingRequest?)
      case AcceptCall(actor, id) => exists other :: RelationshipOf(db, actor, other) == IncomingRequest(id)
      case RejectCall(actor, id) => exists other :: RelationshipOf(db, actor, other) == IncomingRequest(id)
      case CancelCall(actor, id) => exists other :: RelationshipOf(db, actor, other) == OutgoingRequest(id)
      case RemoveCall(actor, friend) => RelationshipOf(db, actor, friend).Friend?
    ensures !Succeeds(db, users, call) ==> Perform(db, users, call).0 == db
  {
    match call
    case SendCall(actor, target) =>
      if actor != target && target in users {
        SentWhenOffered(db, users, actor, target);
      }
    case AcceptCall(actor, id) => SeenByItsUsers(db, actor, id);
    case RejectCall(actor, id) => SeenByItsUsers(db, actor, id);
    case CancelCall(actor, id) => SeenByItsUsers(db, actor, id);
    case RemoveCall(actor, friend) =>
  }

  lemma SentWhenOffered(db: Db, users: set<UserId>, actor: UserId, target: UserId)
    requires Inv(db) && actor != target && target in users
    ensures Send(db, users, actor, target).1.Done? <==>
            RelationshipOf(db, actor, target).NoRelation? || RelationshipOf(db, actor, target).OutgoingRequest?
  {
    var outgoing := FindByDirection(db.requests, actor, target);
    if outgoing.Some? && db.requests[outgoing.value].status == PENDING {
      PendingRowRight(db, actor, target, outgoing.value);
    }
  }

  predicate SamePair(x: UserId, y: UserId, u: UserId, v: UserId) { (x == u && y == v) || (x == v && y == u) }

  /** The rows that differ are between `u` and `v` only. */
  ghost predicate DiffersBetween(db: Db, next: Db, u: UserId, v: UserId) {
    && u != v
    && |db.requests| <= |next.requests|
    && (forall i :: 0 <= i < |db.requests| ==>
          next.requests[i] == db.requests[i]
          || (next.requests[i] == db.requests[i].(status := next.requests[i].status)
              && (Sent(db.requests[i], u, v) || Sent(db.requests[i], v, u))))
    && (forall i :: |db.requests| <= i < |next.requests| ==> Sent(next.requests[i], u, v))
    && forall p :: p != Canonical(u, v) ==> (p in next.friendships <==> p in db.friendships)
  }

  /** The lookup in a direction between other users finds the same row, unchanged. */
  lemma RowUnmoved(db: Db, next: Db, u: UserId, v: UserId, x: UserId, y: UserId)
    requires Inv(db) && Inv(next) && DiffersBetween(db, next, u, v) && !SamePair(x, y, u, v)
    ensures var id := FindByDirection(db.requests, x, y);
            && FindByDirection(next.requests, x, y) == id
            && (id.Some? ==> next.requests[id.value] == db.requests[id.value])
  {
  }

  lemma FriendsUnmoved(db: Db, next: Db, u: UserId, v: UserId, x: UserId, y: UserId)
    requires DiffersBetween(db, next, u, v) && !SamePair(x, y, u, v)
    ensures Friends(next, x, y) <==> Friends(db, x, y)
  {
  }

  lemma ViewUnmoved(db: Db, next: Db, u: UserId, v: UserId, x: UserId, y: UserId)
    requires Inv(db) && Inv(next) && DiffersBetween(db, next, u, v) && !SamePair(x, y, u, v)
    ensures RelationshipOf(next, x, y) == RelationshipOf(db, x, y)
  {
    RowUnmoved(db, next, u, v, x, y);
    RowUnmoved(db, next, u, v, y, x);
    FriendsUnmoved(db, next, u, v, x, y);
  }

  /** A call changes nothing between any other two users. */
  lemma OthersUnmoved(db: Db, users: set<UserId>, call: Call, x: UserId, y: UserId)
    requires Inv(db) && !SamePair(x, y, Partners(db, call).0, Partners(db, call).1)
    ensures RelationshipOf(Perform(db, users, call).0, x, y) == RelationshipOf(db, x, y)
  {
    var next := Perform(db, users, call).0;
    if next != db {
      PerformKeepsInv(db, users, call);
      ViewUnmoved(db, next, Partners(db, call).0, Partners(db, call).1, x, y);
    }
  }
}
