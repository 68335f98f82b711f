/** The use cases over friend requests, friendships and blocks. */
module SocialHandlers {
  import opened Wrappers
  import opened Sequences
  import opened SocialModel

  class SocialStore {
    var requests: map<RequestId, Request>
    var friendships: map<Pair, FriendshipStatus>
    var blocks: set<Block>

    ghost function State(): Social
      reads this
    {
      Social(requests, friendships, blocks)
    }

    /** How each use case answers: the step's refusal, or its new state. */
    ghost predicate Steps(before: Social, op: SocialOp, error: Option<SocialError>)
      reads this
    {
      error == Refusal(before, op) && State() == Apply(before, op)
    }

    constructor ()
      ensures State() == EMPTY
    {
      requests, friendships, blocks := map[], map[], {};
    }

    method SendFriendRequest(id: RequestId, fromUserId: UserId, toUserId: UserId, bothExist: bool)
      returns (error: Option<SocialError>)
      requires id !in requests
      modifies this
      ensures Steps(old(State()), Send(id, fromUserId, toUserId, bothExist), error)
    {
      if fromUserId == toUserId { return Some(SelfRequest); }
      if !bothExist { return Some(UserNotFound); }
      if Block(fromUserId, toUserId) in blocks || Block(toUserId, fromUserId) in blocks { return Some(UserBlocked); }
      var pair := SortedPair(fromUserId, toUserId);
      if pair in friendships && friendships[pair] != DELETED { return Some(AlreadyFriends); }
      var existing := FindRequest(fromUserId, toUserId, PENDING);
      if existing.Some? { return Some(RequestExists); }
      var reverse := FindRequest(toUserId, fromUserId, PENDING);
      if reverse.Some? { return Some(RequestExists); }
      requests := requests[id := Request(fromUserId, toUserId, PENDING)];
      return None;
    }

    method AcceptFriendRequest(id: RequestId, userId: UserId) returns (error: Option<SocialError>)
      modifies this
      ensures Steps(old(State()), Accept(id, userId), error)
    {
      if id !in requests { return Some(RequestNotFound); }
      var request := requests[id];
      if request.toUserId != userId { return Some(Unauthorized); }
      if request.status != PENDING { return Some(NotPending); }
      if Block(request.fromUserId, request.toUserId) in blocks || Block(request.toUserId, request.fromUserId) in blocks {
        return Some(UserBlocked);
      }
      var pair := SortedPair(request.fromUserId, request.toUserId);
      if pair in friendships {
        if friendships[pair] == DELETED {
          friendships := friendships[pair := ACTIVE];
          requests := requests[id := request.(status := ACCEPTED)];
          return None;
        }
        return Some(AlreadyFriends);
      }
      requests := requests[id := request.(status := ACCEPTED)];
      friendships := friendships[pair := ACTIVE];
      return None;
    }

    method RejectFriendRequest(id: RequestId, userId: UserId) returns (error: Option<SocialError>)
      modifies this
      ensures Steps(old(State()), Reject(id, userId), error)
    {
      if id !in requests { return Some(RequestNotFound); }
      if requests[id].toUserId != userId { return Some(Unauthorized); }
      if requests[id].status != PENDING { return Some(NotPending); }
      requests := requests[id := requests[id].(status := REJECTED)];
      return None;
    }

    method CancelFriendRequest(id: RequestId, userId: UserId) returns (error: Option<SocialError>)
      modifies this
      ensures Steps(old(State()), Cancel(id, userId), error)
    {
      if id !in requests { return Some(RequestNotFound); }
      if requests[id].fromUserId != userId { return Some(Unauthorized); }
      if requests[id].status != PENDING { return Some(NotPending); }
      requests := requests[id := requests[id].(status := CANCELED)];
      return None;
    }

    method BlockTheUser(blockerId: UserId, blockedUserId: UserId, present: bool) returns (error: Option<SocialError>)
      modifies this
      ensures Steps(old(State()), BlockUser(blockerId, blockedUserId, present), error)
    {
      if blockerId == blockedUserId { return Some(CannotBlockYourself); }
      if !present { return Some(UserNotFound); }
      if Block(blockerId, blockedUserId) in blocks { return Some(AlreadyBlocked); }
      var pair := SortedPair(blockerId, blockedUserId);
      friendships := friendships[pair := DELETED];
      var sent := ListPending(blockerId, blockedUserId);
      var received := ListPending(blockedUserId, blockerId);
      DeleteEach(sent + received);
      blocks := blocks + {Block(blockerId, blockedUserId)};
      assert sent + received == PendingWithin(old(State()), blockerId, blockedUserId, LISTING_LIMIT);
      return None;
    }

    /** The repository's delete succeeds whether or not there was a block. */
    method UnblockTheUser(blockerId: UserId, blockedUserId: UserId) returns (error: Option<SocialError>)
      modifies this
      ensures Steps(old(State()), UnblockUser(blockerId, blockedUserId), error)
    {
      blocks := blocks - {Block(blockerId, blockedUserId)};
      return None;
    }

    method UnfriendTheUser(userId: UserId, friendId: UserId, present: bool) returns (error: Option<SocialError>)
      modifies this
      ensures Steps(old(State()), Unfriend(userId, friendId, present), error)
    {
      if !present { return Some(UserNotFound); }
      var pair := SortedPair(userId, friendId);
      if pair !in friendships || friendships[pair] == DELETED { return Some(FriendshipNotFound); }
      friendships := friendships[pair := DELETED];
      var pending := set id | id in requests && (requests[id].fromUserId == userId || requests[id].toUserId == userId) &&
        requests[id].status == PENDING && (requests[id].fromUserId == friendId || requests[id].toUserId == friendId);
      DeleteEach(pending);
      return None;
    }

    /** Deletes the requests one by one, in whatever order. */
    method DeleteEach(ids: set<RequestId>)
      modifies this`requests
      ensures requests == old(requests) - ids
    {
      var left := ids;
      ghost var done: set<RequestId> := {};
      while left != {}
        invariant done + left == ids
        invariant requests == old(requests) - done
        decreases |left|
      {
        var id :| id in left;
        requests := requests - {id};
        done, left := done + {id}, left - {id};
      }
      assert done == ids;
    }

    method AreFriendsNow(u: UserId, v: UserId) returns (b: bool)
      ensures b <==> AreFriends(State(), u, v)
    {
      var pair := SortedPair(u, v);
      return pair in friendships && friendships[pair] == ACTIVE;
    }

    /** What the query on the sender's index evaluates: the first `limit` of the sender's requests. */
    method EvaluateSent(from: UserId, limit: nat) returns (evaluated: set<RequestId>)
      ensures evaluated == set id | id in SentBy(State(), from) && Evaluated(State(), id, limit)
    {
      hide Evaluated, Ahead;
      var sent := set id | id in requests && requests[id].fromUserId == from;
      ghost var left;
      evaluated, left := FirstOf(sent, limit);
      FirstAreEvaluated(State(), from, limit, evaluated, left);
    }

    method FindRequest(from: UserId, to: UserId, status: RequestStatus) returns (r: Option<RequestId>)
      ensures r.Some? ==> IsFirstFound(State(), r.value, from, to, status)
      ensures r.None? ==> !Finds(State(), from, to, status)
    {
      var evaluated := EvaluateSent(from, LOOKUP_LIMIT);
      var matching := set id | id in evaluated && requests[id] == Request(from, to, status);
      assert forall id :: id in matching <==> IsFound(State(), id, from, to, status);
      if matching == {} { return None; }
      ghost var least := Least(matching);
      var id :| id in matching && forall j :: j in matching ==> id <= j;
      return Some(id);
    }

    method ListPending(from: UserId, to: UserId) returns (ids: set<RequestId>)
      ensures ids == set id | id in requests && requests[id] == Request(from, to, PENDING) && Evaluated(State(), id, LISTING_LIMIT)
    {
      var evaluated := EvaluateSent(from, LISTING_LIMIT);
      ids := set id | id in evaluated && requests[id] == Request(from, to, PENDING);
    }

    method CheckFriendRequestStatus(me: UserId, other: UserId) returns (r: Relation)
      ensures IsStatus(State(), me, other, r)
    {
      if me == other { return Self; }
      if Block(me, other) in blocks { return BlockedRelation(true); }
      if Block(other, me) in blocks { return BlockedRelation(false); }
      var pair := SortedPair(me, other);
      if pair in friendships && friendships[pair] == ACTIVE { return Friends; }
      var found := FindRequest(me, other, PENDING);
      if found.Some? { return PendingRelation(found.value, OUTGOING); }
      found := FindRequest(other, me, PENDING);
      if found.Some? { return PendingRelation(found.value, INCOMING); }
      found := FindRequest(me, other, REJECTED);
      if found.Some? { return RejectedRelation(found.value, OUTGOING); }
      found := FindRequest(other, me, REJECTED);
      if found.Some? { return RejectedRelation(found.value, INCOMING); }
      return NoRelation;
    }
  }

  ghost predicate AllBefore(first: set<RequestId>, rest: set<RequestId>) {
    forall i, j :: i in first && j in rest ==> i < j
  }

  lemma NothingBefore(ids: set<RequestId>)
    ensures AllBefore({}, ids)
  {}

  lemma LeastComesNext(first: set<RequestId>, rest: set<RequestId>, id: RequestId)
    requires AllBefore(first, rest) && id in rest && forall j :: j in rest ==> id <= j
    ensures AllBefore(first + {id}, rest - {id})
  {}

  /** The first `limit` of the ids, in their order. */
  method FirstOf(ids: set<RequestId>, limit: nat) returns (first: set<RequestId>, ghost left: set<RequestId>)
    ensures first + left == ids && first !! left && |first| <= limit && (left != {} ==> |first| == limit)
    ensures AllBefore(first, left)
  {
    hide AllBefore;
    var rest := ids;
    assert AllBefore({}, ids) by { NothingBefore(ids); }
    first := {};
    while rest != {} && |first| < limit
      invariant first + rest == ids && first !! rest && |first| <= limit
      invariant AllBefore(first, rest)
      decreases |rest|
    {
      ghost var least := Least(rest);
      var id :| id in rest && forall j :: j in rest ==> id <= j;
      LeastComesNext(first, rest, id);
      first, rest := first + {id}, rest - {id};
    }
    left := rest;
  }

  /** The evaluated requests are those with fewer than `limit` ahead of them. */
  lemma FirstAreEvaluated(s: Social, from: UserId, limit: nat, evaluated: set<RequestId>, left: set<RequestId>)
    requires evaluated + left == SentBy(s, from) && evaluated !! left
    requires AllBefore(evaluated, left)
    requires |evaluated| <= limit && (left != {} ==> |evaluated| == limit)
    ensures evaluated == set id | id in SentBy(s, from) && Evaluated(s, id, limit)
  {
    forall id | id in SentBy(s, from) ensures Evaluated(s, id, limit) <==> id in evaluated {
      if id in evaluated {
        assert Ahead(s, from, id) <= evaluated && id !in Ahead(s, from, id);
        SubsetSize(Ahead(s, from, id), evaluated);
      } else {
        assert evaluated <= Ahead(s, from, id);
        SubsetSize(evaluated, Ahead(s, from, id));
      }
    }
  }

  /** `[u, v].sort()` */
  method SortedPair(u: UserId, v: UserId) returns (p: Pair)
    ensures p == PairOf(u, v)
  {
    if u <= v { return Pair(u, v); }
    return Pair(v, u);
  }
}
