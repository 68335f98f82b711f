/**
 * Who may do what with a request, a friendship or a block, what that does to the stored records, and what a user is
 * told about another, all read off the records.
 */
module SocialAnswers {
  import opened Wrappers
  import opened SocialModel
  import opened SocialTheorems

  // ---------- The records between two users ----------

  predicate IsBlocked(s: Social, u: UserId, v: UserId) {
    Block(u, v) in s.blocks || Block(v, u) in s.blocks
  }

  function Key(u: UserId, v: UserId): Pair {
    if u < v then Pair(u, v) else Pair(v, u)
  }

  predicate Befriended(s: Social, u: UserId, v: UserId) {
    Key(u, v) in s.friendships && s.friendships[Key(u, v)] == ACTIVE
  }

  /** Fewer than `n` requests of the same sender come before this one. */
  predicate AmongFirst(s: Social, id: RequestId, n: nat) {
    id in s.requests &&
    |set j | j in s.requests && s.requests[j].fromUserId == s.requests[id].fromUserId && j < id| < n
  }

  /** A look-up for a request of one user to another evaluates two of the sender's, and this is what it can see. */
  predicate Seen(s: Social, id: RequestId, from: UserId, to: UserId, status: RequestStatus) {
    AmongFirst(s, id, 2) && s.requests[id].fromUserId == from && s.requests[id].toUserId == to && s.requests[id].status == status
  }

  predicate SomeSeen(s: Social, from: UserId, to: UserId, status: RequestStatus) {
    exists id :: id in s.requests && Seen(s, id, from, to, status)
  }

  lemma SeenIsFound(s: Social, id: RequestId, from: UserId, to: UserId, status: RequestStatus)
    ensures IsFound(s, id, from, to, status) <==> Seen(s, id, from, to, status)
  {
    if id in s.requests { AheadMeans(s, id); }
  }

  lemma AheadMeans(s: Social, id: RequestId)
    requires id in s.requests
    ensures Ahead(s, s.requests[id].fromUserId, id) ==
      set j | j in s.requests && s.requests[j].fromUserId == s.requests[id].fromUserId && j < id
  {}

  lemma SomeSeenIsFinds(s: Social, from: UserId, to: UserId, status: RequestStatus)
    ensures Finds(s, from, to, status) <==> SomeSeen(s, from, to, status)
  {
    hide Evaluated, AmongFirst;
    forall id ensures IsFound(s, id, from, to, status) <==> Seen(s, id, from, to, status) {
      SeenIsFound(s, id, from, to, status);
    }
  }

  // ---------- Who may do what ----------

  predicate Allows(s: Social, op: SocialOp) {
    match op
    case Send(_, from, to, bothExist) =>
      from != to && bothExist && !IsBlocked(s, from, to) && !Befriended(s, from, to) &&
      !SomeSeen(s, from, to, PENDING) && !SomeSeen(s, to, from, PENDING)
    case Accept(id, u) =>
      id in s.requests && s.requests[id].toUserId == u && s.requests[id].status == PENDING &&
      !IsBlocked(s, s.requests[id].fromUserId, u) && !Befriended(s, s.requests[id].fromUserId, u)
    case Reject(id, u) => id in s.requests && s.requests[id].toUserId == u && s.requests[id].status == PENDING
    case Cancel(id, u) => id in s.requests && s.requests[id].fromUserId == u && s.requests[id].status == PENDING
    case BlockUser(u, v, present) => u != v && present && Block(u, v) !in s.blocks
    case UnblockUser(_, _) => true
    case Unfriend(u, v, present) => present && Befriended(s, u, v)
  }

  /** An operation acts exactly when it is allowed, and otherwise changes nothing. */
  lemma ActsIffAllowed(s: Social, op: SocialOp)
    ensures Refusal(s, op).None? <==> Allows(s, op)
    ensures !Allows(s, op) ==> Apply(s, op) == s
  {
    hide Finds, SomeSeen;
    if op.Send? {
      SomeSeenIsFinds(s, op.fromUserId, op.toUserId, PENDING);
      SomeSeenIsFinds(s, op.toUserId, op.fromUserId, PENDING);
    }
  }

  // ---------- What it does to the records ----------

  predicate Between(r: Request, u: UserId, v: UserId) {
    (r.fromUserId == u && r.toUserId == v) || (r.fromUserId == v && r.toUserId == u)
  }

  /** The request as the operation leaves it, if it leaves it. */
  function RequestAfter(s: Social, op: SocialOp, id: RequestId): Option<Request> {
    var before := if id in s.requests then Some(s.requests[id]) else None;
    match op
    case Send(x, from, to, _) => if id == x then Some(Request(from, to, PENDING)) else before
    case Accept(x, _) => if id == x && before.Some? then Some(before.value.(status := ACCEPTED)) else before
    case Reject(x, _) => if id == x && before.Some? then Some(before.value.(status := REJECTED)) else before
    case Cancel(x, _) => if id == x && before.Some? then Some(before.value.(status := CANCELED)) else before
    case BlockUser(u, v, _) =>
      if before.Some? && before.value.status == PENDING && Between(before.value, u, v) && AmongFirst(s, id, 100) then None else before
    case UnblockUser(_, _) => before
    case Unfriend(u, v, _) =>
      if before.Some? && before.value.status == PENDING && Between(before.value, u, v) then None else before
  }

  lemma RequestsComeOut(s: Social, op: SocialOp, id: RequestId)
    requires Allows(s, op) && NoSelf(s)
    ensures (if id in Apply(s, op).requests then Some(Apply(s, op).requests[id]) else None) == RequestAfter(s, op, id)
  {
    hide Finds, SomeSeen;
    ActsIffAllowed(s, op);
    if id in s.requests { AheadMeans(s, id); }
  }

  /** Accepting befriends the two; blocking and unfriending end what there is; nothing else touches a friendship. */
  lemma FriendshipsComeOut(s: Social, op: SocialOp, u: UserId, v: UserId)
    requires Allows(s, op)
    ensures Befriended(Apply(s, op), u, v) <==>
      if op.Accept? && Between(s.requests[op.id], u, v) then true
      else if op.BlockUser? && ((u == op.blockerId && v == op.blockedUserId) || (v == op.blockerId && u == op.blockedUserId)) then false
      else if op.Unfriend? && ((u == op.userId && v == op.friendId) || (v == op.userId && u == op.friendId)) then false
      else Befriended(s, u, v)
  {
    hide Finds, SomeSeen, Evaluated;
    ActsIffAllowed(s, op);
    assert PairOf(u, v) == Key(u, v);
  }

  /** A block is set by its owner only, and lifted by him only. */
  lemma BlocksComeOut(s: Social, op: SocialOp, u: UserId, v: UserId)
    ensures Block(u, v) in Apply(s, op).blocks <==>
      if op.BlockUser? && op.blockerId == u && op.blockedUserId == v && u != v && op.present then true
      else if op.UnblockUser? && op.blockerId == u && op.blockedUserId == v then false
      else Block(u, v) in s.blocks
  {
    hide Finds, Evaluated;
  }

  // ---------- What a user is told ----------

  /** The answer names a stored pending request between the two, and tells which of them has sent it. */
  lemma PendingAnswerMeans(s: Social, me: UserId, other: UserId, r: Relation)
    requires IsStatus(s, me, other, r) && r.PendingRelation?
    ensures r.id in s.requests && s.requests[r.id].status == PENDING && Between(s.requests[r.id], me, other)
    ensures r.direction == OUTGOING <==> s.requests[r.id].fromUserId == me
    ensures me != other && !IsBlocked(s, me, other) && !Befriended(s, me, other)
    ensures var q := s.requests[r.id];
      AmongFirst(s, r.id, 2) && forall id :: Seen(s, id, q.fromUserId, q.toUserId, PENDING) ==> r.id <= id
    ensures r.direction == INCOMING ==> !SomeSeen(s, me, other, PENDING)
  {
    hide Finds, Evaluated, AmongFirst;
    SomeSeenIsFinds(s, me, other, PENDING);
    forall id, from, to ensures IsFound(s, id, from, to, PENDING) <==> Seen(s, id, from, to, PENDING) {
      SeenIsFound(s, id, from, to, PENDING);
    }
  }

  /** The same for a rejected request, which is told of only when none is pending. */
  lemma RejectedAnswerMeans(s: Social, me: UserId, other: UserId, r: Relation)
    requires IsStatus(s, me, other, r) && r.RejectedRelation?
    ensures r.id in s.requests && s.requests[r.id].status == REJECTED && Between(s.requests[r.id], me, other)
    ensures r.direction == OUTGOING <==> s.requests[r.id].fromUserId == me
    ensures me != other && !IsBlocked(s, me, other) && !Befriended(s, me, other)
    ensures !SomeSeen(s, me, other, PENDING) && !SomeSeen(s, other, me, PENDING)
    ensures var q := s.requests[r.id];
      AmongFirst(s, r.id, 2) && forall id :: Seen(s, id, q.fromUserId, q.toUserId, REJECTED) ==> r.id <= id
    ensures r.direction == INCOMING ==> !SomeSeen(s, me, other, REJECTED)
  {
    hide Finds, Evaluated, AmongFirst;
    SomeSeenIsFinds(s, me, other, PENDING);
    SomeSeenIsFinds(s, other, me, PENDING);
    SomeSeenIsFinds(s, me, other, REJECTED);
    forall id, from, to ensures IsFound(s, id, from, to, REJECTED) <==> Seen(s, id, from, to, REJECTED) {
      SeenIsFound(s, id, from, to, REJECTED);
    }
  }

  /** The other answers: oneself, a block and whose it is, friends, or nothing that the look-ups can see. */
  lemma OtherAnswersMean(s: Social, me: UserId, other: UserId, r: Relation)
    requires IsStatus(s, me, other, r)
    ensures r.Self? <==> me == other
    ensures r.BlockedRelation? <==> me != other && IsBlocked(s, me, other)
    ensures r.BlockedRelation? ==> (r.blocking <==> Block(me, other) in s.blocks)
    ensures r.Friends? <==> me != other && !IsBlocked(s, me, other) && Befriended(s, me, other)
    ensures r.NoRelation? <==>
      me != other && !IsBlocked(s, me, other) && !Befriended(s, me, other) &&
      !SomeSeen(s, me, other, PENDING) && !SomeSeen(s, other, me, PENDING) &&
      !SomeSeen(s, me, other, REJECTED) && !SomeSeen(s, other, me, REJECTED)
  {
    hide Finds, SomeSeen, IsFirstFound;
    SomeSeenIsFinds(s, me, other, PENDING);
    SomeSeenIsFinds(s, other, me, PENDING);
    SomeSeenIsFinds(s, me, other, REJECTED);
    SomeSeenIsFinds(s, other, me, REJECTED);
  }

  // ---------- Errors ----------

  /** An error is true of the records or of what was asked. */
  lemma ErrorsAreTrue(s: Social, op: SocialOp)
    requires Refusal(s, op).Some?
    ensures match Refusal(s, op).value {
        case SelfRequest => op.Send? && op.fromUserId == op.toUserId
        case UserNotFound => (op.Send? && !op.bothExist) || ((op.BlockUser? || op.Unfriend?) && !op.present)
        case UserBlocked =>
          (op.Send? && IsBlocked(s, op.fromUserId, op.toUserId)) ||
          (op.Accept? && op.id in s.requests && IsBlocked(s, s.requests[op.id].fromUserId, s.requests[op.id].toUserId))
        case AlreadyFriends =>
          (op.Send? && Befriended(s, op.fromUserId, op.toUserId)) ||
          (op.Accept? && op.id in s.requests && Befriended(s, s.requests[op.id].fromUserId, s.requests[op.id].toUserId))
        case RequestExists =>
          op.Send? && (SomeSeen(s, op.fromUserId, op.toUserId, PENDING) || SomeSeen(s, op.toUserId, op.fromUserId, PENDING))
        case RequestNotFound => Answers(op) && op.id !in s.requests
        case Unauthorized =>
          Answers(op) && op.id in s.requests &&
          op.userId != if op.Cancel? then s.requests[op.id].fromUserId else s.requests[op.id].toUserId
        case NotPending => Answers(op) && op.id in s.requests && s.requests[op.id].status != PENDING
        case CannotBlockYourself => op.BlockUser? && op.blockerId == op.blockedUserId
        case AlreadyBlocked => op.BlockUser? && Block(op.blockerId, op.blockedUserId) in s.blocks
        case FriendshipNotFound => op.Unfriend? && !Befriended(s, op.userId, op.friendId)
      }
  {
    hide Finds, SomeSeen;
    if op.Send? {
      SomeSeenIsFinds(s, op.fromUserId, op.toUserId, PENDING);
      SomeSeenIsFinds(s, op.toUserId, op.fromUserId, PENDING);
    }
  }

  predicate Answers(op: SocialOp) {
    op.Accept? || op.Reject? || op.Cancel?
  }
}
