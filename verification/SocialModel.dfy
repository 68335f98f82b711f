/** Friend requests, friendships and blocks: three stores that three use cases keep together. */
module SocialModel {
  import opened Wrappers

  /** User ids as numbers in the order `sort` gives them. */
  type UserId = nat

  /**
   * Request ids as numbers in the order in which the sender's index lists them. That order is fixed but arbitrary:
   * a new request may come anywhere in it.
   */
  type RequestId = nat

  datatype RequestStatus = PENDING | ACCEPTED | REJECTED | CANCELED

  datatype Request = Request(fromUserId: UserId, toUserId: UserId, status: RequestStatus)

  datatype FriendshipStatus = ACTIVE | DELETED

  datatype Pair = Pair(userA: UserId, userB: UserId)

  datatype Block = Block(blockerId: UserId, blockedUserId: UserId)

  datatype Social = Social(
    requests: map<RequestId, Request>,
    friendships: map<Pair, FriendshipStatus>,
    blocks: set<Block>
  )

  datatype SocialError =
    | SelfRequest | UserNotFound | UserBlocked | AlreadyFriends | RequestExists | RequestNotFound
    | Unauthorized | NotPending | CannotBlockYourself | AlreadyBlocked | FriendshipNotFound

  /** `bothExist` and `present` say what the user repository answers; `id` is the new request's id. */
  datatype SocialOp =
    | Send(id: RequestId, fromUserId: UserId, toUserId: UserId, bothExist: bool)
    | Accept(id: RequestId, userId: UserId)
    | Reject(id: RequestId, userId: UserId)
    | Cancel(id: RequestId, userId: UserId)
    | BlockUser(blockerId: UserId, blockedUserId: UserId, present: bool)
    | UnblockUser(blockerId: UserId, blockedUserId: UserId)
    | Unfriend(userId: UserId, friendId: UserId, present: bool)

  /** How many of the sender's requests a look-up for one pair evaluates, and how many a listing does. */
  const LOOKUP_LIMIT: nat := 2
  const LISTING_LIMIT: nat := 100

  // ---------- Queries ----------

  function PairOf(u: UserId, v: UserId): (p: Pair)
    ensures p.userA <= p.userB
  {
    if u <= v then Pair(u, v) else Pair(v, u)
  }

  predicate Blocked(s: Social, u: UserId, v: UserId) {
    Block(u, v) in s.blocks || Block(v, u) in s.blocks
  }

  predicate AreFriends(s: Social, u: UserId, v: UserId) {
    PairOf(u, v) in s.friendships && s.friendships[PairOf(u, v)] == ACTIVE
  }

  function SentBy(s: Social, from: UserId): set<RequestId> {
    set id | id in s.requests && s.requests[id].fromUserId == from
  }

  /** The requests of the same sender that the index lists before this one. */
  function Ahead(s: Social, from: UserId, id: RequestId): set<RequestId> {
    set j | j in SentBy(s, from) && j < id
  }

  /** The query evaluates its sender's first `limit` requests, and filters what it has evaluated. */
  predicate Evaluated(s: Social, id: RequestId, limit: nat) {
    id in s.requests && |Ahead(s, s.requests[id].fromUserId, id)| < limit
  }

  predicate Matches(s: Social, id: RequestId, from: UserId, to: UserId, status: RequestStatus) {
    id in s.requests && s.requests[id] == Request(from, to, status)
  }

  predicate Finds(s: Social, from: UserId, to: UserId, status: RequestStatus) {
    exists id :: id in s.requests && IsFound(s, id, from, to, status)
  }

  predicate IsFound(s: Social, id: RequestId, from: UserId, to: UserId, status: RequestStatus) {
    Matches(s, id, from, to, status) && Evaluated(s, id, LOOKUP_LIMIT)
  }

  /** The look-up returns the first request that it evaluated and that passes the filter. */
  ghost predicate IsFirstFound(s: Social, id: RequestId, from: UserId, to: UserId, status: RequestStatus) {
    IsFound(s, id, from, to, status) && forall j :: j in s.requests && IsFound(s, j, from, to, status) ==> id <= j
  }

  /** A pending request between the two, in either direction. */
  predicate PendingBetween(r: Request, u: UserId, v: UserId) {
    r.status == PENDING && ((r.fromUserId == u && r.toUserId == v) || (r.fromUserId == v && r.toUserId == u))
  }

  // ---------- Steps ----------

  function AnswerRefusal(s: Social, id: RequestId, mayAnswer: bool): Option<SocialError>
    requires id in s.requests
  {
    if !mayAnswer then Some(Unauthorized)
    else if s.requests[id].status != PENDING then Some(NotPending)
    else None
  }

  function SendRefusal(s: Social, from: UserId, to: UserId, bothExist: bool): Option<SocialError> {
    if from == to then Some(SelfRequest)
    else if !bothExist then Some(UserNotFound)
    else if Blocked(s, from, to) then Some(UserBlocked)
    else if AreFriends(s, from, to) then Some(AlreadyFriends)
    else if Finds(s, from, to, PENDING) || Finds(s, to, from, PENDING) then Some(RequestExists)
    else None
  }

  function AcceptRefusal(s: Social, id: RequestId, userId: UserId): Option<SocialError>
    requires id in s.requests
  {
    var r := s.requests[id];
    if AnswerRefusal(s, id, r.toUserId == userId).Some? then AnswerRefusal(s, id, r.toUserId == userId)
    else if Blocked(s, r.fromUserId, r.toUserId) then Some(UserBlocked)
    else if AreFriends(s, r.fromUserId, r.toUserId) then Some(AlreadyFriends)
    else None
  }

  function Refusal(s: Social, op: SocialOp): Option<SocialError> {
    match op
    case Send(_, from, to, bothExist) => SendRefusal(s, from, to, bothExist)
    case Accept(id, u) => if id !in s.requests then Some(RequestNotFound) else AcceptRefusal(s, id, u)
    case Reject(id, u) =>
      if id !in s.requests then Some(RequestNotFound) else AnswerRefusal(s, id, s.requests[id].toUserId == u)
    case Cancel(id, u) =>
      if id !in s.requests then Some(RequestNotFound) else AnswerRefusal(s, id, s.requests[id].fromUserId == u)
    case BlockUser(b, t, present) =>
      if b == t then Some(CannotBlockYourself)
      else if !present then Some(UserNotFound)
      else if Block(b, t) in s.blocks then Some(AlreadyBlocked)
      else None
    case UnblockUser(_, _) => None
    case Unfriend(u, f, present) =>
      if !present then Some(UserNotFound) else if !AreFriends(s, u, f) then Some(FriendshipNotFound) else None
  }

  function Answered(s: Social, id: RequestId, status: RequestStatus): map<RequestId, Request>
    requires id in s.requests
  {
    s.requests[id := s.requests[id].(status := status)]
  }

  /** The pending requests between the two among the sender's first `limit`. */
  function PendingWithin(s: Social, u: UserId, v: UserId, limit: nat): set<RequestId> {
    set id | id in s.requests && PendingBetween(s.requests[id], u, v) && Evaluated(s, id, limit)
  }

  /** Unfriending reads the user's sent and received requests without a limit, and keeps those that name the friend. */
  function AllPending(s: Social, u: UserId, f: UserId): set<RequestId> {
    set id | id in s.requests && (s.requests[id].fromUserId == u || s.requests[id].toUserId == u) &&
      s.requests[id].status == PENDING && (s.requests[id].fromUserId == f || s.requests[id].toUserId == f)
  }

  /** The repository writes the deleted status whether or not there was a friendship. */
  function EndFriendship(s: Social, u: UserId, v: UserId): map<Pair, FriendshipStatus> {
    s.friendships[PairOf(u, v) := DELETED]
  }

  function Apply(s: Social, op: SocialOp): Social {
    if Refusal(s, op).Some? then s else
    match op
    case Send(id, from, to, _) => s.(requests := s.requests[id := Request(from, to, PENDING)])
    case Accept(id, _) =>
      var r := s.requests[id];
      s.(requests := Answered(s, id, ACCEPTED),
         friendships := s.friendships[PairOf(r.fromUserId, r.toUserId) := ACTIVE])
    case Reject(id, _) => s.(requests := Answered(s, id, REJECTED))
    case Cancel(id, _) => s.(requests := Answered(s, id, CANCELED))
    case BlockUser(b, t, _) =>
      Social(s.requests - PendingWithin(s, b, t, LISTING_LIMIT), EndFriendship(s, b, t), s.blocks + {Block(b, t)})
    case UnblockUser(b, t) => s.(blocks := s.blocks - {Block(b, t)})
    case Unfriend(u, f, _) => s.(requests := s.requests - AllPending(s, u, f), friendships := EndFriendship(s, u, f))
  }

  /** New requests get fresh ids. */
  predicate Allowed(s: Social, op: SocialOp) {
    op.Send? ==> op.id !in s.requests
  }

  const EMPTY := Social(map[], map[], {})

  ghost predicate IsRun(states: seq<Social>, ops: seq<SocialOp>) {
    |states| == |ops| + 1 && states[0] == EMPTY &&
    forall i :: 0 <= i < |ops| ==> IsStep(states[i], ops[i], states[i + 1])
  }

  ghost predicate IsStep(s: Social, op: SocialOp, after: Social) {
    Allowed(s, op) && after == Apply(s, op)
  }

  // ---------- The status two users see ----------

  datatype Direction = OUTGOING | INCOMING

  datatype Relation =
    | Self
    | BlockedRelation(blocking: bool)
    | Friends
    | PendingRelation(id: RequestId, direction: Direction)
    | RejectedRelation(id: RequestId, direction: Direction)
    | NoRelation

  /** What `me` is told about `other`. */
  ghost predicate IsStatus(s: Social, me: UserId, other: UserId, r: Relation) {
    if me == other then r == Self
    else if Block(me, other) in s.blocks then r == BlockedRelation(true)
    else if Block(other, me) in s.blocks then r == BlockedRelation(false)
    else if AreFriends(s, me, other) then r == Friends
    else if Finds(s, me, other, PENDING) then
      r.PendingRelation? && r.direction == OUTGOING && IsFirstFound(s, r.id, me, other, PENDING)
    else if Finds(s, other, me, PENDING) then
      r.PendingRelation? && r.direction == INCOMING && IsFirstFound(s, r.id, other, me, PENDING)
    else if Finds(s, me, other, REJECTED) then
      r.RejectedRelation? && r.direction == OUTGOING && IsFirstFound(s, r.id, me, other, REJECTED)
    else if Finds(s, other, me, REJECTED) then
      r.RejectedRelation? && r.direction == INCOMING && IsFirstFound(s, r.id, other, me, REJECTED)
    else r == NoRelation
  }
}
