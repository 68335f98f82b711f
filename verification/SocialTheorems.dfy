/**
 * What holds between the three stores. A block always excludes a friendship. That requests are unique, and that
 * blocks and friendships exclude them, depends on whether the limited look-ups see the requests they are after.
 */
module SocialTheorems {
  import opened Wrappers
  import opened Sequences
  import opened SocialModel

  // ---------- The invariant, pair by pair ----------

  /** One unordered pair: a block excludes all else, friendship excludes a request, and requests are unique. */
  ghost predicate PairSound(s: Social, u: UserId, v: UserId) {
    (Blocked(s, u, v) ==> !AreFriends(s, u, v) && NonePending(s, u, v)) &&
    (AreFriends(s, u, v) ==> NonePending(s, u, v)) &&
    AtMostOnePending(s, u, v)
  }

  ghost predicate NonePending(s: Social, u: UserId, v: UserId) {
    forall id :: id in s.requests ==> !PendingBetween(s.requests[id], u, v)
  }

  ghost predicate AtMostOnePending(s: Social, u: UserId, v: UserId) {
    forall i, j :: i in s.requests && j in s.requests ==>
      (PendingBetween(s.requests[i], u, v) && PendingBetween(s.requests[j], u, v) ==> i == j)
  }

  ghost predicate NoSelf(s: Social) {
    (forall id :: id in s.requests ==> s.requests[id].fromUserId != s.requests[id].toUserId) &&
    (forall p :: p in s.friendships && s.friendships[p] == ACTIVE ==> p.userA < p.userB) &&
    (forall b :: b in s.blocks ==> b.blockerId != b.blockedUserId)
  }

  ghost predicate Inv(s: Social) {
    NoSelf(s) && forall u, v {:trigger PairSound(s, u, v)} :: PairSound(s, u, v)
  }

  // ---------- When the look-ups see enough ----------

  /** No pending request of the pair lies outside the first `limit` requests of its sender. */
  ghost predicate Covers(s: Social, u: UserId, v: UserId, limit: nat) {
    forall id :: id in s.requests && PendingBetween(s.requests[id], u, v) ==> Evaluated(s, id, limit)
  }

  /** Sending relies on the look-up for one pair, and blocking on the listing; no other step has a limit. */
  ghost predicate StepCovers(s: Social, op: SocialOp) {
    match op
    case Send(_, from, to, _) => Covers(s, from, to, LOOKUP_LIMIT)
    case BlockUser(b, t, _) => Covers(s, b, t, LISTING_LIMIT)
    case Accept(_, _) => true
    case Reject(_, _) => true
    case Cancel(_, _) => true
    case UnblockUser(_, _) => true
    case Unfriend(_, _, _) => true
  }

  /** A sender with no more requests than the limit has none outside it. */
  lemma FewRequestsAreCovered(s: Social, u: UserId, v: UserId, limit: nat)
    requires |SentBy(s, u)| <= limit && |SentBy(s, v)| <= limit
    ensures Covers(s, u, v, limit)
  {
    forall id | id in s.requests && PendingBetween(s.requests[id], u, v) ensures Evaluated(s, id, limit) {
      var from := s.requests[id].fromUserId;
      assert id in SentBy(s, from) && id !in Ahead(s, from, id);
      SubsetSize(Ahead(s, from, id), SentBy(s, from));
    }
  }

  lemma AcceptedSendFoundNone(s: Social, op: SocialOp, id: RequestId)
    requires op.Send? && Refusal(s, op).None? && id in s.requests
    requires PendingBetween(s.requests[id], op.fromUserId, op.toUserId)
    ensures !Evaluated(s, id, LOOKUP_LIMIT)
  {
    assert !IsFound(s, id, op.fromUserId, op.toUserId, PENDING) && !IsFound(s, id, op.toUserId, op.fromUserId, PENDING);
  }

  /** An accepted request keeps its pair sound exactly when no pending one of the pair escaped the look-up. */
  lemma SendKeepsItsPairIff(s: Social, op: SocialOp)
    requires op.Send? && Allowed(s, op) && Refusal(s, op).None? && PairSound(s, op.fromUserId, op.toUserId)
    ensures PairSound(Apply(s, op), op.fromUserId, op.toUserId) <==> Covers(s, op.fromUserId, op.toUserId, LOOKUP_LIMIT)
  {
    var u, v, after := op.fromUserId, op.toUserId, Apply(s, op);
    hide Evaluated;
    assert PendingBetween(after.requests[op.id], u, v);
    forall id | id in s.requests && PendingBetween(s.requests[id], u, v)
      ensures !Evaluated(s, id, LOOKUP_LIMIT) && id in after.requests && PendingBetween(after.requests[id], u, v)
    {
      AcceptedSendFoundNone(s, op, id);
    }
    assert Blocked(after, u, v) == Blocked(s, u, v) && AreFriends(after, u, v) == AreFriends(s, u, v);
  }

  lemma SendKeepsOtherPairs(s: Social, op: SocialOp, u: UserId, v: UserId)
    requires op.Send? && Allowed(s, op) && Refusal(s, op).None? && PairSound(s, u, v)
    requires PairOf(u, v) != PairOf(op.fromUserId, op.toUserId)
    ensures PairSound(Apply(s, op), u, v)
  {
    hide Evaluated;
  }

  /** A block keeps its pair sound exactly when every pending request of the pair was within the listing. */
  lemma BlockKeepsItsPairIff(s: Social, op: SocialOp)
    requires op.BlockUser? && Refusal(s, op).None?
    ensures PairSound(Apply(s, op), op.blockerId, op.blockedUserId) <==>
      Covers(s, op.blockerId, op.blockedUserId, LISTING_LIMIT)
  {
    hide Evaluated;
    var b, t, after := op.blockerId, op.blockedUserId, Apply(s, op);
    assert Blocked(after, b, t) && !AreFriends(after, b, t);
    forall id | id in s.requests && PendingBetween(s.requests[id], b, t)
      ensures id in after.requests <==> !Evaluated(s, id, LISTING_LIMIT)
    {}
    assert NonePending(after, b, t) <==> Covers(s, b, t, LISTING_LIMIT);
  }

  lemma BlockKeepsOtherPairs(s: Social, op: SocialOp, u: UserId, v: UserId)
    requires op.BlockUser? && Refusal(s, op).None? && PairSound(s, u, v)
    requires PairOf(u, v) != PairOf(op.blockerId, op.blockedUserId)
    ensures PairSound(Apply(s, op), u, v)
  {
    hide Evaluated;
  }

  // ---------- The steps without a limit ----------

  lemma AcceptKeepsPair(s: Social, op: SocialOp, u: UserId, v: UserId)
    requires op.Accept? && Refusal(s, op).None? && PairSound(s, u, v)
    ensures PairSound(Apply(s, op), u, v)
  {
    var r, after := s.requests[op.id], Apply(s, op);
    if PendingBetween(r, u, v) {
      assert NonePending(after, u, v);
      assert Blocked(s, u, v) == Blocked(s, r.fromUserId, r.toUserId);
    } else {
      assert PairOf(u, v) != PairOf(r.fromUserId, r.toUserId);
      assert AreFriends(after, u, v) == AreFriends(s, u, v);
    }
  }

  lemma AnswerKeepsPair(s: Social, op: SocialOp, u: UserId, v: UserId)
    requires (op.Reject? || op.Cancel?) && Refusal(s, op).None? && PairSound(s, u, v)
    ensures PairSound(Apply(s, op), u, v)
  {}

  lemma EndKeepsPair(s: Social, op: SocialOp, u: UserId, v: UserId)
    requires (op.Unfriend? || op.UnblockUser?) && Refusal(s, op).None? && PairSound(s, u, v)
    ensures PairSound(Apply(s, op), u, v)
  {}

  // ---------- All steps, and all runs ----------

  lemma SamePair(s: Social, u: UserId, v: UserId, x: UserId, y: UserId)
    requires PairOf(u, v) == PairOf(x, y)
    ensures PairSound(s, u, v) <==> PairSound(s, x, y)
  {
    hide Evaluated;
  }

  lemma CoveredStepKeepsPair(s: Social, op: SocialOp, u: UserId, v: UserId)
    requires Allowed(s, op) && Refusal(s, op).None? && Inv(s) && StepCovers(s, op)
    ensures PairSound(Apply(s, op), u, v)
  {
    hide PairSound, Apply, Refusal, Covers;
    assert PairSound(s, u, v);
    match op
    case Send(_, x, y, _) =>
      assert PairSound(s, x, y);
      SendKeepsItsPairIff(s, op);
      if PairOf(u, v) == PairOf(x, y) { SamePair(Apply(s, op), u, v, x, y); } else { SendKeepsOtherPairs(s, op, u, v); }
    case BlockUser(b, t, _) =>
      BlockKeepsItsPairIff(s, op);
      if PairOf(u, v) == PairOf(b, t) { SamePair(Apply(s, op), u, v, b, t); } else { BlockKeepsOtherPairs(s, op, u, v); }
    case Accept(_, _) => AcceptKeepsPair(s, op, u, v);
    case Reject(_, _) => AnswerKeepsPair(s, op, u, v);
    case Cancel(_, _) => AnswerKeepsPair(s, op, u, v);
    case UnblockUser(_, _) => EndKeepsPair(s, op, u, v);
    case Unfriend(_, _, _) => EndKeepsPair(s, op, u, v);
  }

  lemma StepKeepsNoSelf(s: Social, op: SocialOp)
    requires Allowed(s, op) && NoSelf(s)
    ensures NoSelf(Apply(s, op))
  {
    hide Evaluated, Finds;
  }

  /** A step that is not refused keeps the invariant exactly when its look-ups cover the pair. */
  lemma StepKeepsInvIff(s: Social, op: SocialOp)
    requires Allowed(s, op) && Inv(s) && Refusal(s, op).None?
    ensures Inv(Apply(s, op)) <==> StepCovers(s, op)
  {
    hide NoSelf, PairSound, Apply, Refusal, Covers;
    StepKeepsNoSelf(s, op);
    if StepCovers(s, op) {
      forall u, v ensures PairSound(Apply(s, op), u, v) { CoveredStepKeepsPair(s, op, u, v); }
    } else if op.Send? {
      assert PairSound(s, op.fromUserId, op.toUserId);
      SendKeepsItsPairIff(s, op);
    } else {
      BlockKeepsItsPairIff(s, op);
    }
  }

  ghost predicate RunCovers(states: seq<Social>, ops: seq<SocialOp>, n: nat)
    requires |states| == |ops| + 1 && n <= |ops|
  {
    forall i :: 0 <= i < n ==> Refusal(states[i], ops[i]).None? ==> StepCovers(states[i], ops[i])
  }

  /** The invariant holds up to any point of a run exactly when every accepted step until then was covered. */
  lemma {:induction false} ReachableStatesKeepInvIff(states: seq<Social>, ops: seq<SocialOp>, n: nat)
    requires IsRun(states, ops) && n <= |ops|
    ensures (forall i :: 0 <= i <= n ==> Inv(states[i])) <==> RunCovers(states, ops, n)
  {
    hide Inv, Apply, Allowed, Refusal, StepCovers;
    if n == 0 {
      EmptyIsSound();
    } else {
      ReachableStatesKeepInvIff(states, ops, n - 1);
      assert IsStep(states[n - 1], ops[n - 1], states[n]);
      if Refusal(states[n - 1], ops[n - 1]).Some? {
        RefusedStepStays(states[n - 1], ops[n - 1]);
      } else if Inv(states[n - 1]) {
        StepKeepsInvIff(states[n - 1], ops[n - 1]);
      }
    }
  }

  lemma RefusedStepStays(s: Social, op: SocialOp)
    requires Refusal(s, op).Some?
    ensures Apply(s, op) == s
  {}

  lemma EmptyIsSound()
    ensures Inv(EMPTY)
  {}

  /** What a caller can see to: senders with few enough requests when they send, are sent to, block or are blocked. */
  predicate FewRequests(s: Social, op: SocialOp) {
    (op.Send? ==> |SentBy(s, op.fromUserId)| <= LOOKUP_LIMIT && |SentBy(s, op.toUserId)| <= LOOKUP_LIMIT) &&
    (op.BlockUser? ==> |SentBy(s, op.blockerId)| <= LISTING_LIMIT && |SentBy(s, op.blockedUserId)| <= LISTING_LIMIT)
  }

  /** While nobody involved has more requests than the limits, the invariant holds throughout any run. */
  lemma FewRequestsKeepInv(states: seq<Social>, ops: seq<SocialOp>, i: nat)
    requires IsRun(states, ops) && i < |states|
    requires forall k :: 0 <= k < |ops| ==> FewRequests(states[k], ops[k])
    ensures Inv(states[i])
  {
    hide Inv, IsStep, Covers, SentBy;
    forall k | 0 <= k < |ops| && Refusal(states[k], ops[k]).None? ensures StepCovers(states[k], ops[k]) {
      assert FewRequests(states[k], ops[k]);
      match ops[k]
      case Send(_, u, v, _) => FewRequestsAreCovered(states[k], u, v, LOOKUP_LIMIT);
      case BlockUser(u, v, _) => FewRequestsAreCovered(states[k], u, v, LISTING_LIMIT);
      case Accept(_, _) =>
      case Reject(_, _) =>
      case Cancel(_, _) =>
      case UnblockUser(_, _) =>
      case Unfriend(_, _, _) =>
    }
    ReachableStatesKeepInvIff(states, ops, |ops|);
  }

  // ---------- What holds whatever the look-ups see ----------

  ghost predicate BlocksExcludeFriends(s: Social) {
    forall u, v {:trigger AreFriends(s, u, v)} :: Blocked(s, u, v) ==> !AreFriends(s, u, v)
  }

  lemma StepKeepsBlocks(s: Social, op: SocialOp)
    requires BlocksExcludeFriends(s)
    ensures BlocksExcludeFriends(Apply(s, op))
  {
    hide Finds, Evaluated, PendingWithin, AllPending;
    forall u, v ensures Blocked(Apply(s, op), u, v) ==> !AreFriends(Apply(s, op), u, v) {
      assert Blocked(s, u, v) ==> !AreFriends(s, u, v);
    }
  }

  /** In every reachable state a block in either direction excludes an active friendship, and nobody deals with himself. */
  lemma {:induction false} BlocksAlwaysExcludeFriends(states: seq<Social>, ops: seq<SocialOp>, i: nat)
    requires IsRun(states, ops) && i < |states|
    ensures BlocksExcludeFriends(states[i]) && NoSelf(states[i])
  {
    hide Apply, BlocksExcludeFriends, NoSelf;
    if i == 0 {
      assert BlocksExcludeFriends(EMPTY) && NoSelf(EMPTY) by { EmptyExcludes(); }
    } else {
      BlocksAlwaysExcludeFriends(states, ops, i - 1);
      assert IsStep(states[i - 1], ops[i - 1], states[i]);
      StepKeepsBlocks(states[i - 1], ops[i - 1]);
      StepKeepsNoSelf(states[i - 1], ops[i - 1]);
    }
  }

  lemma EmptyExcludes()
    ensures BlocksExcludeFriends(EMPTY) && NoSelf(EMPTY)
  {}

  /** An answered request stays as it was answered, through every later step. */
  lemma AnswersAreFinal(s: Social, op: SocialOp, id: RequestId)
    requires Allowed(s, op) && id in s.requests && s.requests[id].status != PENDING
    ensures id in Apply(s, op).requests && Apply(s, op).requests[id] == s.requests[id]
  {}

  lemma {:induction false} AnswersStand(states: seq<Social>, ops: seq<SocialOp>, i: nat, j: nat, id: RequestId)
    requires IsRun(states, ops) && i <= j < |states|
    requires id in states[i].requests && states[i].requests[id].status != PENDING
    ensures id in states[j].requests && states[j].requests[id] == states[i].requests[id]
    decreases j
  {
    hide Apply;
    if i < j {
      AnswersStand(states, ops, i, j - 1, id);
      assert IsStep(states[j - 1], ops[j - 1], states[j]);
      AnswersAreFinal(states[j - 1], ops[j - 1], id);
    }
  }

  /** A friendship only ever begins by accepting a request that was pending between the two. */
  lemma FriendshipBeginsByAccepting(s: Social, op: SocialOp, u: UserId, v: UserId)
    requires !AreFriends(s, u, v) && AreFriends(Apply(s, op), u, v)
    ensures op.Accept? && op.id in s.requests && PendingBetween(s.requests[op.id], u, v)
    ensures s.requests[op.id].toUserId == op.userId
    ensures !Blocked(s, u, v)
  {
    hide Finds, Evaluated;
  }

  /** Unfriending leaves nothing pending between the two. */
  lemma UnfriendLeavesNonePending(s: Social, u: UserId, v: UserId)
    requires Refusal(s, Unfriend(u, v, true)).None?
    ensures NonePending(Apply(s, Unfriend(u, v, true)), u, v) && !AreFriends(Apply(s, Unfriend(u, v, true)), u, v)
  {}

  // ---------- What the users see ----------

  lemma SameFromBothSides(s: Social, u: UserId, v: UserId)
    ensures PairOf(u, v) == PairOf(v, u) && AreFriends(s, u, v) == AreFriends(s, v, u)
  {}

  /** In every state both users are told the same kind of status, since both ask the same look-ups. */
  lemma StatusIsMutual(s: Social, u: UserId, v: UserId, seen: Relation, back: Relation)
    requires IsStatus(s, u, v, seen) && IsStatus(s, v, u, back)
    ensures seen.Self? == back.Self? && seen.BlockedRelation? == back.BlockedRelation?
    ensures seen.Friends? == back.Friends? && seen.PendingRelation? == back.PendingRelation?
    ensures seen.RejectedRelation? == back.RejectedRelation? && seen.NoRelation? == back.NoRelation?
  {
    hide Finds, IsFirstFound;
    SameFromBothSides(s, u, v);
  }

  /** They are told of the same pending request, from its two ends, exactly when the look-ups find one in one direction only. */
  lemma PendingDirectionMirrorsIff(s: Social, u: UserId, v: UserId, seen: Relation, back: Relation)
    requires IsStatus(s, u, v, seen) && IsStatus(s, v, u, back) && seen.PendingRelation?
    ensures back.PendingRelation?
    ensures seen.id == back.id && seen.direction != back.direction <==>
      !(Finds(s, u, v, PENDING) && Finds(s, v, u, PENDING))
  {
    hide Finds, Evaluated;
    SameFromBothSides(s, u, v);
  }

  /** A sound pair is told of its one pending request if it has one among its sender's first two. */
  lemma SoundStatus(s: Social, u: UserId, v: UserId, seen: Relation, back: Relation)
    requires PairSound(s, u, v) && IsStatus(s, u, v, seen) && IsStatus(s, v, u, back) && u != v
    ensures seen.PendingRelation? ==> seen.id == back.id && seen.direction != back.direction
    ensures seen.PendingRelation? <==>
      exists id :: id in s.requests && PendingBetween(s.requests[id], u, v) && Evaluated(s, id, LOOKUP_LIMIT)
  {
    hide Evaluated;
    StatusIsMutual(s, u, v, seen, back);
    if seen.PendingRelation? {
      PendingDirectionMirrorsIff(s, u, v, seen, back);
      assert PendingBetween(s.requests[seen.id], u, v) && PendingBetween(s.requests[back.id], u, v);
    }
    if exists id :: id in s.requests && PendingBetween(s.requests[id], u, v) && Evaluated(s, id, LOOKUP_LIMIT) {
      var id :| id in s.requests && PendingBetween(s.requests[id], u, v) && Evaluated(s, id, LOOKUP_LIMIT);
      assert IsFound(s, id, u, v, PENDING) || IsFound(s, id, v, u, PENDING);
    }
  }

  /** A block is seen from its two ends unless both block; then each is told that they are blocking. */
  lemma BlockDirectionMirrorsIff(s: Social, u: UserId, v: UserId, seen: Relation, back: Relation)
    requires IsStatus(s, u, v, seen) && IsStatus(s, v, u, back) && seen.BlockedRelation?
    ensures back.BlockedRelation?
    ensures seen.blocking != back.blocking <==> !(Block(u, v) in s.blocks && Block(v, u) in s.blocks)
  {}

  /** A rejection is seen from its two ends unless the look-ups find one in each direction. */
  lemma RejectedDirectionMirrorsIff(s: Social, u: UserId, v: UserId, seen: Relation, back: Relation)
    requires IsStatus(s, u, v, seen) && IsStatus(s, v, u, back) && seen.RejectedRelation?
    ensures back.RejectedRelation?
    ensures seen.direction != back.direction <==> !(Finds(s, u, v, REJECTED) && Finds(s, v, u, REJECTED))
  {
    hide Finds, Evaluated;
    SameFromBothSides(s, u, v);
  }

  // ---------- Becoming friends ----------

  /** Two users can become friends exactly when neither blocks the other and they are not friends already. */
  lemma SendThenAccept(s: Social, id: RequestId, u: UserId, v: UserId)
    requires id !in s.requests && u != v && NonePending(s, u, v)
    ensures Refusal(s, Send(id, u, v, true)).None? <==> !Blocked(s, u, v) && !AreFriends(s, u, v)
    ensures var sent := Apply(s, Send(id, u, v, true));
      Refusal(s, Send(id, u, v, true)).None? ==>
        Refusal(sent, Accept(id, v)).None? && AreFriends(Apply(sent, Accept(id, v)), u, v)
  {
    hide Evaluated;
    forall i | i in s.requests
      ensures !IsFound(s, i, u, v, PENDING) && !IsFound(s, i, v, u, PENDING)
    {
      assert !PendingBetween(s.requests[i], u, v);
    }
  }

  /** The receiver can accept a pending request of a sound pair, whatever was done since it was sent. */
  lemma PendingCanBeAccepted(s: Social, id: RequestId)
    requires id in s.requests && s.requests[id].status == PENDING
    requires PairSound(s, s.requests[id].fromUserId, s.requests[id].toUserId)
    ensures Refusal(s, Accept(id, s.requests[id].toUserId)).None?
  {
    var r := s.requests[id];
    assert PendingBetween(r, r.fromUserId, r.toUserId);
  }

  /** Blocking and unblocking ends a friendship and the pending requests it listed, and changes nothing else. */
  lemma BlockThenUnblock(s: Social, u: UserId, v: UserId)
    requires Refusal(s, BlockUser(u, v, true)).None?
    ensures var after := Apply(Apply(s, BlockUser(u, v, true)), UnblockUser(u, v));
      after.blocks == s.blocks && !AreFriends(after, u, v) &&
      after.requests == s.requests - PendingWithin(s, u, v, LISTING_LIMIT) &&
      (NonePending(after, u, v) <==> Covers(s, u, v, LISTING_LIMIT)) &&
      (forall p :: p != PairOf(u, v) ==> (p in after.friendships <==> p in s.friendships)) &&
      (forall p :: p != PairOf(u, v) && p in s.friendships ==> after.friendships[p] == s.friendships[p])
  {
    hide Evaluated;
    var blocked := Apply(s, BlockUser(u, v, true));
    assert blocked.blocks - {Block(u, v)} == s.blocks;
    forall id | id in s.requests && PendingBetween(s.requests[id], u, v)
      ensures id in blocked.requests <==> !Evaluated(s, id, LISTING_LIMIT)
    {}
  }
}
