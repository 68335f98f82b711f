/** What every reachable state of the call service satisfies. */
module CallInvariants {
  import opened Wrappers
  import opened CallModel

  // ---------- The invariant ----------

  ghost predicate UserEntrySound(s: CallState, u: UserId)
    requires u in s.userCalls
  {
    var c := s.userCalls[u];
    c in s.calls && !Terminal(s.calls[c].status) && LiveIn(s.calls[c], u)
  }

  /** Every user entry points at a live call in which that user rings or has joined. */
  ghost predicate UserIndexSound(s: CallState) {
    forall u {:trigger UserEntrySound(s, u)} :: u in s.userCalls ==> UserEntrySound(s, u)
  }

  /** Every user who rings or has joined in a live call is indexed under that call. */
  ghost predicate UserIndexComplete(s: CallState) {
    forall c, u {:trigger LiveIn(s.calls[c], u)} ::
      c in s.calls && !Terminal(s.calls[c].status) && LiveIn(s.calls[c], u) ==>
        u in s.userCalls && s.userCalls[u] == c
  }

  ghost predicate ConversationEntrySound(s: CallState, v: ConversationId)
    requires v in s.conversationCalls
  {
    var c := s.conversationCalls[v];
    c in s.calls && !Terminal(s.calls[c].status) && s.calls[c].conversationId == v
  }

  ghost predicate CallIndexed(s: CallState, c: CallId)
    requires c in s.calls
  {
    !Terminal(s.calls[c].status) ==>
      s.calls[c].conversationId in s.conversationCalls && s.conversationCalls[s.calls[c].conversationId] == c
  }

  /** The conversation index holds the live calls and nothing else, each under its own conversation. */
  ghost predicate ConversationIndexExact(s: CallState) {
    (forall v {:trigger ConversationEntrySound(s, v)} :: v in s.conversationCalls ==> ConversationEntrySound(s, v)) &&
    (forall c {:trigger CallIndexed(s, c)} :: c in s.calls ==> CallIndexed(s, c))
  }

  ghost predicate SessionConsistent(session: Session) {
    (!Terminal(session.status) ==> (session.status == InCall <==> session.answeredAt.Some?)) &&
    (session.status == SessionStatus.Ended ==> session.answeredAt.Some?) &&
    (session.status == Cancelled ==> session.answeredAt.None?) &&
    (Terminal(session.status) <==> session.endedAt.Some?) &&
    (Terminal(session.status) <==> session.endedBy.Some?) &&
    (Terminal(session.status) ==> !session.timerArmed) &&
    session.callerId in session.participants &&
    (forall u :: u in session.participants ==>
      var p := session.participants[u];
      p.userId == u && p.status != Invited &&
      (p.status == Joined ==> p.joinedAt.Some? && p.leftAt.None? && p.endedAt.None?) &&
      (p.joinedAt.Some? && u != session.callerId ==> session.answeredAt.Some?))
  }

  ghost predicate SessionsConsistent(s: CallState) {
    forall c :: c in s.calls ==> s.calls[c].callId == c && SessionConsistent(s.calls[c])
  }

  ghost predicate Inv(s: CallState) {
    SessionsConsistent(s) && UserIndexSound(s) && ConversationIndexExact(s)
  }

  /** A run in which nobody starts a call while already in one. */
  ghost predicate CallersAreFree(states: seq<CallState>, ops: seq<CallOp>)
    requires |states| == |ops| + 1
  {
    forall i :: 0 <= i < |ops| && ops[i].Create? ==> !UserIsBusy(states[i], ops[i].callerId)
  }

  // ---------- One step keeps the invariant ----------

  /** With a sound index, being busy is having an entry. */
  lemma BusyMeansIndexed(s: CallState, u: UserId)
    requires UserIndexSound(s)
    ensures UserIsBusy(s, u) <==> u in s.userCalls
  {
    assert u in s.userCalls ==> UserEntrySound(s, u);
  }

  lemma BusyConversationMeansIndexed(s: CallState, v: ConversationId)
    requires ConversationIndexExact(s)
    ensures ConversationIsBusy(s, v) <==> v in s.conversationCalls
  {
    assert v in s.conversationCalls ==> ConversationEntrySound(s, v);
  }

  lemma NewSessionConsistent(s: CallState, op: CallOp)
    requires op.Create?
    ensures var session := CreatedSession(s, op, BusyOrder(s, op.calleeIds));
      SessionConsistent(session) &&
      (Terminal(session.status) <==> PrivateBusy(s, op.calleeIds, op.isGroup))
  {
  }

  lemma NewSessionOccupants(s: CallState, op: CallOp, u: UserId)
    requires op.Create? && Allowed(s, op)
    ensures LiveIn(CreatedSession(s, op, BusyOrder(s, op.calleeIds)), u)
      <==> u in InvitedCallees(s, op.calleeIds) + {op.callerId}
  {
  }

  lemma CreateKeepsUserIndex(s: CallState, op: CallOp)
    requires Inv(s) && op.Create? && Allowed(s, op)
    ensures UserIndexSound(Apply(s, op))
  {
    hide SessionConsistent, NewParticipants, BusyOrder;
    var t := Apply(s, op);
    forall u | u in t.userCalls ensures UserEntrySound(t, u) {
      assert u in s.userCalls ==> UserEntrySound(s, u);
      NewSessionConsistent(s, op);
      NewSessionOccupants(s, op, u);
    }
  }

  lemma CreateKeepsConversationIndex(s: CallState, op: CallOp)
    requires Inv(s) && op.Create? && Allowed(s, op)
    ensures ConversationIndexExact(Apply(s, op))
  {
    hide SessionConsistent, LiveIn, InvitedCallees, NewParticipants, BusyOrder, Occupy;
    var t := Apply(s, op);
    BusyConversationMeansIndexed(s, op.conversationId);
    NewSessionConsistent(s, op);
    forall v | v in t.conversationCalls ensures ConversationEntrySound(t, v) {
      assert v in s.conversationCalls ==> ConversationEntrySound(s, v);
    }
    forall c | c in t.calls ensures CallIndexed(t, c) {
      assert c in s.calls ==> CallIndexed(s, c);
    }
  }

  lemma CreateKeepsInv(s: CallState, op: CallOp)
    requires Inv(s) && op.Create? && Allowed(s, op)
    ensures Inv(Apply(s, op))
  {
    CreateKeepsUserIndex(s, op);
    CreateKeepsConversationIndex(s, op);
    NewSessionConsistent(s, op);
  }

  lemma JoinedSessionConsistent(session: Session, u: UserId, now: Time)
    requires SessionConsistent(session) && !Terminal(session.status)
    ensures SessionConsistent(JoinSession(session, u, now))
    ensures forall v :: LiveIn(JoinSession(session, u, now), v) <==> v == u || LiveIn(session, v)
  {
  }

  lemma JoinKeepsInv(s: CallState, op: CallOp)
    requires Inv(s) && op.Join? && Refusal(s, op).None?
    ensures Inv(Apply(s, op))
  {
    hide SessionConsistent, LiveIn, JoinParticipant;
    var t := Apply(s, op);
    JoinedSessionConsistent(s.calls[op.callId], op.userId, op.now);
    forall u | u in t.userCalls ensures UserEntrySound(t, u) {
      assert u in s.userCalls ==> UserEntrySound(s, u);
    }
    forall v | v in t.conversationCalls ensures ConversationEntrySound(t, v) {
      assert ConversationEntrySound(s, v);
    }
    forall c | c in t.calls ensures CallIndexed(t, c) {
      assert CallIndexed(s, c);
    }
  }

  /** The next value of a live session: same call, same conversation, same participants, and every
      user who is not released stays live unless the whole session closes. */
  ghost predicate Successor(before: Session, after: Session, released: set<UserId>) {
    !Terminal(before.status) && SessionConsistent(after) &&
    after.callId == before.callId && after.conversationId == before.conversationId &&
    after.participants.Keys == before.participants.Keys &&
    (!Terminal(after.status) ==> forall u :: LiveIn(before, u) && u !in released ==> LiveIn(after, u))
  }

  lemma StoreKeepsUserIndex(s: CallState, session: Session, released: set<UserId>)
    requires Inv(s) && session.callId in s.calls
    requires Successor(s.calls[session.callId], session, released)
    ensures UserIndexSound(Store(s, session, released))
  {
    var t := Store(s, session, released);
    forall u | u in t.userCalls ensures UserEntrySound(t, u) {
      assert UserEntrySound(s, u);
    }
  }

  lemma StoreKeepsConversationIndex(s: CallState, session: Session, released: set<UserId>)
    requires Inv(s) && session.callId in s.calls
    requires Successor(s.calls[session.callId], session, released)
    ensures ConversationIndexExact(Store(s, session, released))
  {
    hide SessionConsistent, LiveIn, ReleaseUsers;
    var t := Store(s, session, released);
    assert CallIndexed(s, session.callId);
    forall v | v in t.conversationCalls ensures ConversationEntrySound(t, v) {
      assert ConversationEntrySound(s, v);
    }
    forall c | c in t.calls ensures CallIndexed(t, c) {
      assert CallIndexed(s, c);
    }
  }

  lemma StoreKeepsInv(s: CallState, session: Session, released: set<UserId>)
    requires Inv(s) && session.callId in s.calls
    requires Successor(s.calls[session.callId], session, released)
    ensures Inv(Store(s, session, released))
  {
    StoreKeepsUserIndex(s, session, released);
    StoreKeepsConversationIndex(s, session, released);
  }

  lemma DeclinedSessionConsistent(session: Session, u: UserId, p: ParticipantStatus, closing: SessionStatus, now: Time)
    requires SessionConsistent(session) && !Terminal(session.status) && u in session.participants
    requires p == Declined || p == ParticipantStatus.Missed
    requires closing == Rejected || closing == SessionStatus.Missed
    ensures SessionConsistent(DeclineSession(session, u, p, closing, now))
  {
    hide HasJoined, HasWaiting;
  }

  lemma DeclinedIsSuccessor(session: Session, u: UserId, p: ParticipantStatus, closing: SessionStatus, now: Time)
    requires SessionConsistent(session) && !Terminal(session.status) && u in session.participants
    requires p == Declined || p == ParticipantStatus.Missed
    requires closing == Rejected || closing == SessionStatus.Missed
    ensures Successor(session, DeclineSession(session, u, p, closing, now), {u})
  {
    hide SessionConsistent, HasJoined, HasWaiting;
    DeclinedSessionConsistent(session, u, p, closing, now);
  }

  lemma LeftIsSuccessor(session: Session, u: UserId, now: Time)
    requires SessionConsistent(session) && !Terminal(session.status) && u in session.participants
    ensures Successor(session, LeaveSession(session, u, now), {u})
  {
    hide HasJoined;
  }

  lemma EndedIsSuccessor(session: Session, u: UserId, now: Time)
    requires SessionConsistent(session) && !Terminal(session.status)
    ensures Successor(session, EndSession(session, u, now), {})
  {
  }

  lemma TimedOutIsSuccessor(session: Session, now: Time)
    requires SessionConsistent(session) && !Terminal(session.status)
    ensures Successor(session, TimeoutSession(session, now), WaitingUsers(session))
  {
  }

  lemma WithdrawnIsSuccessor(session: Session, op: CallOp)
    requires SessionConsistent(session) && !Terminal(session.status) && WithdrawsFrom(session, op)
    ensures Successor(session, Withdrawn(session, op), Released(session, op))
  {
    match op
    case Reject(_, u, now) => DeclinedIsSuccessor(session, u, Declined, Rejected, now);
    case MarkMissed(_, u, now) =>
      DeclinedIsSuccessor(session, u, ParticipantStatus.Missed, SessionStatus.Missed, now);
    case Leave(_, u, now) => LeftIsSuccessor(session, u, now);
    case End(_, u, now) => EndedIsSuccessor(session, u, now);
    case TimerFires(_, now) => TimedOutIsSuccessor(session, now);
  }

  lemma LoggedSessionConsistent(session: Session, m: string)
    ensures SessionConsistent(session) ==> SessionConsistent(session.(loggedMessageId := Some(m)))
    ensures forall u :: LiveIn(session.(loggedMessageId := Some(m)), u) <==> LiveIn(session, u)
  {
  }

  lemma LoggingKeepsInv(s: CallState, c: CallId, m: string)
    requires Inv(s)
    ensures Inv(Apply(s, MarkLogged(c, m)))
  {
    hide SessionConsistent, LiveIn;
    if c in s.calls { LoggedSessionConsistent(s.calls[c], m); }
    var t := Apply(s, MarkLogged(c, m));
    forall u | u in t.userCalls ensures UserEntrySound(t, u) {
      assert UserEntrySound(s, u);
    }
    forall v | v in t.conversationCalls ensures ConversationEntrySound(t, v) {
      assert ConversationEntrySound(s, v);
    }
    forall d | d in t.calls ensures CallIndexed(t, d) {
      assert CallIndexed(s, d);
    }
  }

  lemma StepKeepsInv(s: CallState, op: CallOp)
    requires Inv(s) && Allowed(s, op)
    ensures Inv(Apply(s, op))
  {
    if Apply(s, op) == s {
    } else if op.Create? {
      CreateKeepsInv(s, op);
    } else if op.Join? {
      JoinKeepsInv(s, op);
    } else if op.MarkLogged? {
      LoggingKeepsInv(s, op.callId, op.messageId);
    } else {
      var session := s.calls[op.callId];
      WithdrawnIsSuccessor(session, op);
      StoreKeepsInv(s, Withdrawn(session, op), Released(session, op));
    }
  }

  lemma {:induction false} ReachableStatesKeepInv(states: seq<CallState>, ops: seq<CallOp>, i: nat)
    requires IsRun(states, ops) && i < |states|
    ensures Inv(states[i])
  {
    if i > 0 {
      ReachableStatesKeepInv(states, ops, i - 1);
      StepKeepsInv(states[i - 1], ops[i - 1]);
    }
  }
}
