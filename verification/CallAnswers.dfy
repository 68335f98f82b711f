/**
 * What each call operation does to whom, read off the stored records: when a call closes and as what, how every
 * participant comes out of a step, who keeps an index entry, and which operations are refused with which error.
 */
module CallAnswers {
  import opened Wrappers
  import opened CallModel
  import opened CallInvariants

  // ---------- Who acts on which call ----------

  /** A call is live exactly while it rings or is under way. */
  lemma TerminalMeans(status: SessionStatus)
    ensures Terminal(status) <==> status != SessionStatus.Ringing && status != InCall
  {}

  predicate IsLive(s: CallState, c: CallId) {
    c in s.calls && (s.calls[c].status == SessionStatus.Ringing || s.calls[c].status == InCall)
  }

  predicate Has(session: Session, u: UserId, status: ParticipantStatus) {
    u in session.participants && session.participants[u].status == status
  }

  predicate Waits(session: Session, u: UserId) {
    Has(session, u, ParticipantStatus.Ringing) || Has(session, u, Invited)
  }

  /** The operation takes effect on the live call `c`. */
  predicate ActsOn(s: CallState, op: CallOp, c: CallId) {
    IsLive(s, c) &&
    match op
    case Create(_, _, _, _, _, _) => false
    case Join(x, u, _) => x == c && !(u in s.userCalls && s.userCalls[u] != c)
    case Reject(x, u, _) => x == c && u in s.calls[c].participants
    case MarkMissed(x, u, _) => x == c && u in s.calls[c].participants
    case Leave(x, u, _) => x == c && u in s.calls[c].participants
    case End(x, u, _) => x == c && u in s.calls[c].participants
    case TimerFires(x, _) => x == c
    case MarkLogged(_, _) => false
  }

  /** An operation on a call that does not act on it changes nothing, and none changes another call. */
  lemma OthersStay(s: CallState, op: CallOp, c: CallId)
    requires Keyed(s) && c in s.calls
    requires op.Create? ==> op.callId != c
    ensures c in Apply(s, op).calls
    ensures !ActsOn(s, op, c) && !op.MarkLogged? ==> Apply(s, op).calls[c] == s.calls[c]
    ensures op.MarkLogged? ==>
      Apply(s, op) == s.(calls := Apply(s, op).calls) &&
      Apply(s, op).calls[c] ==
        if op.callId == c then s.calls[c].(loggedMessageId := Some(op.messageId)) else s.calls[c]
    ensures !op.Create? && !op.MarkLogged? && !ActsOn(s, op, op.callId) ==> Apply(s, op) == s
  {
    hide Withdrawn, JoinSession;
    if Withdraws(op) && ActsOn(s, op, op.callId) { WithdrawnKeepsId(s.calls[op.callId], op); }
  }

  lemma WithdrawnKeepsId(session: Session, op: CallOp)
    requires WithdrawsFrom(session, op)
    ensures Withdrawn(session, op).callId == session.callId
  {}

  // ---------- When a call closes ----------

  predicate OtherJoined(session: Session, u: UserId) {
    exists v :: v in session.participants && v != u && Has(session, v, Joined)
  }

  predicate OtherCalleeJoined(session: Session, u: UserId) {
    exists v :: v in session.participants && v != u && v != session.callerId && Has(session, v, Joined)
  }

  predicate OtherWaits(session: Session, u: UserId) {
    exists v :: v in session.participants && v != u && Waits(session, v)
  }

  predicate CalleeWasIn(session: Session) {
    exists v :: v in session.participants && v != session.callerId && session.participants[v].joinedAt.Some?
  }

  /**
   * A private call closes as soon as anybody leaves, declines or is missed. A group call closes when nobody is left
   * in it, or when somebody declines and no other callee is in it or still rings.
   */
  predicate Closes(session: Session, op: CallOp) {
    match op
    case Leave(_, u, _) => !session.isGroup || !OtherJoined(session, u)
    case Reject(_, u, _) => !session.isGroup || (!OtherCalleeJoined(session, u) && !OtherWaits(session, u))
    case MarkMissed(_, u, _) => !session.isGroup || (!OtherCalleeJoined(session, u) && !OtherWaits(session, u))
    case End(_, _, _) => true
    case TimerFires(_, _) => !CalleeWasIn(session)
    case Create(_, _, _, _, _, _) => false
    case Join(_, _, _) => false
    case MarkLogged(_, _) => false
  }

  function ClosingStatus(session: Session, op: CallOp): SessionStatus {
    if op.Reject? then Rejected
    else if op.MarkMissed? || op.TimerFires? then SessionStatus.Missed
    else if session.answeredAt.Some? then SessionStatus.Ended
    else Cancelled
  }

  /** The call is closed: no conversation and no participant has an entry for it. */
  ghost predicate IsClosed(t: CallState, c: CallId, status: SessionStatus, now: Time, ender: EndedBy) {
    c in t.calls && t.calls[c].status == status && t.calls[c].endedAt == Some(now) && t.calls[c].endedBy == Some(ender) &&
    !t.calls[c].timerArmed && t.calls[c].conversationId !in t.conversationCalls &&
    forall u :: u in t.userCalls ==> t.userCalls[u] != c
  }

  lemma LeaveClosesIff(session: Session, u: UserId, now: Time)
    requires u in session.participants && !Terminal(session.status)
    ensures var after := LeaveSession(session, u, now);
      if !session.isGroup || !OtherJoined(session, u)
      then after.status == (if session.answeredAt.Some? then SessionStatus.Ended else Cancelled) &&
           after.endedAt == Some(now) && after.endedBy == Some(User(u)) && !after.timerArmed
      else after == session.(participants := after.participants)
  {
    var p := session.participants[u].(status := Left, leftAt := Some(now), endedAt := Some(now));
    var next := session.(participants := session.participants[u := p]);
    assert HasJoined(next, true) <==> OtherJoined(session, u) by {
      if OtherJoined(session, u) {
        var v :| v in session.participants && v != u && Has(session, v, Joined);
        assert next.participants[v].status == Joined;
      }
      if HasJoined(next, true) {
        var v :| v in next.participants && next.participants[v].status == Joined;
        assert v != u && Has(session, v, Joined);
      }
    }
  }

  lemma DeclineClosesIff(session: Session, u: UserId, p: ParticipantStatus, closing: SessionStatus, now: Time)
    requires u in session.participants && !Terminal(session.status) && (p == Declined || p == ParticipantStatus.Missed)
    ensures var after := DeclineSession(session, u, p, closing, now);
      if !session.isGroup || (!OtherCalleeJoined(session, u) && !OtherWaits(session, u))
      then after.status == closing && after.endedAt == Some(now) && after.endedBy == Some(User(u)) && !after.timerArmed
      else after == session.(participants := after.participants)
  {
    var next := session.(participants := session.participants[u := session.participants[u].(status := p, endedAt := Some(now))]);
    assert HasJoined(next, false) <==> OtherCalleeJoined(session, u) by {
      if OtherCalleeJoined(session, u) {
        var v :| v in session.participants && v != u && v != session.callerId && Has(session, v, Joined);
        assert next.participants[v].status == Joined;
      }
      if HasJoined(next, false) {
        var v :| v in next.participants && v != session.callerId && next.participants[v].status == Joined;
        assert v != u && Has(session, v, Joined);
      }
    }
    assert HasWaiting(next) <==> OtherWaits(session, u) by {
      if OtherWaits(session, u) {
        var v :| v in session.participants && v != u && Waits(session, v);
        assert Waiting(next.participants[v].status);
      }
      if HasWaiting(next) {
        var v :| v in next.participants && Waiting(next.participants[v].status);
        assert v != u && Waits(session, v);
      }
    }
  }

  lemma TimeoutClosesIff(session: Session, now: Time)
    requires !Terminal(session.status)
    ensures var after := TimeoutSession(session, now);
      if !CalleeWasIn(session)
      then after.status == SessionStatus.Missed && after.endedAt == Some(now) && after.endedBy == Some(Timeout) && !after.timerArmed
      else after == session.(participants := after.participants, status := InCall)
  {
    var missed := map v | v in session.participants :: MissParticipant(session.participants[v], now);
    var next := session.(participants := missed);
    assert CalleeEverJoined(next) <==> CalleeWasIn(session) by {
      if CalleeWasIn(session) {
        var v :| v in session.participants && v != session.callerId && session.participants[v].joinedAt.Some?;
        assert next.participants[v].joinedAt.Some?;
      }
    }
  }

  function By(op: CallOp): EndedBy
    requires Withdraws(op)
  {
    if op.TimerFires? then Timeout else User(op.userId)
  }

  lemma WithdrawnClosesIff(session: Session, op: CallOp)
    requires WithdrawsFrom(session, op) && !Terminal(session.status)
    ensures var after := Withdrawn(session, op);
      after.callId == session.callId && after.conversationId == session.conversationId &&
      after.participants.Keys == session.participants.Keys &&
      if Closes(session, op)
      then after.status == ClosingStatus(session, op) && after.endedAt == Some(op.now) &&
           after.endedBy == Some(By(op)) && !after.timerArmed
      else after == session.(participants := after.participants, status := after.status) &&
           after.status == if op.TimerFires? then InCall else session.status
  {
    match op
    case Reject(_, u, now) => DeclineClosesIff(session, u, Declined, Rejected, now);
    case MarkMissed(_, u, now) => DeclineClosesIff(session, u, ParticipantStatus.Missed, SessionStatus.Missed, now);
    case Leave(_, u, now) => LeaveClosesIff(session, u, now);
    case End(_, u, now) =>
    case TimerFires(_, now) => TimeoutClosesIff(session, now);
  }

  /**
   * A live call is closed by an operation exactly when that acts on it and its participants, as they were, leave no
   * reason to go on. Then it has the status that tells why, and nothing points at it any more.
   */
  lemma StepClosesIff(s: CallState, op: CallOp, c: CallId)
    requires Inv(s) && Allowed(s, op) && IsLive(s, c)
    ensures var t := Apply(s, op);
      (!IsLive(t, c) <==> ActsOn(s, op, c) && Closes(s.calls[c], op)) &&
      (!IsLive(t, c) ==> IsClosed(t, c, ClosingStatus(s.calls[c], op), op.now, By(op)))
  {
    hide Withdrawn, JoinSession, SessionConsistent, CreatedSession;
    if Withdraws(op) && ActsOn(s, op, c) {
      var t := Apply(s, op);
      WithdrawnClosesIff(s.calls[c], op);
      if Closes(s.calls[c], op) {
        forall u | u in t.userCalls ensures t.userCalls[u] != c {
          assert UserEntrySound(s, u);
        }
      }
    } else {
      OthersStay(s, op, c);
      if op.Join? && ActsOn(s, op, c) { JoinedIsInCall(s.calls[c], op.userId, op.now); }
    }
  }

  lemma JoinedIsInCall(session: Session, u: UserId, now: Time)
    ensures var after := JoinSession(session, u, now);
      after == session.(participants := after.participants, answeredAt := after.answeredAt, status := InCall) &&
      after.answeredAt == if session.answeredAt.Some? then session.answeredAt else Some(now)
  {}

  // ---------- The participants ----------

  /** How a participant of a live call comes out of an operation that acts on it. */
  function ParticipantAfter(p: Participant, u: UserId, op: CallOp): Participant {
    match op
    case Reject(_, x, now) => if u == x then p.(status := Declined, endedAt := Some(now)) else p
    case MarkMissed(_, x, now) => if u == x then p.(status := ParticipantStatus.Missed, endedAt := Some(now)) else p
    case Leave(_, x, now) => if u == x then p.(status := Left, leftAt := Some(now), endedAt := Some(now)) else p
    case End(_, _, now) =>
      if p.status == ParticipantStatus.Ringing || p.status == Invited
      then p.(status := ParticipantStatus.Missed, endedAt := Some(now))
      else if p.status == Joined then p.(status := Left, leftAt := Some(now), endedAt := Some(now))
      else p
    case TimerFires(_, now) =>
      if p.status == ParticipantStatus.Ringing || p.status == Invited
      then p.(status := ParticipantStatus.Missed, endedAt := Some(now)) else p
    case Join(_, x, now) =>
      if u != x then p
      else p.(status := Joined, leftAt := None, endedAt := None,
              joinedAt := match p.joinedAt { case Some(t) => Some(t) case None => Some(now) })
    case Create(_, _, _, _, _, _) => p
    case MarkLogged(_, _) => p
  }

  /** An operation gives each participant of a live call that status and those times, and brings in only who joins. */
  lemma ParticipantsComeOut(s: CallState, op: CallOp, c: CallId, u: UserId)
    requires Keyed(s) && Allowed(s, op) && IsLive(s, c)
    ensures var before, after := s.calls[c].participants, Apply(s, op).calls[c].participants;
      (u in before ==> u in after && after[u] == if ActsOn(s, op, c) then ParticipantAfter(before[u], u, op) else before[u]) &&
      (u !in before ==>
        (u in after <==> op.Join? && ActsOn(s, op, c) && op.userId == u) &&
        (u in after ==> after[u] == Participant(u, Joined, Some(op.now), Some(op.now), None, None)))
  {
    hide Withdrawn, JoinSession;
    OthersStay(s, op, c);
    if ActsOn(s, op, c) {
      if op.Join? { JoinerComesIn(s.calls[c], op, u); } else { WithdrawnComeOut(s.calls[c], op, u); }
    }
  }

  lemma WithdrawnComeOut(session: Session, op: CallOp, u: UserId)
    requires WithdrawsFrom(session, op)
    ensures var after := Withdrawn(session, op);
      after.callId == session.callId && after.participants.Keys == session.participants.Keys &&
      (u in session.participants ==> after.participants[u] == ParticipantAfter(session.participants[u], u, op))
  {
    hide HasJoined, HasWaiting, CalleeEverJoined;
  }

  lemma JoinerComesIn(session: Session, op: CallOp, u: UserId)
    requires op.Join?
    ensures var after := JoinSession(session, op.userId, op.now).participants;
      (u in after <==> u in session.participants || u == op.userId) &&
      (u in session.participants ==> after[u] == ParticipantAfter(session.participants[u], u, op)) &&
      (u !in session.participants && u == op.userId ==> after[u] == Participant(u, Joined, Some(op.now), Some(op.now), None, None))
  {}

  // ---------- The indexes ----------

  /** The operation takes the user's entry for `c` away though the call goes on. */
  predicate TakesOut(session: Session, op: CallOp, u: UserId) {
    match op
    case Reject(_, x, _) => u == x
    case MarkMissed(_, x, _) => u == x
    case Leave(_, x, _) => u == x
    case TimerFires(_, _) => Waits(session, u)
    case End(_, _, _) => false
    case Create(_, _, _, _, _, _) => false
    case Join(_, _, _) => false
    case MarkLogged(_, _) => false
  }

  /** A user keeps an entry until he is taken out of the call it names or that call closes, and gets one by joining. */
  lemma UserEntriesAfter(s: CallState, op: CallOp, u: UserId)
    requires Inv(s) && Allowed(s, op) && !op.Create?
    ensures var t, acts := Apply(s, op), ActsOn(s, op, op.callId);
      if op.Join? && acts && op.userId == u then u in t.userCalls && t.userCalls[u] == op.callId
      else
        (u in t.userCalls <==>
          u in s.userCalls &&
          !(acts && s.userCalls[u] == op.callId && (TakesOut(s.calls[op.callId], op, u) || Closes(s.calls[op.callId], op)))) &&
        (u in t.userCalls ==> t.userCalls[u] == s.userCalls[u])
  {
    hide Withdrawn, JoinSession, SessionConsistent;
    if u in s.userCalls { assert UserEntrySound(s, u); }
    if ActsOn(s, op, op.callId) && Withdraws(op) {
      WithdrawnClosesIff(s.calls[op.callId], op);
    } else if op.callId in s.calls {
      OthersStay(s, op, op.callId);
    }
  }

  /** A conversation keeps its entry until its call closes. */
  lemma ConversationEntriesAfter(s: CallState, op: CallOp, v: ConversationId)
    requires Inv(s) && Allowed(s, op) && !op.Create?
    ensures var t, acts := Apply(s, op), ActsOn(s, op, op.callId);
      (v in t.conversationCalls <==>
        v in s.conversationCalls && !(acts && Closes(s.calls[op.callId], op) && s.calls[op.callId].conversationId == v)) &&
      (v in t.conversationCalls ==> t.conversationCalls[v] == s.conversationCalls[v])
  {
    hide Withdrawn, JoinSession, SessionConsistent;
    if ActsOn(s, op, op.callId) && Withdraws(op) {
      WithdrawnClosesIff(s.calls[op.callId], op);
    } else if op.callId in s.calls {
      OthersStay(s, op, op.callId);
    }
  }

  // ---------- Starting a call ----------

  predicate InLiveCall(s: CallState, u: UserId) {
    u in s.userCalls && IsLive(s, s.userCalls[u])
  }

  /** A conversation can have a new call exactly when none of its calls is live. */
  lemma MayCallIff(s: CallState, op: CallOp)
    requires Inv(s) && op.Create?
    ensures Refusal(s, op) ==
      if exists c :: IsLive(s, c) && s.calls[c].conversationId == op.conversationId then Some(ConversationHasCall) else None
  {
    hide SessionConsistent;
    BusyConversationMeansIndexed(s, op.conversationId);
    if op.conversationId in s.conversationCalls { assert ConversationEntrySound(s, op.conversationId); }
    if exists c :: IsLive(s, c) && s.calls[c].conversationId == op.conversationId {
      var c :| IsLive(s, c) && s.calls[c].conversationId == op.conversationId;
      assert CallIndexed(s, c);
    }
  }

  predicate MeetsBusyCallee(s: CallState, op: CallOp)
    requires op.Create?
  {
    !op.isGroup && exists u :: u in op.calleeIds && InLiveCall(s, u)
  }

  /** The session of a new call: the caller is in it, busy callees are marked, and everybody else is rung. */
  lemma NewCallMeans(s: CallState, op: CallOp, u: UserId)
    requires op.Create?
    ensures var x := CreatedSession(s, op, BusyOrder(s, op.calleeIds));
      (u in x.participants <==> u == op.callerId || u in op.calleeIds) &&
      (u in op.calleeIds && InLiveCall(s, u) ==>
        x.participants[u] == Participant(u, Busy, Some(op.now), None, None, Some(op.now))) &&
      (u in op.calleeIds && !InLiveCall(s, u) ==>
        x.participants[u] == Participant(u, ParticipantStatus.Ringing, Some(op.now), None, None, None)) &&
      (u == op.callerId && u !in op.calleeIds ==> x.participants[u] == Participant(u, Joined, None, Some(op.now), None, None))
  {}

  lemma NewCallRecord(s: CallState, op: CallOp)
    requires op.Create?
    ensures var x, busy := CreatedSession(s, op, BusyOrder(s, op.calleeIds)), MeetsBusyCallee(s, op);
      x.callId == op.callId && x.callerId == op.callerId && x.conversationId == op.conversationId &&
      x.isGroup == op.isGroup && x.calleeIds == op.calleeIds && x.createdAt == op.now &&
      x.answeredAt == None && x.loggedMessageId == None && x.timerArmed == !busy &&
      x.status == (if busy then SessionStatus.Missed else SessionStatus.Ringing) &&
      x.endedAt == (if busy then Some(op.now) else None) && x.endedBy == (if busy then Some(User(op.callerId)) else None)
  {
    assert MeetsBusyCallee(s, op) <==> PrivateBusy(s, op.calleeIds, op.isGroup) by {
      if MeetsBusyCallee(s, op) {
        var u :| u in op.calleeIds && InLiveCall(s, u);
        assert u in BusyCallees(s, op.calleeIds);
      }
      if PrivateBusy(s, op.calleeIds, op.isGroup) {
        var u :| u in BusyCallees(s, op.calleeIds);
        assert InLiveCall(s, u);
      }
    }
  }

  /** The busy callees are listed in the order in which they were called. */
  lemma {:induction false} BusyOrderIsCallOrder(s: CallState, calleeIds: seq<UserId>, n: nat)
    requires n <= |calleeIds|
    ensures BusyOrder(s, calleeIds) == BusyOrder(s, calleeIds[..n]) + BusyOrder(s, calleeIds[n..])
    ensures n < |calleeIds| ==> (InLiveCall(s, calleeIds[n]) <==> BusyOrder(s, [calleeIds[n]]) == [calleeIds[n]])
  {
    if n == 0 {
      assert calleeIds[..0] == [] && calleeIds[0..] == calleeIds;
    } else {
      BusyOrderIsCallOrder(s, calleeIds[1..], n - 1);
      assert calleeIds[..n][1..] == calleeIds[1..][..n - 1] && calleeIds[1..][n - 1..] == calleeIds[n..];
    }
  }

  /**
   * A call that is not refused is stored with its conversation's entry and one for the caller and each callee who is
   * rung, unless it is private and the callee is in another live call: then nothing is stored at all.
   */
  lemma CreateStores(s: CallState, op: CallOp, c: CallId, u: UserId, v: ConversationId)
    requires Inv(s) && op.Create? && Refusal(s, op).None?
    ensures var t := Apply(s, op);
      if MeetsBusyCallee(s, op) then t == s
      else
        (c in t.calls <==> c == op.callId || c in s.calls) && (c != op.callId && c in s.calls ==> t.calls[c] == s.calls[c]) &&
        t.calls[op.callId] == CreatedSession(s, op, BusyOrder(s, op.calleeIds)) &&
        (v in t.conversationCalls <==> v == op.conversationId || v in s.conversationCalls) &&
        (v in t.conversationCalls ==> t.conversationCalls[v] == if v == op.conversationId then op.callId else s.conversationCalls[v]) &&
        (var rung := u == op.callerId || (u in op.calleeIds && !InLiveCall(s, u));
         (u in t.userCalls <==> rung || u in s.userCalls) &&
         (u in t.userCalls ==> t.userCalls[u] == if rung then op.callId else s.userCalls[u]))
  {
    NewCallRecord(s, op);
  }

  // ---------- Errors ----------

  /** Which error a participant's operation, and a join, is answered with. */
  lemma RefusedAs(s: CallState, op: CallOp)
    requires !op.Create?
    ensures Refusal(s, op).Some? ==> op.Join? || op.Reject? || op.MarkMissed? || op.Leave? || op.End?
    ensures op.Join? || op.Reject? || op.MarkMissed? || op.Leave? || op.End? ==>
      (Refusal(s, op).None? <==> ActsOn(s, op, op.callId)) &&
      (Refusal(s, op) == Some(CallNotFound) <==> op.callId !in s.calls)
    ensures op.Join? && op.callId in s.calls ==>
      (Refusal(s, op) == Some(AlreadyEnded) <==> !IsLive(s, op.callId)) &&
      (Refusal(s, op) == Some(UserBusy) <==> IsLive(s, op.callId) && op.userId in s.userCalls && s.userCalls[op.userId] != op.callId)
    ensures (op.Reject? || op.MarkMissed? || op.Leave? || op.End?) && op.callId in s.calls ==>
      (Refusal(s, op) == Some(NotParticipant) <==> op.userId !in s.calls[op.callId].participants) &&
      (Refusal(s, op) == Some(AlreadyEnded) <==> op.userId in s.calls[op.callId].participants && !IsLive(s, op.callId))
  {}
}
