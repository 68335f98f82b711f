/** The call service itself: mutable sessions and three maps, each operation proved to take the step
    that CallModel.Apply describes. */
module CallService {
  import opened Wrappers
  import opened Sequences
  import opened CallModel

  class CallSession {
    const callId: CallId
    const callerId: UserId
    const conversationId: ConversationId
    const isGroup: bool
    const calleeIds: seq<UserId>
    const busyUserIds: seq<UserId>
    const createdAt: Time
    var status: SessionStatus
    var answeredAt: Option<Time>
    var endedAt: Option<Time>
    var endedBy: Option<EndedBy>
    var participants: map<UserId, Participant>
    var loggedMessageId: Option<string>
    var timerArmed: bool

    constructor (s: Session)
      ensures Value() == s
    {
      callId, callerId, conversationId, isGroup := s.callId, s.callerId, s.conversationId, s.isGroup;
      calleeIds, busyUserIds, createdAt := s.calleeIds, s.busyUserIds, s.createdAt;
      status, answeredAt, endedAt, endedBy := s.status, s.answeredAt, s.endedAt, s.endedBy;
      participants, loggedMessageId, timerArmed := s.participants, s.loggedMessageId, s.timerArmed;
    }

    function Value(): Session
      reads this
    {
      Session(callId, callerId, conversationId, isGroup, calleeIds, busyUserIds, createdAt, status, answeredAt,
              endedAt, endedBy, participants, loggedMessageId, timerArmed)
    }

    /** Closing also clears the timer, as `releaseSession` does. */
    method CloseAs(closing: SessionStatus, now: Time, who: EndedBy)
      modifies this
      ensures Value() == Close(old(Value()), closing, now, who)
    {
      status, endedAt, endedBy, timerArmed := closing, Some(now), Some(who), false;
    }

    method JoinBy(userId: UserId, now: Time)
      modifies this
      ensures Value() == JoinSession(old(Value()), userId, now)
    {
      var participant := if userId in participants then participants[userId]
                         else Participant(userId, Invited, Some(now), None, None, None);
      participant := participant.(status := Joined,
        joinedAt := if participant.joinedAt.Some? then participant.joinedAt else Some(now),
        leftAt := None, endedAt := None);
      participants := participants[userId := participant];
      if answeredAt.None? { answeredAt := Some(now); }
      status := InCall;
    }

    method DeclineBy(userId: UserId, participantStatus: ParticipantStatus, closing: SessionStatus, now: Time)
      returns (terminal: bool)
      requires userId in participants && !Terminal(status) && Terminal(closing)
      modifies this
      ensures Value() == DeclineSession(old(Value()), userId, participantStatus, closing, now)
      ensures terminal == Terminal(status)
    {
      participants := participants[userId :=
        participants[userId].(status := participantStatus, endedAt := Some(now))];
      terminal := !isGroup || (!HasJoined(Value(), false) && !HasWaiting(Value()));
      if terminal { CloseAs(closing, now, User(userId)); }
    }

    method LeaveBy(userId: UserId, now: Time) returns (terminal: bool)
      requires userId in participants && !Terminal(status)
      modifies this
      ensures Value() == LeaveSession(old(Value()), userId, now)
      ensures terminal == Terminal(status)
    {
      participants := participants[userId :=
        participants[userId].(status := Left, leftAt := Some(now), endedAt := Some(now))];
      terminal := !HasJoined(Value(), true) || !isGroup;
      if terminal {
        CloseAs(if answeredAt.Some? then SessionStatus.Ended else Cancelled, now, User(userId));
      }
    }

    method EndBy(userId: UserId, now: Time)
      modifies this
      ensures Value() == EndSession(old(Value()), userId, now)
      ensures Terminal(status)
    {
      var pending := participants.Keys;
      while pending != {}
        modifies this`participants
        invariant pending <= old(participants).Keys
        invariant participants == map v | v in old(participants) ::
            if v in pending then old(participants)[v] else EndParticipant(old(participants)[v], now)
      {
        var u :| u in pending;
        var p := participants[u];
        if Waiting(p.status) {
          participants := participants[u := p.(status := ParticipantStatus.Missed, endedAt := Some(now))];
        } else if p.status == Joined {
          participants := participants[u := p.(status := Left, leftAt := Some(now), endedAt := Some(now))];
        }
        pending := pending - {u};
      }
      CloseAs(if answeredAt.Some? then SessionStatus.Ended else Cancelled, now, User(userId));
    }

    method TimeOut(now: Time) returns (missed: set<UserId>, terminal: bool)
      requires !Terminal(status)
      modifies this
      ensures Value() == TimeoutSession(old(Value()), now)
      ensures missed == WaitingUsers(old(Value())) && terminal == Terminal(status)
    {
      var pending := participants.Keys;
      missed := {};
      while pending != {}
        modifies this`participants
        invariant pending <= old(participants).Keys
        invariant missed == set u | u in old(participants) && u !in pending && Waiting(old(participants)[u].status)
        invariant participants == map v | v in old(participants) ::
            if v in pending then old(participants)[v] else MissParticipant(old(participants)[v], now)
      {
        var u :| u in pending;
        var p := participants[u];
        if Waiting(p.status) {
          participants := participants[u := p.(status := ParticipantStatus.Missed, endedAt := Some(now))];
          missed := missed + {u};
        }
        pending := pending - {u};
      }
      assert participants == map v | v in old(participants) :: MissParticipant(old(participants)[v], now);
      terminal := !CalleeEverJoined(Value());
      if terminal { CloseAs(SessionStatus.Missed, now, Timeout); } else { status := InCall; }
    }
  }

  datatype Created = Created(session: CallSession, invitedUserIds: seq<UserId>, busyUserIds: seq<UserId>)
  datatype Withdrawal = Withdrawal(session: CallSession, terminal: bool)

  class CallV2Service {
    var activeCalls: map<CallId, CallSession>
    var conversationCalls: map<ConversationId, CallId>
    var userCalls: map<UserId, CallId>

    constructor ()
      ensures Valid() && State() == INITIAL
    {
      activeCalls, conversationCalls, userCalls := map[], map[], map[];
    }

    ghost predicate Valid()
      reads this
    {
      forall c :: c in activeCalls ==> activeCalls[c].callId == c
    }

    ghost function Calls(): map<CallId, Session>
      reads this`activeCalls, activeCalls.Values
    {
      map c | c in activeCalls :: activeCalls[c].Value()
    }

    ghost function State(): (s: CallState)
      requires Valid()
      reads this, activeCalls.Values
      ensures Keyed(s)
    {
      CallState(Calls(), conversationCalls, userCalls)
    }

    method IsUserBusy(userId: UserId) returns (busy: bool)
      requires Valid()
      ensures busy == UserIsBusy(State(), userId)
    {
      busy := userId in userCalls && userCalls[userId] in activeCalls &&
        !Terminal(activeCalls[userCalls[userId]].status);
    }

    method SplitCallees(calleeIds: seq<UserId>) returns (invited: seq<UserId>, busy: seq<UserId>)
      requires Valid()
      ensures busy == BusyOrder(State(), calleeIds)
      ensures invited == InvitedOrder(State(), calleeIds)
    {
      hide UserIsBusy;
      invited, busy := [], [];
      ghost var s := State();
      for i := 0 to |calleeIds|
        invariant BusyOrder(s, calleeIds) == busy + BusyOrder(s, calleeIds[i..])
        invariant InvitedOrder(s, calleeIds) == invited + InvitedOrder(s, calleeIds[i..])
      {
        var isBusy := IsUserBusy(calleeIds[i]);
        if isBusy { busy := busy + [calleeIds[i]]; } else { invited := invited + [calleeIds[i]]; }
      }
    }

    method CreateCall(callId: CallId, callerId: UserId, conversationId: ConversationId, calleeIds: seq<UserId>,
                      isGroup: bool, now: Time) returns (r: Result<Created, CallError>)
      requires Valid() && callId !in activeCalls
      modifies this
      ensures Valid()
      ensures var op := Create(callId, callerId, conversationId, calleeIds, isGroup, now);
        State() == Apply(old(State()), op) &&
        (match r
         case Failure(e) => Refusal(old(State()), op) == Some(e)
         case Success(created) =>
           Refusal(old(State()), op).None? &&
           created.busyUserIds == BusyOrder(old(State()), calleeIds) &&
           created.invitedUserIds == InvitedOrder(old(State()), calleeIds) &&
           created.session.Value() == CreatedSession(old(State()), op, created.busyUserIds))
    {
      if conversationId in conversationCalls && conversationCalls[conversationId] in activeCalls &&
         !Terminal(activeCalls[conversationCalls[conversationId]].status)
      {
        return Failure(ConversationHasCall);
      }
      var invited, busy, session := NewSession(callId, callerId, conversationId, calleeIds, isGroup, now);
      if isGroup || |busy| == 0 {
        Register(session, invited);
        CreatedIndex(old(State()), calleeIds, callerId, callId);
      }
      return Success(Created(session, invited, busy));
    }

    method NewSession(callId: CallId, callerId: UserId, conversationId: ConversationId, calleeIds: seq<UserId>,
                      isGroup: bool, now: Time)
      returns (invited: seq<UserId>, busy: seq<UserId>, session: CallSession)
      requires Valid()
      ensures fresh(session)
      ensures busy == BusyOrder(State(), calleeIds) && invited == InvitedOrder(State(), calleeIds)
      ensures !isGroup && |busy| > 0 <==> PrivateBusy(State(), calleeIds, isGroup)
      ensures session.Value() ==
        CreatedSession(State(), Create(callId, callerId, conversationId, calleeIds, isGroup, now), busy)
    {
      invited, busy := SplitCallees(calleeIds);
      var participants := BuildParticipants(callerId, invited, busy, now);
      PartsAgree(State(), callerId, calleeIds, now);
      BusyOrderEmpty(State(), calleeIds);
      var privateBusy := !isGroup && |busy| > 0;
      session := new CallSession(
        Session(callId, callerId, conversationId, isGroup, calleeIds, busy, now,
                if privateBusy then SessionStatus.Missed else SessionStatus.Ringing, None,
                if privateBusy then Some(now) else None, if privateBusy then Some(User(callerId)) else None,
                participants, None, !privateBusy));
    }

    method Register(session: CallSession, invited: seq<UserId>)
      requires Valid() && session.callId !in activeCalls
      modifies this
      ensures Valid()
      ensures State() == CallState(
        old(State()).calls[session.callId := session.Value()],
        old(conversationCalls)[session.conversationId := session.callId],
        Occupy(old(userCalls)[session.callerId := session.callId], Elements(invited), session.callId))
    {
      AddSession(session);
      userCalls := userCalls[session.callerId := session.callId];
      IndexUsers(invited, session.callId);
    }

    method AddSession(session: CallSession)
      requires Valid() && session.callId !in activeCalls
      modifies this`activeCalls, this`conversationCalls
      ensures Valid()
      ensures Calls() == old(Calls())[session.callId := session.Value()]
      ensures conversationCalls == old(conversationCalls)[session.conversationId := session.callId]
    {
      activeCalls := activeCalls[session.callId := session];
      conversationCalls := conversationCalls[session.conversationId := session.callId];
    }

    method IndexUsers(users: seq<UserId>, callId: CallId)
      modifies this`userCalls
      ensures userCalls == Occupy(old(userCalls), Elements(users), callId)
    {
      for i := 0 to |users|
        invariant userCalls == Occupy(old(userCalls), Elements(users[..i]), callId)
      {
        assert users[..i + 1] == users[..i] + [users[i]];
        userCalls := userCalls[users[i] := callId];
      }
      assert users[..|users|] == users;
    }

    method JoinCall(callId: CallId, userId: UserId, now: Time) returns (r: Result<CallSession, CallError>)
      requires Valid()
      modifies this`userCalls, activeCalls.Values
      ensures Valid() && State() == Apply(old(State()), Join(callId, userId, now))
      ensures match r
        case Failure(e) => Refusal(old(State()), Join(callId, userId, now)) == Some(e)
        case Success(session) =>
          Refusal(old(State()), Join(callId, userId, now)).None? && session == activeCalls[callId]
    {
      if callId !in activeCalls { return Failure(CallNotFound); }
      var session := activeCalls[callId];
      if Terminal(session.status) { return Failure(AlreadyEnded); }
      if userId in userCalls && userCalls[userId] != callId { return Failure(UserBusy); }
      session.JoinBy(userId, now);
      userCalls := userCalls[userId := callId];
      SessionWritten(session);
      r := Success(session);
    }

    method ReleaseUser(userId: UserId, callId: CallId)
      modifies this`userCalls
      ensures userCalls == ReleaseUsers(old(userCalls), {userId}, callId)
    {
      if userId in userCalls && userCalls[userId] == callId {
        userCalls := userCalls - {userId};
      }
    }

    method ReleaseEach(users: set<UserId>, callId: CallId)
      modifies this`userCalls
      ensures userCalls == ReleaseUsers(old(userCalls), users, callId)
    {
      var pending := users;
      while pending != {}
        invariant pending <= users
        invariant userCalls == ReleaseUsers(old(userCalls), users - pending, callId)
      {
        var u :| u in pending;
        ReleaseUser(u, callId);
        pending := pending - {u};
      }
      assert users - {} == users;
    }

    /** `releaseUser` for the given users and, once the session is closed, `releaseSession`. */
    method Release(session: CallSession, users: set<UserId>)
      modifies this`conversationCalls, this`userCalls
      ensures conversationCalls == ConversationsAfter(old(conversationCalls), session.Value())
      ensures userCalls == UsersAfter(old(userCalls), session.Value(), users)
    {
      ReleaseEach(users, session.callId);
      if Terminal(session.status) {
        conversationCalls := conversationCalls - {session.conversationId};
        ReleaseEach(session.participants.Keys, session.callId);
      }
    }

    /** The checks shared by every operation on behalf of a participant. */
    method FindForParticipant(callId: CallId, userId: UserId) returns (r: Result<CallSession, CallError>)
      requires Valid()
      ensures match r
        case Failure(e) => ParticipantRefusal(State(), callId, userId) == Some(e)
        case Success(session) =>
          ParticipantRefusal(State(), callId, userId).None? && callId in activeCalls && session == activeCalls[callId]
    {
      if callId !in activeCalls { return Failure(CallNotFound); }
      var session: CallSession := activeCalls[callId];
      if userId !in session.participants { return Failure(NotParticipant); }
      if Terminal(session.status) { return Failure(AlreadyEnded); }
      return Success(session);
    }

    method DeclineIn(session: CallSession, userId: UserId, participantStatus: ParticipantStatus,
                     closing: SessionStatus, now: Time) returns (terminal: bool)
      requires Valid() && session.callId in activeCalls && activeCalls[session.callId] == session
      requires userId in session.participants && !Terminal(session.status)
      modifies this`conversationCalls, this`userCalls, session
      ensures Valid() && session.callId in activeCalls && activeCalls[session.callId] == session
      requires Terminal(closing)
      ensures terminal == Terminal(session.status)
      ensures State() ==
        Store(old(State()), DeclineSession(old(session.Value()), userId, participantStatus, closing, now), {userId})
    {
      hide ConversationsAfter, UsersAfter, DeclineSession;
      terminal := session.DeclineBy(userId, participantStatus, closing, now);
      Release(session, {userId});
      SessionWritten(session);
    }

    method LeaveIn(session: CallSession, userId: UserId, now: Time) returns (terminal: bool)
      requires Valid() && session.callId in activeCalls && activeCalls[session.callId] == session
      requires userId in session.participants && !Terminal(session.status)
      modifies this`conversationCalls, this`userCalls, session
      ensures Valid() && session.callId in activeCalls && activeCalls[session.callId] == session
      ensures terminal == Terminal(session.status)
      ensures State() == Store(old(State()), LeaveSession(old(session.Value()), userId, now), {userId})
    {
      hide ConversationsAfter, UsersAfter, LeaveSession;
      terminal := session.LeaveBy(userId, now);
      Release(session, {userId});
      SessionWritten(session);
    }

    method EndIn(session: CallSession, userId: UserId, now: Time)
      requires Valid() && session.callId in activeCalls && activeCalls[session.callId] == session
      requires userId in session.participants && !Terminal(session.status)
      modifies this`conversationCalls, this`userCalls, session
      ensures Valid() && session.callId in activeCalls && activeCalls[session.callId] == session
      ensures Terminal(session.status)
      ensures State() == Store(old(State()), EndSession(old(session.Value()), userId, now), {})
    {
      hide ConversationsAfter, UsersAfter, EndSession;
      session.EndBy(userId, now);
      Release(session, {});
      SessionWritten(session);
    }

    method RejectCall(callId: CallId, userId: UserId, now: Time) returns (r: Result<Withdrawal, CallError>)
      requires Valid()
      modifies this`conversationCalls, this`userCalls, activeCalls.Values
      ensures Valid() && State() == Apply(old(State()), Reject(callId, userId, now))
      ensures Reports(old(State()), Reject(callId, userId, now), r)
    {
      hide Store, DeclineSession, LeaveSession, EndSession;
      var found := FindForParticipant(callId, userId);
      if found.Failure? { return Failure(found.error); }
      var session := found.value;
      var terminal := DeclineIn(session, userId, Declined, Rejected, now);
      return Success(Withdrawal(session, terminal));
    }

    method MarkMissedCall(callId: CallId, userId: UserId, now: Time) returns (r: Result<Withdrawal, CallError>)
      requires Valid()
      modifies this`conversationCalls, this`userCalls, activeCalls.Values
      ensures Valid() && State() == Apply(old(State()), MarkMissed(callId, userId, now))
      ensures Reports(old(State()), MarkMissed(callId, userId, now), r)
    {
      hide Store, DeclineSession, LeaveSession, EndSession;
      var found := FindForParticipant(callId, userId);
      if found.Failure? { return Failure(found.error); }
      var session := found.value;
      var terminal := DeclineIn(session, userId, ParticipantStatus.Missed, SessionStatus.Missed, now);
      return Success(Withdrawal(session, terminal));
    }

    method LeaveCall(callId: CallId, userId: UserId, now: Time) returns (r: Result<Withdrawal, CallError>)
      requires Valid()
      modifies this`conversationCalls, this`userCalls, activeCalls.Values
      ensures Valid() && State() == Apply(old(State()), Leave(callId, userId, now))
      ensures Reports(old(State()), Leave(callId, userId, now), r)
    {
      hide Store, DeclineSession, LeaveSession, EndSession;
      var found := FindForParticipant(callId, userId);
      if found.Failure? { return Failure(found.error); }
      var session := found.value;
      var terminal := LeaveIn(session, userId, now);
      return Success(Withdrawal(session, terminal));
    }

    method EndCall(callId: CallId, userId: UserId, now: Time) returns (r: Result<Withdrawal, CallError>)
      requires Valid()
      modifies this`conversationCalls, this`userCalls, activeCalls.Values
      ensures Valid() && State() == Apply(old(State()), End(callId, userId, now))
      ensures Reports(old(State()), End(callId, userId, now), r)
    {
      hide Store, DeclineSession, LeaveSession, EndSession;
      var found := FindForParticipant(callId, userId);
      if found.Failure? { return Failure(found.error); }
      var session := found.value;
      EndIn(session, userId, now);
      var terminal := true;
      return Success(Withdrawal(session, terminal));
    }

    /** The timer's callback: the users it marked missed, and whether it closed the call. */
    method HandleTimeout(callId: CallId, now: Time) returns (missed: set<UserId>, terminal: bool)
      requires Valid()
      modifies this`conversationCalls, this`userCalls, activeCalls.Values
      ensures Valid() && State() == Apply(old(State()), TimerFires(callId, now))
      ensures missed == if callId in old(State()).calls && !Terminal(old(State()).calls[callId].status)
                        then WaitingUsers(old(State()).calls[callId]) else {}
      ensures terminal <==>
        (callId in old(State()).calls && !Terminal(old(State()).calls[callId].status) &&
         Terminal(State().calls[callId].status))
    {
      hide ConversationsAfter, UsersAfter, TimeoutSession;
      if callId !in activeCalls || Terminal(activeCalls[callId].status) { return {}, false; }
      var session := activeCalls[callId];
      missed, terminal := session.TimeOut(now);
      Release(session, missed);
      SessionWritten(session);
    }

    method MarkAsLogged(callId: CallId, messageId: string)
      requires Valid()
      modifies activeCalls.Values
      ensures Valid() && State() == Apply(old(State()), MarkLogged(callId, messageId))
    {
      if callId in activeCalls {
        activeCalls[callId].loggedMessageId := Some(messageId);
        SessionWritten(activeCalls[callId]);
      }
    }

    /** How an operation on behalf of a participant answers. */
    ghost predicate Reports(before: CallState, op: CallOp, r: Result<Withdrawal, CallError>)
      requires Valid()
      reads this, activeCalls.Values
    {
      match r
      case Failure(e) => Refusal(before, op) == Some(e)
      case Success(w) =>
        Refusal(before, op).None? && op.callId in activeCalls && w.session == activeCalls[op.callId] &&
        w.terminal == Terminal(w.session.status)
    }

    /** The abstract call map after one session has been written. */
    twostate lemma SessionWritten(session: CallSession)
      requires old(Valid()) && Valid() && activeCalls == old(activeCalls)
      requires session.callId in activeCalls && activeCalls[session.callId] == session
      requires forall c :: c in activeCalls && c != session.callId ==> unchanged(activeCalls[c])
      ensures Calls() == old(Calls())[session.callId := session.Value()]
    {
    }
  }

  function Parts(callerId: UserId, ringing: set<UserId>, busy: set<UserId>, now: Time): map<UserId, Participant> {
    map u | u in ringing + busy + {callerId} ::
      if u in busy then Participant(u, Busy, Some(now), None, None, Some(now))
      else if u in ringing then Participant(u, ParticipantStatus.Ringing, Some(now), None, None, None)
      else Participant(u, Joined, None, Some(now), None, None)
  }

  method BuildParticipants(callerId: UserId, invited: seq<UserId>, busy: seq<UserId>, now: Time)
    returns (participants: map<UserId, Participant>)
    ensures participants == Parts(callerId, Elements(invited), Elements(busy), now)
  {
    hide Elements;
    participants := map[callerId := Participant(callerId, Joined, None, Some(now), None, None)];
    assert Elements<UserId>([]) == {} by { NoElements(); }
    for i := 0 to |invited|
      invariant participants == Parts(callerId, Elements(invited[..i]), {}, now)
    {
      var u := invited[i];
      assert invited[..i + 1] == invited[..i] + [u];
      AppendElement(invited[..i], u);
      participants := participants[u := Participant(u, ParticipantStatus.Ringing, Some(now), None, None, None)];
    }
    assert invited[..|invited|] == invited;
    for i := 0 to |busy|
      invariant participants == Parts(callerId, Elements(invited), Elements(busy[..i]), now)
    {
      var u := busy[i];
      assert busy[..i + 1] == busy[..i] + [u];
      AppendElement(busy[..i], u);
      participants := participants[u := Participant(u, Busy, Some(now), None, None, Some(now))];
    }
    assert busy[..|busy|] == busy;
  }

  lemma NoElements()
    ensures Elements<UserId>([]) == {}
  {}

  lemma PartsAgree(s: CallState, callerId: UserId, calleeIds: seq<UserId>, now: Time)
    ensures Parts(callerId, Elements(InvitedOrder(s, calleeIds)), Elements(BusyOrder(s, calleeIds)), now)
      == NewParticipants(s, callerId, calleeIds, now)
  {
    OrdersSplit(s, calleeIds);
  }

  function InvitedOrder(s: CallState, calleeIds: seq<UserId>): seq<UserId> {
    if calleeIds == [] then []
    else (if UserIsBusy(s, calleeIds[0]) then [] else [calleeIds[0]]) + InvitedOrder(s, calleeIds[1..])
  }

  /** The two filtered lists hold exactly the busy and the free callees. */
  lemma {:induction false} OrdersSplit(s: CallState, calleeIds: seq<UserId>)
    ensures forall u :: u in BusyOrder(s, calleeIds) <==> u in BusyCallees(s, calleeIds)
    ensures forall u :: u in InvitedOrder(s, calleeIds) <==> u in InvitedCallees(s, calleeIds)
  {
    if calleeIds != [] {
      OrdersSplit(s, calleeIds[1..]);
      assert calleeIds == [calleeIds[0]] + calleeIds[1..];
    }
  }

  lemma BusyOrderEmpty(s: CallState, calleeIds: seq<UserId>)
    ensures BusyOrder(s, calleeIds) == [] <==> BusyCallees(s, calleeIds) == {}
  {
    OrdersSplit(s, calleeIds);
    if BusyOrder(s, calleeIds) != [] { assert BusyOrder(s, calleeIds)[0] in BusyCallees(s, calleeIds); }
    if BusyCallees(s, calleeIds) != {} {
      var u :| u in BusyCallees(s, calleeIds);
      assert u in BusyOrder(s, calleeIds);
    }
  }

  lemma CreatedIndex(s: CallState, calleeIds: seq<UserId>, callerId: UserId, c: CallId)
    ensures Occupy(s.userCalls[callerId := c], Elements(InvitedOrder(s, calleeIds)), c)
      == Occupy(s.userCalls, InvitedCallees(s, calleeIds) + {callerId}, c)
  {
    OrdersSplit(s, calleeIds);
    assert Elements(InvitedOrder(s, calleeIds)) == InvitedCallees(s, calleeIds);
  }
}
