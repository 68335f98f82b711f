/** The call service as a state machine over values: one session record per call and
    the two secondary indexes that the service keeps by hand. */
module CallModel {
  import opened Wrappers

  type UserId = string
  type CallId = string
  type ConversationId = string

  /** Milliseconds since the epoch; the clock is positive, so a stored time is truthy. */
  type Time = t: int | 0 < t witness 1

  datatype ParticipantStatus = Invited | Ringing | Joined | Declined | Missed | Left | Busy

  datatype SessionStatus = Ringing | InCall | Ended | Missed | Rejected | Cancelled

  datatype Participant = Participant(
    userId: UserId,
    status: ParticipantStatus,
    invitedAt: Option<Time>,
    joinedAt: Option<Time>,
    leftAt: Option<Time>,
    endedAt: Option<Time>
  )

  datatype EndedBy = User(id: UserId) | Timeout

  datatype Session = Session(
    callId: CallId,
    callerId: UserId,
    conversationId: ConversationId,
    isGroup: bool,
    calleeIds: seq<UserId>,
    busyUserIds: seq<UserId>,
    createdAt: Time,
    status: SessionStatus,
    answeredAt: Option<Time>,
    endedAt: Option<Time>,
    endedBy: Option<EndedBy>,
    participants: map<UserId, Participant>,
    loggedMessageId: Option<string>,
    timerArmed: bool
  )

  datatype CallState = CallState(
    calls: map<CallId, Session>,
    conversationCalls: map<ConversationId, CallId>,
    userCalls: map<UserId, CallId>
  )

  const INITIAL := CallState(map[], map[], map[])

  datatype CallError = ConversationHasCall | CallNotFound | NotParticipant | AlreadyEnded | UserBusy

  datatype CallOp =
    | Create(callId: CallId, callerId: UserId, conversationId: ConversationId,
             calleeIds: seq<UserId>, isGroup: bool, now: Time)
    | Join(callId: CallId, userId: UserId, now: Time)
    | Reject(callId: CallId, userId: UserId, now: Time)
    | MarkMissed(callId: CallId, userId: UserId, now: Time)
    | Leave(callId: CallId, userId: UserId, now: Time)
    | End(callId: CallId, userId: UserId, now: Time)
    | TimerFires(callId: CallId, now: Time)
    | MarkLogged(callId: CallId, messageId: string)

  // ---------- Predicates of the service ----------

  predicate Terminal(status: SessionStatus) {
    status in {SessionStatus.Ended, SessionStatus.Missed, SessionStatus.Rejected, SessionStatus.Cancelled}
  }

  /** The participant statuses that `endCall` and the timeout turn into MISSED. */
  predicate Waiting(status: ParticipantStatus) {
    status == ParticipantStatus.Ringing || status == Invited
  }

  /** `u` occupies a place in the session: it rings or has joined. */
  predicate LiveIn(session: Session, u: UserId) {
    u in session.participants &&
    (session.participants[u].status == Joined || session.participants[u].status == ParticipantStatus.Ringing)
  }

  predicate HasJoined(session: Session, includeCaller: bool) {
    exists u :: u in session.participants && (includeCaller || u != session.callerId) &&
                session.participants[u].status == Joined
  }

  predicate HasWaiting(session: Session) {
    exists u :: u in session.participants && Waiting(session.participants[u].status)
  }

  predicate CalleeEverJoined(session: Session) {
    exists u :: u in session.participants && u != session.callerId && session.participants[u].joinedAt.Some?
  }

  predicate UserIsBusy(s: CallState, u: UserId) {
    u in s.userCalls && s.userCalls[u] in s.calls && !Terminal(s.calls[s.userCalls[u]].status)
  }

  predicate ConversationIsBusy(s: CallState, v: ConversationId) {
    v in s.conversationCalls && s.conversationCalls[v] in s.calls &&
    !Terminal(s.calls[s.conversationCalls[v]].status)
  }

  // ---------- Index maintenance ----------

  function ReleaseUsers(userCalls: map<UserId, CallId>, users: set<UserId>, callId: CallId): map<UserId, CallId> {
    map u | u in userCalls && !(u in users && userCalls[u] == callId) :: userCalls[u]
  }

  /** Points every listed user at the call. */
  function Occupy(userCalls: map<UserId, CallId>, users: set<UserId>, callId: CallId): map<UserId, CallId> {
    map u | u in userCalls.Keys + users :: if u in users then callId else userCalls[u]
  }

  /** A session that has become terminal loses its conversation entry. */
  function ConversationsAfter(conversationCalls: map<ConversationId, CallId>, session: Session): map<ConversationId, CallId> {
    if Terminal(session.status) then conversationCalls - {session.conversationId} else conversationCalls
  }

  /** The released users lose their entries, and with a terminal session everybody in it does. */
  function UsersAfter(userCalls: map<UserId, CallId>, session: Session, released: set<UserId>): map<UserId, CallId> {
    ReleaseUsers(userCalls, if Terminal(session.status) then released + session.participants.Keys else released,
                 session.callId)
  }

  /** Stores an updated session and brings both indexes up to date. */
  function Store(s: CallState, session: Session, released: set<UserId>): CallState {
    CallState(s.calls[session.callId := session], ConversationsAfter(s.conversationCalls, session),
              UsersAfter(s.userCalls, session, released))
  }

  // ---------- Session updates ----------

  function BusyCallees(s: CallState, calleeIds: seq<UserId>): set<UserId> {
    set u | u in calleeIds && UserIsBusy(s, u)
  }

  function InvitedCallees(s: CallState, calleeIds: seq<UserId>): set<UserId> {
    set u | u in calleeIds && !UserIsBusy(s, u)
  }

  function NewParticipants(s: CallState, callerId: UserId, calleeIds: seq<UserId>, now: Time)
    : map<UserId, Participant>
  {
    map u | u in (set v | v in calleeIds) + {callerId} ::
      if u !in calleeIds then
        Participant(u, Joined, None, Some(now), None, None)
      else if UserIsBusy(s, u) then
        Participant(u, Busy, Some(now), None, None, Some(now))
      else
        Participant(u, ParticipantStatus.Ringing, Some(now), None, None, None)
  }

  predicate PrivateBusy(s: CallState, calleeIds: seq<UserId>, isGroup: bool) {
    !isGroup && BusyCallees(s, calleeIds) != {}
  }

  function JoinParticipant(session: Session, u: UserId, now: Time): Participant {
    var p := if u in session.participants then session.participants[u]
             else Participant(u, Invited, Some(now), None, None, None);
    p.(status := Joined, joinedAt := if p.joinedAt.Some? then p.joinedAt else Some(now),
       leftAt := None, endedAt := None)
  }

  function JoinSession(session: Session, u: UserId, now: Time): Session {
    session.(participants := session.participants[u := JoinParticipant(session, u, now)],
             answeredAt := if session.answeredAt.Some? then session.answeredAt else Some(now),
             status := InCall)
  }

  function Close(session: Session, status: SessionStatus, now: Time, endedBy: EndedBy): Session {
    session.(status := status, endedAt := Some(now), endedBy := Some(endedBy), timerArmed := false)
  }

  /** `rejectCall` and `markMissed` differ only in the two statuses they write. */
  function DeclineSession(session: Session, u: UserId, participantStatus: ParticipantStatus,
                          closing: SessionStatus, now: Time): Session
    requires u in session.participants
  {
    var p := session.participants[u].(status := participantStatus, endedAt := Some(now));
    var next := session.(participants := session.participants[u := p]);
    if !session.isGroup || (!HasJoined(next, false) && !HasWaiting(next))
    then Close(next, closing, now, User(u)) else next
  }

  function HangUpStatus(session: Session): SessionStatus {
    if session.answeredAt.Some? then SessionStatus.Ended else Cancelled
  }

  function LeaveSession(session: Session, u: UserId, now: Time): Session
    requires u in session.participants
  {
    var p := session.participants[u].(status := Left, leftAt := Some(now), endedAt := Some(now));
    var next := session.(participants := session.participants[u := p]);
    if !HasJoined(next, true) || !session.isGroup
    then Close(next, HangUpStatus(next), now, User(u)) else next
  }

  function EndParticipant(p: Participant, now: Time): Participant {
    if Waiting(p.status) then p.(status := ParticipantStatus.Missed, endedAt := Some(now))
    else if p.status == Joined then p.(status := Left, leftAt := Some(now), endedAt := Some(now))
    else p
  }

  function EndSession(session: Session, u: UserId, now: Time): Session {
    var ended := map v | v in session.participants :: EndParticipant(session.participants[v], now);
    Close(session.(participants := ended), HangUpStatus(session), now, User(u))
  }

  function WaitingUsers(session: Session): set<UserId> {
    set u | u in session.participants && Waiting(session.participants[u].status)
  }

  function MissParticipant(p: Participant, now: Time): Participant {
    if Waiting(p.status) then p.(status := ParticipantStatus.Missed, endedAt := Some(now)) else p
  }

  function TimeoutSession(session: Session, now: Time): Session {
    var missed := map v | v in session.participants :: MissParticipant(session.participants[v], now);
    var next := session.(participants := missed);
    if CalleeEverJoined(next) then next.(status := InCall)
    else Close(next, SessionStatus.Missed, now, Timeout)
  }

  /** The operations that only ever take people out of a call. */
  predicate Withdraws(op: CallOp) {
    op.Reject? || op.MarkMissed? || op.Leave? || op.End? || op.TimerFires?
  }

  predicate WithdrawsFrom(session: Session, op: CallOp) {
    Withdraws(op) && op.callId == session.callId &&
    (op.Reject? || op.MarkMissed? || op.Leave? ==> op.userId in session.participants)
  }

  function Withdrawn(session: Session, op: CallOp): Session
    requires WithdrawsFrom(session, op)
  {
    match op
    case Reject(_, u, now) => DeclineSession(session, u, Declined, Rejected, now)
    case MarkMissed(_, u, now) => DeclineSession(session, u, ParticipantStatus.Missed, SessionStatus.Missed, now)
    case Leave(_, u, now) => LeaveSession(session, u, now)
    case End(_, u, now) => EndSession(session, u, now)
    case TimerFires(_, now) => TimeoutSession(session, now)
  }

  /** The users whose entries go even when the call stays live. */
  function Released(session: Session, op: CallOp): set<UserId>
    requires WithdrawsFrom(session, op)
  {
    match op
    case Reject(_, u, _) => {u}
    case MarkMissed(_, u, _) => {u}
    case Leave(_, u, _) => {u}
    case End(_, _, _) => {}
    case TimerFires(_, _) => WaitingUsers(session)
  }

  // ---------- One step ----------

  /** The error the operation throws, if any; a timer that finds no live call does nothing. */
  function Refusal(s: CallState, op: CallOp): Option<CallError> {
    match op
    case Create(_, _, v, _, _, _) => if ConversationIsBusy(s, v) then Some(ConversationHasCall) else None
    case Join(c, u, _) =>
      if c !in s.calls then Some(CallNotFound)
      else if Terminal(s.calls[c].status) then Some(AlreadyEnded)
      else if u in s.userCalls && s.userCalls[u] != c then Some(UserBusy)
      else None
    case Reject(c, u, _) => ParticipantRefusal(s, c, u)
    case MarkMissed(c, u, _) => ParticipantRefusal(s, c, u)
    case Leave(c, u, _) => ParticipantRefusal(s, c, u)
    case End(c, u, _) => ParticipantRefusal(s, c, u)
    case TimerFires(_, _) => None
    case MarkLogged(_, _) => None
  }

  function ParticipantRefusal(s: CallState, c: CallId, u: UserId): Option<CallError> {
    if c !in s.calls then Some(CallNotFound)
    else if u !in s.calls[c].participants then Some(NotParticipant)
    else if Terminal(s.calls[c].status) then Some(AlreadyEnded)
    else None
  }

  function CreatedSession(s: CallState, op: CallOp, busyOrder: seq<UserId>): Session
    requires op.Create?
  {
    var private := PrivateBusy(s, op.calleeIds, op.isGroup);
    Session(op.callId, op.callerId, op.conversationId, op.isGroup, op.calleeIds, busyOrder, op.now,
            if private then SessionStatus.Missed else SessionStatus.Ringing,
            None,
            if private then Some(op.now) else None,
            if private then Some(User(op.callerId)) else None,
            NewParticipants(s, op.callerId, op.calleeIds, op.now),
            None, !private)
  }

  /** The callees in call order that are busy. */
  function BusyOrder(s: CallState, calleeIds: seq<UserId>): seq<UserId> {
    if calleeIds == [] then []
    else (if UserIsBusy(s, calleeIds[0]) then [calleeIds[0]] else []) + BusyOrder(s, calleeIds[1..])
  }

  /** Every session is stored under its own id. */
  predicate Keyed(s: CallState) {
    forall c :: c in s.calls ==> s.calls[c].callId == c
  }

  function Apply(s: CallState, op: CallOp): CallState
    requires Keyed(s)
  {
    if Refusal(s, op).Some? then s
    else if op.Create? then
      if PrivateBusy(s, op.calleeIds, op.isGroup) then s else
      CallState(s.calls[op.callId := CreatedSession(s, op, BusyOrder(s, op.calleeIds))],
                s.conversationCalls[op.conversationId := op.callId],
                Occupy(s.userCalls, InvitedCallees(s, op.calleeIds) + {op.callerId}, op.callId))
    else if op.Join? then
      CallState(s.calls[op.callId := JoinSession(s.calls[op.callId], op.userId, op.now)], s.conversationCalls,
                s.userCalls[op.userId := op.callId])
    else if op.MarkLogged? then
      if op.callId !in s.calls then s
      else s.(calls := s.calls[op.callId := s.calls[op.callId].(loggedMessageId := Some(op.messageId))])
    else if op.TimerFires? && (op.callId !in s.calls || Terminal(s.calls[op.callId].status)) then s
    else Store(s, Withdrawn(s.calls[op.callId], op), Released(s.calls[op.callId], op))
  }

  /** What the service's callers guarantee: a fresh id, and a caller who does not invite himself. */
  predicate Allowed(s: CallState, op: CallOp) {
    op.Create? ==> op.callId !in s.calls && op.callerId !in op.calleeIds
  }

  /** `states` is a run of `ops` from the empty service. */
  ghost predicate IsRun(states: seq<CallState>, ops: seq<CallOp>) {
    |states| == |ops| + 1 && states[0] == INITIAL &&
    forall i :: 0 <= i < |ops| ==>
      Keyed(states[i]) && Allowed(states[i], ops[i]) && states[i + 1] == Apply(states[i], ops[i])
  }
}
