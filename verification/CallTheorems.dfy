/** The promises of the call service over whole runs. */
module CallTheorems {
  import opened Wrappers
  import opened CallModel
  import opened CallInvariants

  // ---------- One live call per conversation ----------

  lemma OneLiveCallPerConversation(states: seq<CallState>, ops: seq<CallOp>, i: nat, c: CallId, d: CallId)
    requires IsRun(states, ops) && i < |states|
    requires c in states[i].calls && !Terminal(states[i].calls[c].status)
    requires d in states[i].calls && !Terminal(states[i].calls[d].status)
    requires states[i].calls[c].conversationId == states[i].calls[d].conversationId
    ensures c == d
  {
    ReachableStatesKeepInv(states, ops, i);
    assert CallIndexed(states[i], c) && CallIndexed(states[i], d);
  }

  /** Closing a call drops its own conversation entry and no other one. */
  lemma ClosingDropsOnlyItsOwnEntry(states: seq<CallState>, ops: seq<CallOp>, i: nat, v: ConversationId)
    requires IsRun(states, ops) && i < |ops|
    requires v in states[i].conversationCalls && v !in states[i + 1].conversationCalls
    ensures var c := states[i].conversationCalls[v];
      c in states[i].calls && !Terminal(states[i].calls[c].status) &&
      c in states[i + 1].calls && Terminal(states[i + 1].calls[c].status)
  {
    ReachableStatesKeepInv(states, ops, i);
    ReachableStatesKeepInv(states, ops, i + 1);
    var s, t, c := states[i], states[i + 1], states[i].conversationCalls[v];
    assert ConversationEntrySound(s, v);
    CallsPersist(s, ops[i], c);
    assert CallIndexed(t, c);
  }

  // ---------- Who is in which call ----------

  lemma CompleteAfterStore(s: CallState, session: Session, released: set<UserId>)
    requires Inv(s) && UserIndexComplete(s) && session.callId in s.calls
    requires Successor(s.calls[session.callId], session, released)
    requires forall u :: LiveIn(session, u) ==> LiveIn(s.calls[session.callId], u) && u !in released
    ensures UserIndexComplete(Store(s, session, released))
  {
    var t := Store(s, session, released);
    forall c, u | c in t.calls && !Terminal(t.calls[c].status) && LiveIn(t.calls[c], u)
      ensures u in t.userCalls && t.userCalls[u] == c
    {
      assert LiveIn(s.calls[c], u);
    }
  }

  lemma CompleteAfterJoin(s: CallState, op: CallOp)
    requires Inv(s) && UserIndexComplete(s) && op.Join? && Refusal(s, op).None?
    ensures UserIndexComplete(Apply(s, op))
  {
    hide SessionConsistent, JoinParticipant;
    var t := Apply(s, op);
    JoinedSessionConsistent(s.calls[op.callId], op.userId, op.now);
    forall c, u | c in t.calls && !Terminal(t.calls[c].status) && LiveIn(t.calls[c], u)
      ensures u in t.userCalls && t.userCalls[u] == c
    {
      assert u != op.userId || c != op.callId ==> LiveIn(s.calls[c], u);
    }
  }

  /** Starting a call keeps the user index complete exactly when the caller is in no other call. */
  lemma CreateKeepsCompleteIffCallerFree(s: CallState, op: CallOp)
    requires Inv(s) && UserIndexComplete(s) && op.Create? && Allowed(s, op)
    requires Refusal(s, op).None? && !PrivateBusy(s, op.calleeIds, op.isGroup)
    ensures UserIndexComplete(Apply(s, op)) <==> !UserIsBusy(s, op.callerId)
  {
    hide SessionConsistent, BusyOrder, NewParticipants;
    var t := Apply(s, op);
    if UserIsBusy(s, op.callerId) {
      assert UserEntrySound(s, op.callerId);
      var c := s.userCalls[op.callerId];
      assert t.calls[c] == s.calls[c] && LiveIn(t.calls[c], op.callerId) && t.userCalls[op.callerId] != c;
    } else {
      forall c, u | c in t.calls && !Terminal(t.calls[c].status) && LiveIn(t.calls[c], u)
        ensures u in t.userCalls && t.userCalls[u] == c
      {
        BusyMeansIndexed(s, u);
        if c == op.callId {
          NewSessionOccupants(s, op, u);
        } else {
          assert LiveIn(s.calls[c], u);
        }
      }
    }
  }

  /** A busy caller who starts another call is live in both, and the index knows only of the second. */
  lemma BusyCallerIsInTwoCalls(s: CallState, op: CallOp)
    requires Inv(s) && op.Create? && Allowed(s, op) && UserIsBusy(s, op.callerId)
    requires Refusal(s, op).None? && !PrivateBusy(s, op.calleeIds, op.isGroup)
    ensures var t, c := Apply(s, op), s.userCalls[op.callerId];
      c != op.callId && c in t.calls && !Terminal(t.calls[c].status) && LiveIn(t.calls[c], op.callerId) &&
      op.callId in t.calls && !Terminal(t.calls[op.callId].status) && LiveIn(t.calls[op.callId], op.callerId) &&
      op.callerId in t.userCalls && t.userCalls[op.callerId] == op.callId
  {
    hide SessionConsistent, BusyOrder, NewParticipants;
    assert UserEntrySound(s, op.callerId);
    NewSessionConsistent(s, op);
    NewSessionOccupants(s, op, op.callerId);
  }

  /** For any user, two people to call and two conversations: two calls in a row leave the user in both. */
  lemma CallingTwice(u: UserId, x: UserId, y: UserId, v: ConversationId, w: ConversationId, c: CallId, d: CallId)
    returns (states: seq<CallState>, ops: seq<CallOp>)
    requires u != x && u != y && x != y && v != w && c != d
    ensures IsRun(states, ops) && ops == [Create(c, u, v, [x], false, 1), Create(d, u, w, [y], false, 2)]
    ensures var t := states[2];
      c in t.calls && d in t.calls && !Terminal(t.calls[c].status) && !Terminal(t.calls[d].status) &&
      LiveIn(t.calls[c], u) && LiveIn(t.calls[d], u) && u in t.userCalls && t.userCalls[u] == d
  {
    hide Apply, Inv, IsRun, Allowed, Refusal, PrivateBusy, LiveIn, UserIsBusy;
    var first, second := Create(c, u, v, [x], false, 1), Create(d, u, w, [y], false, 2);
    FirstCall(first, x);
    var s := Apply(INITIAL, first);
    SecondCallIsAllowed(s, first, second, x, y);
    BusyCallerIsInTwoCalls(s, second);
    states, ops := [INITIAL, s, Apply(s, second)], [first, second];
    TwoSteps(states, ops);
  }

  /** After the first call its two users are indexed, and its conversation. */
  ghost predicate OnlyCall(s: CallState, op: CallOp, x: UserId)
    requires op.Create?
  {
    s.userCalls == map[x := op.callId, op.callerId := op.callId] && s.conversationCalls == map[op.conversationId := op.callId] &&
    s.calls.Keys == {op.callId} && s.calls[op.callId].callId == op.callId && !Terminal(s.calls[op.callId].status)
  }

  lemma FirstCall(op: CallOp, x: UserId)
    requires op.Create? && op.calleeIds == [x] && x != op.callerId
    ensures Allowed(INITIAL, op) && Inv(Apply(INITIAL, op)) && OnlyCall(Apply(INITIAL, op), op, x)
  {
    hide Inv, NewParticipants, BusyOrder, SessionConsistent;
    InitialIsSound();
    assert InvitedCallees(INITIAL, [x]) == {x} && BusyCallees(INITIAL, [x]) == {};
    StepKeepsInv(INITIAL, op);
    var s := Apply(INITIAL, op);
    CreatedConversation(INITIAL, op);
    NewSessionConsistent(INITIAL, op);
    assert s.userCalls == map[x := op.callId, op.callerId := op.callId];
  }

  lemma SecondCallIsAllowed(s: CallState, first: CallOp, second: CallOp, x: UserId, y: UserId)
    requires first.Create? && second.Create? && OnlyCall(s, first, x)
    requires second.callerId == first.callerId && second.calleeIds == [y] && y != x && y != second.callerId
    requires second.conversationId != first.conversationId && second.callId != first.callId
    ensures Allowed(s, second) && Refusal(s, second).None? && !PrivateBusy(s, [y], second.isGroup)
    ensures UserIsBusy(s, second.callerId) && s.userCalls[second.callerId] == first.callId
  {
    assert BusyCallees(s, [y]) == {};
  }

  lemma TwoSteps(states: seq<CallState>, ops: seq<CallOp>)
    requires |states| == 3 && |ops| == 2 && states[0] == INITIAL
    requires Keyed(states[0]) && Allowed(states[0], ops[0]) && states[1] == Apply(states[0], ops[0])
    requires Keyed(states[1]) && Allowed(states[1], ops[1]) && states[2] == Apply(states[1], ops[1])
    ensures IsRun(states, ops)
  {
    hide Apply, Allowed;
    forall i | 0 <= i < 2 ensures Keyed(states[i]) && Allowed(states[i], ops[i]) && states[i + 1] == Apply(states[i], ops[i]) {
      if i == 0 {} else { assert i == 1; }
    }
  }

  lemma InitialIsSound()
    ensures Inv(INITIAL)
  {}

  lemma CreatedConversation(s: CallState, op: CallOp)
    requires op.Create?
    ensures CreatedSession(s, op, BusyOrder(s, op.calleeIds)).conversationId == op.conversationId
    ensures CreatedSession(s, op, BusyOrder(s, op.calleeIds)).callId == op.callId
  {}

  lemma WithdrawalAddsNobody(session: Session, op: CallOp, u: UserId)
    requires WithdrawsFrom(session, op)
    ensures LiveIn(Withdrawn(session, op), u) ==> LiveIn(session, u) && u !in Released(session, op)
  {
  }

  lemma CompleteAfterWithdrawal(s: CallState, op: CallOp)
    requires Inv(s) && UserIndexComplete(s) && op.callId in s.calls && !Terminal(s.calls[op.callId].status)
    requires WithdrawsFrom(s.calls[op.callId], op)
    ensures UserIndexComplete(Apply(s, op))
  {
    var session := s.calls[op.callId];
    WithdrawnIsSuccessor(session, op);
    forall u ensures LiveIn(Withdrawn(session, op), u) ==> LiveIn(session, u) && u !in Released(session, op) {
      WithdrawalAddsNobody(session, op, u);
    }
    CompleteAfterStore(s, Withdrawn(session, op), Released(session, op));
  }

  lemma StepKeepsComplete(s: CallState, op: CallOp)
    requires Inv(s) && UserIndexComplete(s) && Allowed(s, op)
    requires op.Create? ==> !UserIsBusy(s, op.callerId)
    ensures UserIndexComplete(Apply(s, op))
  {
    var t := Apply(s, op);
    if t == s {
    } else if op.Create? {
      CreateKeepsCompleteIffCallerFree(s, op);
    } else if op.Join? {
      CompleteAfterJoin(s, op);
    } else if op.MarkLogged? {
      forall c, u | c in t.calls && !Terminal(t.calls[c].status) && LiveIn(t.calls[c], u)
        ensures u in t.userCalls && t.userCalls[u] == c
      {
        assert LiveIn(s.calls[c], u);
      }
    } else {
      CompleteAfterWithdrawal(s, op);
    }
  }

  /** When nobody starts a call while in one, the user index says exactly who rings or talks where. */
  lemma {:induction false} UserIndexIsExact(states: seq<CallState>, ops: seq<CallOp>, i: nat)
    requires IsRun(states, ops) && CallersAreFree(states, ops) && i < |states|
    ensures UserIndexSound(states[i]) && UserIndexComplete(states[i])
  {
    ReachableStatesKeepInv(states, ops, i);
    if i > 0 {
      UserIndexIsExact(states, ops, i - 1);
      ReachableStatesKeepInv(states, ops, i - 1);
      StepKeepsComplete(states[i - 1], ops[i - 1]);
    }
  }

  lemma NobodyIsInTwoCalls(states: seq<CallState>, ops: seq<CallOp>, i: nat, u: UserId, c: CallId, d: CallId)
    requires IsRun(states, ops) && CallersAreFree(states, ops) && i < |states|
    requires c in states[i].calls && !Terminal(states[i].calls[c].status) && LiveIn(states[i].calls[c], u)
    requires d in states[i].calls && !Terminal(states[i].calls[d].status) && LiveIn(states[i].calls[d], u)
    ensures c == d
  {
    UserIndexIsExact(states, ops, i);
  }

  // ---------- No abandoned call ----------

  /** Somebody is connected to every live call. */
  ghost predicate Attended(s: CallState) {
    forall c {:trigger HasJoined(s.calls[c], true)} ::
      c in s.calls && !Terminal(s.calls[c].status) ==> HasJoined(s.calls[c], true)
  }

  predicate AnotherJoined(session: Session, u: UserId) {
    exists v :: v in session.participants && v != u && session.participants[v].status == Joined
  }

  predicate AnotherWaits(session: Session, u: UserId) {
    exists v :: v in session.participants && v != u && Waiting(session.participants[v].status)
  }

  /** The declines after which a live call is still attended: it is private (and so closes), or the decliner was
      not connected, or somebody else is, or nobody else rings (and so it closes). */
  predicate SafeDecline(session: Session, u: UserId)
    requires u in session.participants
  {
    !session.isGroup || session.participants[u].status != Joined || AnotherJoined(session, u) || !AnotherWaits(session, u)
  }

  lemma DeclineKeepsAttendedIff(session: Session, u: UserId, p: ParticipantStatus, closing: SessionStatus, now: Time)
    requires SessionConsistent(session) && !Terminal(session.status) && HasJoined(session, true)
    requires u in session.participants && (p == Declined || p == ParticipantStatus.Missed)
    requires closing == Rejected || closing == SessionStatus.Missed
    ensures var next := DeclineSession(session, u, p, closing, now);
      (Terminal(next.status) || HasJoined(next, true)) <==> SafeDecline(session, u)
  {
    var next := DeclineSession(session, u, p, closing, now);
    if AnotherJoined(session, u) {
      var v :| v in session.participants && v != u && session.participants[v].status == Joined;
      assert v in next.participants && next.participants[v].status == Joined;
    } else if AnotherWaits(session, u) {
      var v :| v in session.participants && v != u && Waiting(session.participants[v].status);
      assert v in next.participants && Waiting(next.participants[v].status);
    } else {
      var w :| w in session.participants && session.participants[w].status == Joined;
      assert w == u;
    }
  }

  /** The declining steps that every caller of the service would have to avoid. */
  predicate Considerate(s: CallState, op: CallOp) {
    (op.Reject? || op.MarkMissed?) && op.callId in s.calls && op.userId in s.calls[op.callId].participants ==>
      SafeDecline(s.calls[op.callId], op.userId)
  }

  lemma LeaveKeepsAttended(session: Session, u: UserId, now: Time)
    requires u in session.participants
    ensures var next := LeaveSession(session, u, now); Terminal(next.status) || HasJoined(next, true)
  {
    var p := session.participants[u].(status := Left, leftAt := Some(now), endedAt := Some(now));
    var next := session.(participants := session.participants[u := p]);
    if HasJoined(next, true) {
      var v :| v in next.participants && next.participants[v].status == Joined;
      assert v in LeaveSession(session, u, now).participants;
    }
  }

  lemma TimeoutKeepsAttended(session: Session, now: Time)
    requires SessionConsistent(session) && !Terminal(session.status) && HasJoined(session, true)
    ensures HasJoined(TimeoutSession(session, now), true)
    ensures !HasWaiting(TimeoutSession(session, now))
  {
    hide CalleeEverJoined, SessionConsistent;
    var v :| v in session.participants && session.participants[v].status == Joined;
    assert v in TimeoutSession(session, now).participants;
  }

  lemma WithdrawalKeepsAttended(session: Session, op: CallOp)
    requires SessionConsistent(session) && !Terminal(session.status) && HasJoined(session, true)
    requires WithdrawsFrom(session, op)
    requires op.Reject? || op.MarkMissed? ==> SafeDecline(session, op.userId)
    ensures var next := Withdrawn(session, op); Terminal(next.status) || HasJoined(next, true)
  {
    match op
    case Reject(_, u, now) => DeclineKeepsAttendedIff(session, u, Declined, Rejected, now);
    case MarkMissed(_, u, now) =>
      DeclineKeepsAttendedIff(session, u, ParticipantStatus.Missed, SessionStatus.Missed, now);
    case Leave(_, u, now) => LeaveKeepsAttended(session, u, now);
    case End(_, _, _) =>
    case TimerFires(_, now) => TimeoutKeepsAttended(session, now);
  }

  lemma ChangedCallStaysAttended(s: CallState, op: CallOp)
    requires Inv(s) && Attended(s) && Allowed(s, op) && Considerate(s, op) && Apply(s, op) != s
    ensures op.callId in Apply(s, op).calls
    ensures var after := Apply(s, op).calls[op.callId]; Terminal(after.status) || HasJoined(after, true)
  {
    var t, c := Apply(s, op), op.callId;
    if op.Create? {
      assert op.callerId in t.calls[c].participants;
    } else if op.Join? {
      assert op.userId in t.calls[c].participants;
    } else if op.MarkLogged? {
      if !Terminal(s.calls[c].status) {
        assert HasJoined(s.calls[c], true);
        assert t.calls[c].participants == s.calls[c].participants;
        var v :| v in s.calls[c].participants && s.calls[c].participants[v].status == Joined;
        assert v in t.calls[c].participants;
      }
    } else {
      assert HasJoined(s.calls[c], true);
      WithdrawalKeepsAttended(s.calls[c], op);
    }
  }

  lemma NewCallsAreNamed(s: CallState, op: CallOp, c: CallId)
    requires Keyed(s) && c in Apply(s, op).calls && c != op.callId
    ensures c in s.calls && Apply(s, op).calls[c] == s.calls[c]
  {
  }

  /** Every considerate step keeps all live calls attended; the timeout, joins and leaves always are. */
  lemma StepKeepsAttended(s: CallState, op: CallOp)
    requires Inv(s) && Attended(s) && Allowed(s, op) && Considerate(s, op)
    ensures Attended(Apply(s, op))
  {
    var t := Apply(s, op);
    if t != s {
      forall c | c in t.calls && !Terminal(t.calls[c].status) ensures HasJoined(t.calls[c], true) {
        if c == op.callId {
          ChangedCallStaysAttended(s, op);
        } else {
          NewCallsAreNamed(s, op, c);
          assert HasJoined(s.calls[c], true);
        }
      }
    }
  }

  lemma {:induction false} NoAbandonedCall(states: seq<CallState>, ops: seq<CallOp>, i: nat)
    requires IsRun(states, ops) && i < |states|
    requires forall k :: 0 <= k < |ops| ==> Considerate(states[k], ops[k])
    ensures Attended(states[i])
  {
    if i > 0 {
      NoAbandonedCall(states, ops, i - 1);
      ReachableStatesKeepInv(states, ops, i - 1);
      StepKeepsAttended(states[i - 1], ops[i - 1]);
    }
  }

  // ---------- A session's life ----------

  /** No step removes a call, and only the named call changes. */
  lemma CallsPersist(s: CallState, op: CallOp, c: CallId)
    requires Keyed(s) && c in s.calls
    ensures c in Apply(s, op).calls
    ensures c != op.callId ==> Apply(s, op).calls[c] == s.calls[c]
  {
  }

  /** What one step may do to one call: a closed call only gains its log id; in a live one no answer is
      withdrawn, nobody starts to ring and nobody's first joining time moves. */
  ghost predicate Aged(before: Session, after: Session) {
    (Terminal(before.status) ==> after == before.(loggedMessageId := after.loggedMessageId)) &&
    (before.answeredAt.Some? ==> after.answeredAt == before.answeredAt) &&
    before.participants.Keys <= after.participants.Keys &&
    (forall u :: u in after.participants && after.participants[u].status == ParticipantStatus.Ringing ==>
      u in before.participants && before.participants[u].status == ParticipantStatus.Ringing) &&
    (forall u :: u in before.participants && before.participants[u].joinedAt.Some? ==>
      after.participants[u].joinedAt == before.participants[u].joinedAt)
  }

  ghost predicate AgedBetween(s: CallState, t: CallState, c: CallId) {
    c in s.calls && c in t.calls && Aged(s.calls[c], t.calls[c])
  }

  lemma DeclineAges(session: Session, u: UserId, p: ParticipantStatus, closing: SessionStatus, now: Time)
    requires u in session.participants && !Terminal(session.status) && (p == Declined || p == ParticipantStatus.Missed)
    ensures Aged(session, DeclineSession(session, u, p, closing, now))
  {
    hide HasJoined, HasWaiting;
  }

  lemma LeaveAges(session: Session, u: UserId, now: Time)
    requires u in session.participants && !Terminal(session.status)
    ensures Aged(session, LeaveSession(session, u, now))
  {
    hide HasJoined;
  }

  lemma EndAges(session: Session, u: UserId, now: Time)
    requires !Terminal(session.status)
    ensures Aged(session, EndSession(session, u, now))
  {}

  lemma TimeoutAges(session: Session, now: Time)
    requires !Terminal(session.status)
    ensures Aged(session, TimeoutSession(session, now))
  {
    hide CalleeEverJoined;
  }

  lemma WithdrawalAges(session: Session, op: CallOp)
    requires WithdrawsFrom(session, op) && !Terminal(session.status)
    ensures Aged(session, Withdrawn(session, op))
  {
    hide Aged, DeclineSession, LeaveSession, EndSession, TimeoutSession;
    match op
    case Reject(_, u, now) => DeclineAges(session, u, Declined, Rejected, now);
    case MarkMissed(_, u, now) => DeclineAges(session, u, ParticipantStatus.Missed, SessionStatus.Missed, now);
    case Leave(_, u, now) => LeaveAges(session, u, now);
    case End(_, u, now) => EndAges(session, u, now);
    case TimerFires(_, now) => TimeoutAges(session, now);
  }

  lemma JoinAges(session: Session, u: UserId, now: Time)
    requires !Terminal(session.status)
    ensures Aged(session, JoinSession(session, u, now))
  {
  }

  lemma StepAges(s: CallState, op: CallOp, c: CallId)
    requires Keyed(s) && Allowed(s, op) && c in s.calls
    ensures AgedBetween(s, Apply(s, op), c)
  {
    CallsPersist(s, op, c);
    if c == op.callId && Apply(s, op) != s {
      if op.Join? {
        JoinAges(s.calls[c], op.userId, op.now);
      } else if Withdraws(op) {
        WithdrawalAges(s.calls[c], op);
      }
    }
  }

  lemma AgedTransitive(a: CallState, b: CallState, t: CallState, c: CallId)
    requires AgedBetween(a, b, c) && AgedBetween(b, t, c)
    ensures AgedBetween(a, t, c)
  {
  }

  /** From any moment of a run to any later one: a closed call is frozen except for its log id, answers stay,
      and the set of ringing participants only shrinks. */
  lemma {:induction false} SessionsOnlyAge(states: seq<CallState>, ops: seq<CallOp>, i: nat, j: nat, c: CallId)
    requires IsRun(states, ops) && i <= j < |states| && c in states[i].calls
    ensures AgedBetween(states[i], states[j], c)
    decreases j
  {
    hide Aged, Apply, Allowed, Inv, Keyed;
    if i < j {
      SessionsOnlyAge(states, ops, i, j - 1, c);
      ReachableStatesKeepInv(states, ops, j - 1);
      StepAges(states[j - 1], ops[j - 1], c);
      AgedTransitive(states[i], states[j - 1], states[j], c);
    } else {
      NothingHasAged(states[i], c);
    }
  }

  lemma NothingHasAged(s: CallState, c: CallId)
    requires c in s.calls
    ensures AgedBetween(s, s, c)
  {}

  /** How calls end: ENDED only after an answer, CANCELLED only without one, IN_CALL exactly from the answer on. */
  lemma StatusTellsTheStory(states: seq<CallState>, ops: seq<CallOp>, i: nat, c: CallId)
    requires IsRun(states, ops) && i < |states| && c in states[i].calls
    ensures var session := states[i].calls[c];
      (session.status == SessionStatus.Ended ==> session.answeredAt.Some?) &&
      (session.status == Cancelled ==> session.answeredAt.None?) &&
      (session.status == InCall ==> session.answeredAt.Some?) &&
      (session.status == SessionStatus.Ringing ==> session.answeredAt.None?) &&
      (session.timerArmed ==> !Terminal(session.status))
  {
    ReachableStatesKeepInv(states, ops, i);
  }

  // ---------- What goes wrong otherwise ----------

  const STORY: seq<CallOp> :=
    [Create("c", "ann", "room", ["bob", "cy"], true, 1), Join("c", "bob", 2), Leave("c", "ann", 3),
     Reject("c", "bob", 4), TimerFires("c", 5)]

  /** The story's call: the given people joined, the given people ring, and it has been answered or not. */
  ghost predicate StoryCall(s: CallState, joined: set<UserId>, ringing: set<UserId>, answered: bool) {
    s.calls.Keys == {"c"} &&
    var session := s.calls["c"];
    session.callId == "c" && session.callerId == "ann" && session.isGroup &&
    session.status == (if answered then InCall else SessionStatus.Ringing) &&
    session.participants.Keys == {"ann", "bob", "cy"} &&
    (forall u :: u in session.participants ==>
      (session.participants[u].status == Joined <==> u in joined) &&
      (Waiting(session.participants[u].status) <==> u in ringing)) &&
    (answered ==> session.participants["bob"].joinedAt.Some?)
  }

  lemma StoryCast()
    ensures var people := NewParticipants(INITIAL, "ann", ["bob", "cy"], 1);
      people.Keys == {"ann", "bob", "cy"} && people["ann"].status == Joined &&
      people["bob"].status == ParticipantStatus.Ringing && people["cy"].status == ParticipantStatus.Ringing
    ensures !PrivateBusy(INITIAL, ["bob", "cy"], true) && !ConversationIsBusy(INITIAL, "room")
  {
    assert ["bob", "cy"][0] == "bob" && ["bob", "cy"][1] == "cy";
    assert NewParticipants(INITIAL, "ann", ["bob", "cy"], 1).Keys == {"ann", "bob", "cy"};
  }

  lemma StoryOpens(op: CallOp)
    requires op == STORY[0]
    ensures Allowed(INITIAL, op) && StoryCall(Apply(INITIAL, op), {"ann"}, {"bob", "cy"}, false)
    ensures forall u :: u in Apply(INITIAL, op).userCalls ==> Apply(INITIAL, op).userCalls[u] == "c"
  {
    hide BusyOrder, NewParticipants, PrivateBusy, ConversationIsBusy, InvitedCallees;
    StoryCast();
    var s := Apply(INITIAL, op);
    assert s.calls.Keys == {"c"};
    assert s.calls["c"].participants == NewParticipants(INITIAL, "ann", ["bob", "cy"], 1);
  }

  lemma StoryJoins(s: CallState, op: CallOp)
    requires op == STORY[1]
    requires StoryCall(s, {"ann"}, {"bob", "cy"}, false)
    requires forall u :: u in s.userCalls ==> s.userCalls[u] == "c"
    ensures StoryCall(Apply(s, op), {"ann", "bob"}, {"cy"}, true)
  {
  }

  lemma StoryLeaves(s: CallState, op: CallOp)
    requires op == STORY[2]
    requires StoryCall(s, {"ann", "bob"}, {"cy"}, true)
    ensures StoryCall(Apply(s, op), {"bob"}, {"cy"}, true)
  {
    var before, after := s.calls["c"], Apply(s, op).calls["c"];
    assert before.participants["bob"].status == Joined;
    var p := before.participants["ann"].(status := Left, leftAt := Some(3), endedAt := Some(3));
    var next := before.(participants := before.participants["ann" := p]);
    assert "bob" in next.participants && next.participants["bob"].status == Joined;
    assert HasJoined(next, true);
  }

  lemma StoryDeclines(s: CallState, op: CallOp)
    requires op == STORY[3]
    requires StoryCall(s, {"bob"}, {"cy"}, true)
    ensures StoryCall(Apply(s, op), {}, {"cy"}, true)
  {
    var before := s.calls["c"];
    var p := before.participants["bob"].(status := Declined, endedAt := Some(4));
    var next := before.(participants := before.participants["bob" := p]);
    assert "cy" in next.participants && Waiting(next.participants["cy"].status);
    assert HasWaiting(next);
  }

  lemma StoryTimesOut(s: CallState, op: CallOp)
    requires op == STORY[4]
    requires StoryCall(s, {}, {"cy"}, true)
    ensures StoryCall(Apply(s, op), {}, {}, true)
  {
    var before := s.calls["c"];
    var missed := map v | v in before.participants :: MissParticipant(before.participants[v], 5);
    assert "bob" in missed && missed["bob"].joinedAt.Some? && "bob" != "ann";
    assert CalleeEverJoined(before.(participants := missed));
  }

  ghost predicate StoryStage(i: nat, s: CallState) {
    match i
    case 0 => s == INITIAL
    case 1 => StoryCall(s, {"ann"}, {"bob", "cy"}, false) && forall u :: u in s.userCalls ==> s.userCalls[u] == "c"
    case 2 => StoryCall(s, {"ann", "bob"}, {"cy"}, true)
    case 3 => StoryCall(s, {"bob"}, {"cy"}, true)
    case 4 => StoryCall(s, {}, {"cy"}, true)
    case _ => StoryCall(s, {}, {}, true)
  }

  lemma StoryStep(i: nat, s: CallState, op: CallOp)
    requires i < 5 && op == STORY[i] && StoryStage(i, s)
    ensures Keyed(s) && Allowed(s, op) && StoryStage(i + 1, Apply(s, op))
  {
    if i == 0 { StoryOpens(op); }
    else if i == 1 { StoryJoins(s, op); }
    else if i == 2 { StoryLeaves(s, op); }
    else if i == 3 { StoryDeclines(s, op); }
    else { StoryTimesOut(s, op); }
  }

  lemma RunExtends(states: seq<CallState>, ops: seq<CallOp>, op: CallOp) returns (longer: seq<CallState>)
    requires IsRun(states, ops) && Keyed(states[|ops|]) && Allowed(states[|ops|], op)
    ensures IsRun(longer, ops + [op]) && longer[|ops| + 1] == Apply(states[|ops|], op)
  {
    hide Apply, Keyed, Allowed;
    longer := states + [Apply(states[|ops|], op)];
  }

  lemma RunLength(states: seq<CallState>, ops: seq<CallOp>)
    requires IsRun(states, ops)
    ensures |states| == |ops| + 1
  {}

  lemma StoryAdvances(i: nat, states: seq<CallState>, op: CallOp) returns (longer: seq<CallState>)
    requires i < 5 && op == STORY[i] && IsRun(states, STORY[..i]) && StoryStage(i, states[i])
    ensures IsRun(longer, STORY[..i] + [op]) && StoryStage(i + 1, longer[i + 1])
  {
    hide StoryStage, Apply, Allowed, Keyed, IsRun;
    assert |states| == i + 1 by { RunLength(states, STORY[..i]); }
    StoryStep(i, states[i], op);
    longer := RunExtends(states, STORY[..i], op);
  }

  lemma StoryUnfolds(i: nat) returns (states: seq<CallState>)
    requires i <= 5
    ensures IsRun(states, STORY[..i]) && StoryStage(i, states[i])
  {
    if i == 0 {
      states := [INITIAL];
    } else {
      states := StoryUnfolds(i - 1);
      states := StoryAdvances(i - 1, states, STORY[i - 1]);
      assert STORY[..i - 1] + [STORY[i - 1]] == STORY[..i];
    }
  }

  /** A group call in which a connected callee declines after the caller has left, while a third user rings: the
      call stays live with nobody connected, and the timeout does not close it. */
  lemma DecliningWhileConnectedAbandonsTheCall() returns (states: seq<CallState>)
    ensures IsRun(states, STORY) && CallersAreFree(states, STORY)
    ensures "c" in states[5].calls && states[5].calls["c"].status == InCall && !HasJoined(states[5].calls["c"], true)
  {
    states := StoryUnfolds(5);
    assert STORY[..5] == STORY;
    assert forall i :: 0 < i < 5 ==> !STORY[i].Create?;
  }
}
