/**
 * What interleaved exchanges and logins do to sessions: when a session still has its own tokens, when a user has two
 * web sessions, and when a user who has been logged out stays so.
 */
module AuthRaceSessions {
  import opened Wrappers
  import opened AuthModel
  import opened AuthTheorems
  import opened AuthSafety
  import opened AuthExpiry
  import opened AuthRaces

  // ---------- Sessions and their own tokens ----------

  /** An exchange has spent the token and not yet written the session it belongs to. */
  ghost predicate Spending(s: Race, jti: Jti) {
    exists c :: c in s.calls && Spends(s, c, jti)
  }

  predicate Spends(s: Race, c: CallId, jti: Jti) {
    c in s.calls && HasPair(s.calls[c]) && s.calls[c].token.jti == jti
  }

  ghost predicate SessionBacked(s: Race, d: DeviceId) {
    d in s.auth.sessions ==>
      (var x := s.auth.sessions[d];
       KnownAt(s.auth, x.userId, x.version) && (Backed(s.auth, d) || Spending(s, x.refreshJti)))
  }

  ghost predicate AllBacked(s: Race) {
    forall d {:trigger SessionBacked(s, d)} :: SessionBacked(s, d)
  }

  /** The session that an exchange is about to write back is another user's than its token. */
  predicate MixesUsers(s: Race, step: RaceStep) {
    step.Put? && step.call in s.calls && s.calls[step.call].Updating? &&
    s.calls[step.call].session.userId != s.calls[step.call].token.sub
  }

  lemma EvolvedBacked(s: Race, after: Race, d: DeviceId)
    requires Evolves(s.auth, after.auth) && SessionBacked(s, d)
    requires forall c, j :: Spends(s, c, j) ==> Spends(after, c, j)
    ensures SessionBacked(after, d)
  {
    hide Sound, TokensStay;
    if d in after.auth.sessions {
      assert Stays(s.auth, after.auth, d) || Arrives(s.auth, after.auth, d);
      if Stays(s.auth, after.auth, d) && !Backed(s.auth, d) {
        var c :| c in s.calls && Spends(s, c, s.auth.sessions[d].refreshJti);
        assert Spends(after, c, s.auth.sessions[d].refreshJti);
      }
    }
  }

  lemma WriteKeepsBacked(s: Race, c: CallId, f: Fresh, d: DeviceId)
    requires RaceInv(s) && Enabled(s, Write(c, f)) && SessionBacked(s, d)
    ensures SessionBacked(RaceApply(s, Write(c, f)), d)
  {
    hide PairApart, CallSound, AllKnown, JtisApart;
    var after := RaceApply(s, Write(c, f));
    if d in s.auth.sessions {
      var jti := s.auth.sessions[d].refreshJti;
      if jti == s.calls[c].token.jti {
        assert Spends(after, c, jti);
      } else if !Backed(s.auth, d) {
        var e :| e in s.calls && Spends(s, e, jti);
        assert Spends(after, e, jti);
      }
    }
  }

  lemma ReadKeepsBacked(s: Race, c: CallId, d: DeviceId)
    requires RaceInv(s) && Enabled(s, Read(c)) && SessionBacked(s, d)
    ensures SessionBacked(RaceApply(s, Read(c)), d)
  {
    hide PairApart, AllKnown, JtisApart, PairWaits;
    var after := RaceApply(s, Read(c));
    if d in s.auth.sessions && !Backed(s.auth, d) {
      var jti := s.auth.sessions[d].refreshJti;
      var e :| e in s.calls && Spends(s, e, jti);
      if e == c { assert Claims(s.auth, d, jti); }
      assert Spends(after, e, jti);
    }
  }

  lemma PutKeepsOthersBacked(s: Race, c: CallId, d: DeviceId)
    requires RaceInv(s) && Enabled(s, Put(c)) && SessionBacked(s, d) && d != s.calls[c].token.deviceId
    ensures SessionBacked(RaceApply(s, Put(c)), d)
  {
    hide PairApart, AllKnown, JtisApart, PairWaits;
    var after := RaceApply(s, Put(c));
    if d in s.auth.sessions && !Backed(s.auth, d) {
      var jti := s.auth.sessions[d].refreshJti;
      var e :| e in s.calls && Spends(s, e, jti);
      assert !Claims(s.auth, d, s.calls[c].token.jti);
      assert Spends(after, e, jti);
    }
  }

  lemma PutIsBackedIff(s: Race, c: CallId)
    requires RaceInv(s) && Enabled(s, Put(c))
    ensures SessionBacked(RaceApply(s, Put(c)), s.calls[c].token.deviceId) <==> !MixesUsers(s, Put(c))
  {
    hide AllKnown, JtisApart;
    var p, after := s.calls[c], RaceApply(s, Put(c));
    assert !Spending(after, p.tokens.refreshJti) by {
      forall e | e in after.calls ensures !Spends(after, e, p.tokens.refreshJti) {
        assert PairApart(p, s.calls[e], c == e);
      }
    }
    assert CallSound(s.auth, p);
  }

  /** A step keeps every session with its own tokens exactly when it does not write one user's token into another's session. */
  lemma StepKeepsBackedIff(s: Race, step: RaceStep)
    requires RaceInv(s) && AllBacked(s) && Enabled(s, step)
    ensures AllBacked(RaceApply(s, step)) <==> !MixesUsers(s, step)
  {
    hide RaceInv, SessionBacked, Evolves, BeforeLogin, Issue, Apply, Reused, RefreshRefusal;
    var after := RaceApply(s, step);
    if step.Put? {
      var d := s.calls[step.call].token.deviceId;
      PutIsBackedIff(s, step.call);
      forall e | e != d ensures SessionBacked(after, e) { PutKeepsOthersBacked(s, step.call, e); }
    } else {
      forall d ensures SessionBacked(after, d) {
        assert SessionBacked(s, d);
        match step
        case Write(c, f) => WriteKeepsBacked(s, c, f, d);
        case Read(c) => ReadKeepsBacked(s, c, d);
        case _ =>
          StepEvolves(s, step);
          EvolvedBacked(s, after, d);
      }
    }
  }

  /** Up to any point of an interleaving every session has had its own tokens exactly when no exchange mixed two users. */
  lemma {:induction false} RacesKeepBackedIff(states: seq<Race>, steps: seq<RaceStep>, n: nat)
    requires IsRace(states, steps) && n <= |steps|
    ensures (forall i :: 0 <= i <= n ==> AllBacked(states[i])) <==> (forall k :: 0 <= k < n ==> !MixesUsers(states[k], steps[k]))
  {
    hide AllBacked, MixesUsers, RaceInv, RaceApply, Enabled;
    if n == 0 {
      assert AllBacked(states[0]) by { EmptyIsBacked(); }
    } else {
      RacesKeepBackedIff(states, steps, n - 1);
      ReachableRacesKeepInv(states, steps, n - 1);
      assert IsRaceStep(states[n - 1], steps[n - 1], states[n]);
      if AllBacked(states[n - 1]) { StepKeepsBackedIff(states[n - 1], steps[n - 1]); }
    }
  }

  lemma EmptyIsBacked()
    ensures AllBacked(Race(EMPTY, map[]))
  {}

  /** No exchange is between spending its token and writing its session. */
  predicate Quiet(s: Race) {
    forall c :: c in s.calls ==> !HasPair(s.calls[c])
  }

  /** Whenever no exchange is under way, what every run of whole use cases keeps holds after interleaved ones too. */
  lemma QuietRacesKeepInv(states: seq<Race>, steps: seq<RaceStep>, n: nat)
    requires IsRace(states, steps) && n <= |steps| && Quiet(states[n])
    requires forall k :: 0 <= k < n ==> !MixesUsers(states[k], steps[k])
    ensures Inv(states[n].auth)
  {
    hide MixesUsers, RaceApply, Enabled, CallSound, PairApart;
    RacesKeepBackedIff(states, steps, n);
    ReachableRacesKeepInv(states, steps, n);
    var s := states[n];
    assert AllBacked(s);
    forall d ensures SessionSound(s.auth, d) { assert SessionBacked(s, d) && Known(s.auth, d); }
  }

  // ---------- Two web sessions ----------

  /** The step writes a web session of the user while he has another one elsewhere. */
  ghost predicate WritesSecondWeb(s: Race, step: RaceStep, u: UserId) {
    (step.FinishLogin? && step.call in s.calls && IsWebLogin(s.calls[step.call], u) &&
     !NoOtherWeb(s.auth, u, s.calls[step.call].deviceId)) ||
    (PutsWeb(s, step, u) && !NoOtherWeb(s.auth, u, s.calls[step.call].token.deviceId))
  }

  predicate IsWebLogin(p: Progress, u: UserId) {
    p.LoggingIn? && p.platform == WEB && p.userId == u
  }

  predicate PutsWeb(s: Race, step: RaceStep, u: UserId) {
    step.Put? && step.call in s.calls && s.calls[step.call].Updating? &&
    s.calls[step.call].session.userId == u && s.calls[step.call].session.platform == WEB
  }

  /** The step writes a session for the user: a login, a registration, or an exchange that has read one of his. */
  predicate GivesSession(s: Race, step: RaceStep, u: UserId) {
    (step.FinishLogin? && step.call in s.calls && s.calls[step.call].LoggingIn? && s.calls[step.call].userId == u) ||
    (step.Put? && step.call in s.calls && s.calls[step.call].Updating? && s.calls[step.call].session.userId == u) ||
    (step.Do? && step.op.Register? && step.op.userId == u && !step.op.taken && !step.op.awaitsEmail)
  }

  lemma OtherStepsAddNone(s: Race, step: RaceStep)
    requires Enabled(s, step) && !step.FinishLogin? && !step.Put? && !(step.Do? && step.op.Register?)
    ensures NoNewSessions(s.auth, RaceApply(s, step).auth)
  {
    hide BeforeLogin, RevokeDevices, Apply;
    match step
    case Check(_, t) =>
      if t.jti in s.auth.used { RevokeAddsNone(s.auth, {s.auth.used[t.jti].deviceId}); }
    case Write(_, _) =>
    case Read(_) =>
    case StartLogin(_, u, d, platform) => BeforeLoginAddsNone(s.auth, u, d, platform);
    case Do(op) => OthersAddNone(s.auth, op);
  }

  lemma PutKeepsOneWebIff(s: AuthState, d: DeviceId, x: Session, u: UserId)
    requires OneWeb(s, u)
    ensures OneWeb(PutSession(s, d, x), u) <==> (x.userId == u && x.platform == WEB ==> NoOtherWeb(s, u, d))
  {
    var after := PutSession(s, d, x);
    forall e | e != d ensures IsWeb(after, u, e) == IsWeb(s, u, e) {}
    assert IsWeb(after, u, d) <==> x.userId == u && x.platform == WEB;
  }

  lemma RegisterKeepsOneWeb(s: AuthState, op: AuthOp, u: UserId)
    requires AllKnown(s) && op.Register? && Allowed(s, op) && OneWeb(s, u)
    ensures OneWeb(Apply(s, op), u)
  {
    hide OneWeb, NoOtherWeb, Issue;
    if Refusal(s, op).None? {
      var created := s.(users := s.users[op.userId := User(1, false)]);
      SameSessions(s, created, u);
      NoWebYet(s, created, op.userId, op.deviceId);
      IssueKeepsOneWebIff(created, op.userId, op.deviceId, op.platform, 1, op.tokens, u);
    }
  }

  lemma NoWebYet(s: AuthState, after: AuthState, u: UserId, d: DeviceId)
    requires AllKnown(s) && u !in s.users && after.sessions == s.sessions
    ensures NoOtherWeb(after, u, d)
  {
    forall e ensures !IsWeb(after, u, e) { assert Known(s, e); }
  }

  lemma RaceStepKeepsOneWebIff(s: Race, step: RaceStep, u: UserId)
    requires RaceInv(s) && Enabled(s, step) && OneWeb(s.auth, u)
    ensures OneWeb(RaceApply(s, step).auth, u) <==> !WritesSecondWeb(s, step, u)
  {
    hide CallsSound, AllKnown, OneWeb, NoOtherWeb, NoNewSessions, BeforeLogin, Issue, Apply, Reused, PutSession;
    if step.FinishLogin? {
      var l := s.calls[step.call];
      IssueKeepsOneWebIff(s.auth, l.userId, l.deviceId, l.platform, l.version, step.tokens, u);
    } else if step.Put? {
      var p := s.calls[step.call];
      PutKeepsOneWebIff(s.auth, p.token.deviceId, Renewed(p.session, p.token, p.tokens), u);
    } else if step.Do? && step.op.Register? {
      RegisterKeepsOneWeb(s.auth, step.op, u);
    } else {
      OtherStepsAddNone(s, step);
      FewerStayOne(s.auth, RaceApply(s, step).auth, u);
    }
  }

  /**
   * Up to any point of an interleaving a user has had at most one web session at a time if and only if no login and
   * no exchange wrote him one while he had another.
   */
  lemma {:induction false} OneWebInRacesIff(states: seq<Race>, steps: seq<RaceStep>, u: UserId, n: nat)
    requires IsRace(states, steps) && n <= |steps|
    ensures (forall i :: 0 <= i <= n ==> OneWeb(states[i].auth, u)) <==>
      (forall k :: 0 <= k < n ==> !WritesSecondWeb(states[k], steps[k], u))
  {
    hide OneWeb, WritesSecondWeb, RaceInv, RaceApply, Enabled;
    if n == 0 {
      assert OneWeb(states[0].auth, u) by { NothingToList(u); }
    } else {
      OneWebInRacesIff(states, steps, u, n - 1);
      ReachableRacesKeepInv(states, steps, n - 1);
      assert IsRaceStep(states[n - 1], steps[n - 1], states[n]);
      if OneWeb(states[n - 1].auth, u) { RaceStepKeepsOneWebIff(states[n - 1], steps[n - 1], u); }
    }
  }

  // ---------- The three causes of a second web session ----------

  /** A web login starts while another web session of the user is not in his index. */
  ghost predicate StartsUnlisted(s: Race, step: RaceStep, u: UserId) {
    step.StartLogin? && step.userId == u && step.platform == WEB && !OtherWebListed(s.auth, u, step.deviceId)
  }

  /** A web login is written while another one of the user, on another device, is under way. */
  predicate LoginsOverlap(s: Race, step: RaceStep, u: UserId) {
    step.FinishLogin? && step.call in s.calls && IsWebLogin(s.calls[step.call], u) &&
    exists c :: c in s.calls && IsWebLogin(s.calls[c], u) && s.calls[c].deviceId != s.calls[step.call].deviceId
  }

  /** An exchange writes back a web session of the user that has ended since it was read. */
  predicate Revives(s: Race, step: RaceStep, u: UserId) {
    PutsWeb(s, step, u) && !IsWeb(s.auth, u, s.calls[step.call].token.deviceId)
  }

  /** Every web login of the user under way has ended all his other web sessions. */
  ghost predicate LoginsClear(s: Race, u: UserId) {
    forall c :: c in s.calls && IsWebLogin(s.calls[c], u) ==> NoOtherWeb(s.auth, u, s.calls[c].deviceId)
  }

  lemma FewerStayClear(s: Race, after: Race, c: CallId, p: Progress, u: UserId)
    requires LoginsClear(s, u) && NoNewSessions(s.auth, after.auth)
    requires after.calls == s.calls || after.calls == s.calls[c := p]
    requires IsWebLogin(p, u) ==> NoOtherWeb(after.auth, u, p.deviceId)
    ensures LoginsClear(after, u)
  {
    FewerStayOne(s.auth, after.auth, u);
  }

  lemma FinishStaysClear(s: Race, step: RaceStep, u: UserId)
    requires step.FinishLogin? && Enabled(s, step) && LoginsClear(s, u) && !LoginsOverlap(s, step, u)
    ensures LoginsClear(RaceApply(s, step), u)
  {
    var l, after := s.calls[step.call], RaceApply(s, step);
    forall c | c in after.calls && IsWebLogin(after.calls[c], u) ensures NoOtherWeb(after.auth, u, after.calls[c].deviceId) {
      assert after.calls[c] == s.calls[c];
      forall e | IsWeb(after.auth, u, e) ensures e == after.calls[c].deviceId { assert e == l.deviceId || IsWeb(s.auth, u, e); }
    }
  }

  lemma PutStaysClear(s: Race, step: RaceStep, u: UserId)
    requires step.Put? && Enabled(s, step) && LoginsClear(s, u) && !Revives(s, step, u)
    ensures LoginsClear(RaceApply(s, step), u)
  {
    var after := RaceApply(s, step);
    forall e | IsWeb(after.auth, u, e) ensures IsWeb(s.auth, u, e) {}
    forall c | c in after.calls && IsWebLogin(after.calls[c], u) ensures NoOtherWeb(after.auth, u, after.calls[c].deviceId) {
      assert after.calls[c] == s.calls[c];
    }
  }

  lemma RegisterStaysClear(s: Race, op: AuthOp, u: UserId)
    requires RaceInv(s) && op.Register? && Allowed(s.auth, op) && LoginsClear(s, u)
    ensures LoginsClear(s.(auth := Apply(s.auth, op)), u)
  {
    hide TokensSound, AllKnown, JtisApart, PairWaits, PairApart;
    var after := s.(auth := Apply(s.auth, op));
    forall c | c in s.calls && IsWebLogin(s.calls[c], u) ensures NoOtherWeb(after.auth, u, s.calls[c].deviceId) {
      assert CallSound(s.auth, s.calls[c]);
      forall e | IsWeb(after.auth, u, e) ensures IsWeb(s.auth, u, e) {}
    }
  }

  lemma StepStaysClear(s: Race, step: RaceStep, u: UserId)
    requires RaceInv(s) && Enabled(s, step) && LoginsClear(s, u)
    requires !StartsUnlisted(s, step, u) && !LoginsOverlap(s, step, u) && !Revives(s, step, u)
    ensures LoginsClear(RaceApply(s, step), u)
  {
    hide RaceInv, LoginsClear, NoOtherWeb, NoNewSessions, BeforeLogin, Issue, Apply, Reused, PutSession, RefreshRefusal;
    var after := RaceApply(s, step);
    match step
    case FinishLogin(_, _) => FinishStaysClear(s, step, u);
    case Put(_) => PutStaysClear(s, step, u);
    case StartLogin(c, v, d, platform) =>
      OtherStepsAddNone(s, step);
      ClearedIff(s.auth, v, d);
      FewerStayClear(s, after, c, after.calls[c], u);
    case Do(op) =>
      if op.Register? { RegisterStaysClear(s, op, u); } else {
        OtherStepsAddNone(s, step);
        FewerStayClear(s, after, 0, Finished, u);
      }
    case _ =>
      OtherStepsAddNone(s, step);
      FewerStayClear(s, after, step.call, after.calls[step.call], u);
  }

  /** Without an unlisted session, overlapping logins or a revived session, a user has one web session at most. */
  lemma {:induction false} OneWebUnlessRaced(states: seq<Race>, steps: seq<RaceStep>, u: UserId, i: nat)
    requires IsRace(states, steps) && i <= |steps|
    requires forall k :: 0 <= k < i ==>
      !StartsUnlisted(states[k], steps[k], u) && !LoginsOverlap(states[k], steps[k], u) && !Revives(states[k], steps[k], u)
    ensures LoginsClear(states[i], u) && OneWeb(states[i].auth, u)
  {
    hide OneWeb, LoginsClear, StartsUnlisted, LoginsOverlap, Revives, WritesSecondWeb, RaceInv, RaceApply, Enabled;
    if i == 0 {
      assert LoginsClear(states[0], u) && OneWeb(states[0].auth, u) by { NobodyLogsIn(u); }
    } else {
      var s, step := states[i - 1], steps[i - 1];
      OneWebUnlessRaced(states, steps, u, i - 1);
      ReachableRacesKeepInv(states, steps, i - 1);
      assert IsRaceStep(s, step, states[i]);
      StepStaysClear(s, step, u);
      ClearWritesNoSecond(s, step, u);
      RaceStepKeepsOneWebIff(s, step, u);
    }
  }

  lemma ClearWritesNoSecond(s: Race, step: RaceStep, u: UserId)
    requires LoginsClear(s, u) && OneWeb(s.auth, u) && !Revives(s, step, u)
    ensures !WritesSecondWeb(s, step, u)
  {}

  lemma NobodyLogsIn(u: UserId)
    ensures LoginsClear(Race(EMPTY, map[]), u) && OneWeb(EMPTY, u)
  {}

  // ---------- Staying logged out ----------

  ghost predicate HasNone(s: AuthState, u: UserId) {
    forall d :: !Owns(s, u, d)
  }

  /** A user without a session gets one exactly by a login, a registration, or an exchange that had read one of his. */
  lemma StepKeepsNoneIff(s: Race, step: RaceStep, u: UserId)
    requires Enabled(s, step) && HasNone(s.auth, u)
    ensures HasNone(RaceApply(s, step).auth, u) <==> !GivesSession(s, step, u)
  {
    hide BeforeLogin, RevokeDevices, Reused, RefreshRefusal, Issue;
    var after := RaceApply(s, step);
    if step.FinishLogin? {
      var l := s.calls[step.call];
      IssueGivesOne(s.auth, l.userId, l.deviceId, l.platform, l.version, step.tokens, u);
    } else if step.Put? {
      var p := s.calls[step.call];
      PutGivesOne(s.auth, p.token.deviceId, Renewed(p.session, p.token, p.tokens), u);
    } else if step.Do? && step.op.Register? {
      RegisterGivesOne(s.auth, step.op, u);
    } else {
      OtherStepsAddNone(s, step);
      FewerStayOne(s.auth, after.auth, u);
    }
  }

  lemma RegisterGivesOne(s: AuthState, op: AuthOp, u: UserId)
    requires op.Register? && HasNone(s, u)
    ensures HasNone(Apply(s, op), u) <==> !(op.userId == u && !op.taken && !op.awaitsEmail)
  {
    hide Issue;
    if !op.taken {
      var created := s.(users := s.users[op.userId := User(1, false)]);
      forall d ensures !Owns(created, u, d) { assert !Owns(s, u, d); }
      IssueGivesOne(created, op.userId, op.deviceId, op.platform, 1, op.tokens, u);
    }
  }

  lemma PutGivesOne(s: AuthState, d: DeviceId, x: Session, u: UserId)
    requires HasNone(s, u)
    ensures HasNone(PutSession(s, d, x), u) <==> x.userId != u
  {
    var after := PutSession(s, d, x);
    assert Owns(after, x.userId, d);
    forall e | e != d ensures !Owns(after, u, e) { assert !Owns(s, u, e); }
  }

  lemma IssueGivesOne(s: AuthState, v: UserId, d: DeviceId, platform: Platform, version: nat, f: Fresh, u: UserId)
    requires HasNone(s, u)
    ensures HasNone(Issue(s, v, d, platform, version, f), u) <==> v != u
  {
    var after := Issue(s, v, d, platform, version, f);
    assert Owns(after, v, d);
    forall e | e != d ensures !Owns(after, u, e) { assert !Owns(s, u, e); }
  }

  /** A logged-out user stays logged out exactly until one of these. */
  lemma {:induction false} LoggedOutStaysIff(states: seq<Race>, steps: seq<RaceStep>, u: UserId, i: nat, n: nat)
    requires IsRace(states, steps) && i <= n <= |steps| && HasNone(states[i].auth, u)
    ensures (forall k :: i <= k <= n ==> HasNone(states[k].auth, u)) <==>
      (forall k :: i <= k < n ==> !GivesSession(states[k], steps[k], u))
    decreases n
  {
    hide HasNone, GivesSession, RaceApply, Enabled;
    if i < n {
      LoggedOutStaysIff(states, steps, u, i, n - 1);
      assert IsRaceStep(states[n - 1], steps[n - 1], states[n]);
      if HasNone(states[n - 1].auth, u) { StepKeepsNoneIff(states[n - 1], steps[n - 1], u); }
    }
  }

  predicate HasRead(s: Race, c: CallId, u: UserId) {
    c in s.calls && s.calls[c].Updating? && s.calls[c].session.userId == u
  }

  /** And an exchange that gives him one back had read it before he was logged out. */
  lemma {:induction false} RevivedWasReadBefore(states: seq<Race>, steps: seq<RaceStep>, u: UserId, i: nat, k: nat, c: CallId)
    requires IsRace(states, steps) && i <= k <= |steps| && HasRead(states[k], c, u)
    requires forall m :: i <= m <= k ==> HasNone(states[m].auth, u)
    ensures HasRead(states[i], c, u)
    decreases k
  {
    hide RaceApply, Enabled;
    if i < k {
      assert IsRaceStep(states[k - 1], steps[k - 1], states[k]);
      assert HasNone(states[k - 1].auth, u);
      ReadBefore(states[k - 1], steps[k - 1], u, c);
      RevivedWasReadBefore(states, steps, u, i, k - 1, c);
    }
  }

  lemma ReadBefore(s: Race, step: RaceStep, u: UserId, c: CallId)
    requires Enabled(s, step) && HasNone(s.auth, u) && HasRead(RaceApply(s, step), c, u)
    ensures HasRead(s, c, u)
  {
    hide BeforeLogin, Issue, Apply, Reused, RefreshRefusal, Reissue;
    if step.Read? { assert !Owns(s.auth, u, s.calls[step.call].token.deviceId); }
  }
}
