/**
 * The index of a user's sessions has a lifetime that only logins renew, while each exchange renews its session's.
 * What a login and a logout everywhere miss once the index is gone, and what holds all the same.
 */
module AuthExpiry {
  import opened Wrappers
  import opened AuthModel
  import opened AuthTheorems
  import opened AuthSafety

  // ---------- Sessions and the index ----------

  /** Every session of the user is in his index. */
  ghost predicate AllListed(s: AuthState, u: UserId) {
    forall d :: Owns(s, u, d) ==> d in Devices(s, u)
  }

  predicate IsWeb(s: AuthState, u: UserId, d: DeviceId) {
    Owns(s, u, d) && s.sessions[d].platform == WEB
  }

  ghost predicate OtherWebListed(s: AuthState, u: UserId, d: DeviceId) {
    forall e :: IsWeb(s, u, e) && e != d ==> e in Devices(s, u)
  }

  ghost predicate NoOtherWeb(s: AuthState, u: UserId, d: DeviceId) {
    forall e :: IsWeb(s, u, e) ==> e == d
  }

  ghost predicate OneWeb(s: AuthState, u: UserId) {
    forall d, e :: IsWeb(s, u, d) && IsWeb(s, u, e) ==> d == e
  }

  // ---------- What one use case leaves, in any state ----------

  /** Of the user's other web sessions, the preparation of a web login leaves exactly those the index does not list. */
  lemma WebLeftByLogin(s: AuthState, u: UserId, d: DeviceId, e: DeviceId)
    requires e != d
    ensures IsWeb(BeforeLogin(s, u, d, WEB), u, e) <==> IsWeb(s, u, e) && e !in Devices(s, u)
  {
    hide RefreshJtis, AccessJtis;
  }

  /** A web login leaves the user no other web session if and only if the index lists every other one. */
  lemma LoginClearsIff(s: AuthState, u: UserId, d: DeviceId, version: nat, f: Fresh)
    ensures NoOtherWeb(Issue(BeforeLogin(s, u, d, WEB), u, d, WEB, version, f), u, d) <==> OtherWebListed(s, u, d)
  {
    hide BeforeLogin;
    var before := BeforeLogin(s, u, d, WEB);
    ClearedIff(s, u, d);
    forall e | e != d ensures IsWeb(Issue(before, u, d, WEB, version, f), u, e) == IsWeb(before, u, e) {}
  }

  lemma ClearedIff(s: AuthState, u: UserId, d: DeviceId)
    ensures NoOtherWeb(BeforeLogin(s, u, d, WEB), u, d) <==> OtherWebListed(s, u, d)
  {
    hide BeforeLogin;
    forall e | e != d ensures IsWeb(BeforeLogin(s, u, d, WEB), u, e) <==> IsWeb(s, u, e) && e !in Devices(s, u) {
      WebLeftByLogin(s, u, d, e);
    }
  }

  /** Ending listed sessions of a user ends exactly those, whoever they belong to by then. */
  lemma RevokeListedLeaves(s: AuthState, u: UserId, devices: set<DeviceId>, v: UserId, d: DeviceId)
    ensures Owns(RevokeListed(s, u, devices), v, d) <==> Owns(s, v, d) && d !in devices
    ensures d in RevokeListed(s, u, devices).sessions ==> RevokeListed(s, u, devices).sessions[d] == s.sessions[d]
  {}

  /** Logging out everywhere leaves the user no session if and only if the index lists all of them. */
  lemma LogoutEverywhereIff(s: AuthState, u: UserId)
    ensures (forall d :: !Owns(Apply(s, RevokeAll(u)), u, d)) <==> AllListed(s, u)
  {
    hide RevokeListed;
    forall d ensures Owns(Apply(s, RevokeAll(u)), u, d) <==> Owns(s, u, d) && d !in Devices(s, u) {
      RevokeListedLeaves(s, u, Listed(s, u), u, d);
    }
  }

  /**
   * Ending the other sessions leaves the user the current one as it was, and no other if and only if the index lists
   * all others.
   */
  lemma RevokeOthersIff(s: AuthState, u: UserId, current: DeviceId)
    requires Refusal(s, RevokeOthers(u, current)).None?
    ensures var after := Apply(s, RevokeOthers(u, current));
      Owns(after, u, current) && after.sessions[current] == s.sessions[current] &&
      ((forall d :: Owns(after, u, d) ==> d == current) <==>
       (forall d :: Owns(s, u, d) && d != current ==> d in Devices(s, u)))
  {
    hide RevokeListed;
    var ended := Listed(s, u) - {current};
    RevokeListedLeaves(s, u, ended, u, current);
    forall d | d != current
      ensures Owns(Apply(s, RevokeOthers(u, current)), u, d) <==> Owns(s, u, d) && d !in Devices(s, u)
    {
      RevokeListedLeaves(s, u, ended, u, d);
    }
  }

  // ---------- The tokens ----------

  lemma AcceptedAfterRevoking(s: AuthState, devices: set<DeviceId>, a: AccessToken)
    requires AccessApart(s)
    ensures Accepted(RevokeDevices(s, devices), a) <==> Accepted(s, a) && a.deviceId !in devices
  {
    hide RefreshJtis;
    if a.deviceId in s.sessions && a.deviceId !in devices {
      assert s.sessions[a.deviceId].accessJti !in AccessJtis(s, devices);
    }
  }

  lemma ExchangeableAfterRevoking(s: AuthState, devices: set<DeviceId>, r: RefreshToken)
    requires SessionsSound(s)
    ensures Exchangeable(RevokeDevices(s, devices), r) <==> Exchangeable(s, r) && r.deviceId !in devices
  {
    hide RefreshJtis, AccessJtis, SessionsSound;
    if r.deviceId in s.sessions && r.deviceId !in devices { OthersKeepTheirToken(s, devices, r.deviceId); }
  }

  lemma CleanKeepsTokens(s: AuthState, u: UserId, a: AccessToken, r: RefreshToken)
    ensures Accepted(CleanIndex(s, u), a) == Accepted(s, a) && Exchangeable(CleanIndex(s, u), r) == Exchangeable(s, r)
  {}

  /** Ending listed sessions ends the tokens of exactly those devices. */
  lemma TokensAfterRevoking(s: AuthState, u: UserId, devices: set<DeviceId>, a: AccessToken, r: RefreshToken)
    requires Inv(s)
    ensures Accepted(RevokeListed(s, u, devices), a) <==> Accepted(s, a) && a.deviceId !in devices
    ensures Exchangeable(RevokeListed(s, u, devices), r) <==> Exchangeable(s, r) && r.deviceId !in devices
  {
    hide Inv, CleanIndex, RevokeDevices, Accepted, Exchangeable;
    CleanKeepsInv(s, u);
    InvParts(CleanIndex(s, u));
    CleanKeepsTokens(s, u, a, r);
    AcceptedAfterRevoking(CleanIndex(s, u), devices, a);
    ExchangeableAfterRevoking(CleanIndex(s, u), devices, r);
  }

  /** After logging out everywhere exactly those tokens of the user still work whose device the index did not list. */
  lemma TokensAfterLogoutEverywhere(s: AuthState, u: UserId, a: AccessToken, r: RefreshToken)
    requires Inv(s) && a.sub == u && r.sub == u
    ensures Accepted(Apply(s, RevokeAll(u)), a) <==> Accepted(s, a) && a.deviceId !in Devices(s, u)
    ensures Exchangeable(Apply(s, RevokeAll(u)), r) <==> Exchangeable(s, r) && r.deviceId !in Devices(s, u)
  {
    hide RevokeListed, Inv;
    TokensAfterRevoking(s, u, Listed(s, u), a, r);
  }

  /** After ending the other sessions the current device's tokens work as before, and so do those of unlisted devices. */
  lemma TokensAfterRevokingOthers(s: AuthState, u: UserId, current: DeviceId, a: AccessToken, r: RefreshToken)
    requires Inv(s) && a.sub == u && r.sub == u && Refusal(s, RevokeOthers(u, current)).None?
    ensures var after := Apply(s, RevokeOthers(u, current));
      (Accepted(after, a) <==> Accepted(s, a) && (a.deviceId == current || a.deviceId !in Devices(s, u))) &&
      (Exchangeable(after, r) <==> Exchangeable(s, r) && (r.deviceId == current || r.deviceId !in Devices(s, u)))
  {
    hide RevokeListed, Inv;
    TokensAfterRevoking(s, u, Listed(s, u) - {current}, a, r);
  }

  /**
   * A password change leaves no refresh token and no access token of the user's version until then, listed or not;
   * sessions are left, without a token that works, if and only if the index does not list them.
   */
  lemma PasswordChangeEndsTokens(s: AuthState, op: AuthOp, u: UserId, a: AccessToken, r: RefreshToken)
    requires Inv(s) && ChangesPassword(op, u) && Refusal(s, op).None? && a.sub == u && r.sub == u
    ensures var after := Apply(s, op);
      !Exchangeable(after, r) && (a.version <= s.users[u].tokenVersion ==> !Accepted(after, a)) &&
      ((forall d :: !Owns(after, u, d)) <==> AllListed(s, u))
  {
    hide RevokeListed, Inv;
    var spent := if op.ResetPassword? then s.(resets := s.resets - {op.resetJti}) else s;
    assert Inv(spent) by { SpendingKeepsInv(s, spent); }
    var raised := NewVersion(spent, u);
    assert AllListed(raised, u) <==> AllListed(s, u) by {
      forall d ensures Owns(raised, u, d) == Owns(s, u, d) {}
    }
    NewVersionKeepsInv(spent, u);
    assert Apply(s, op) == Apply(raised, RevokeAll(u));
    LogoutEverywhereIff(raised, u);
    TokensAfterRevoking(raised, u, Listed(raised, u), a, r);
    assert !Exchangeable(raised, r) by { InvParts(spent); OldTokenIsStale(spent, r); }
  }

  lemma SpendingKeepsInv(s: AuthState, spent: AuthState)
    requires Inv(s) && spent == s.(resets := spent.resets) && spent.resets.Keys <= s.resets.Keys
    ensures Inv(spent)
  {
    forall d ensures SessionSound(spent, d) { assert SessionSound(s, d); }
  }

  lemma OldTokenIsStale(s: AuthState, r: RefreshToken)
    requires SessionsSound(s) && r.sub in s.users
    ensures !Exchangeable(NewVersion(s, r.sub), r)
  {
    assert SessionSound(s, r.deviceId);
  }

  // ---------- Whether the index is complete, over runs ----------

  /** The user's index runs out while he has a session. */
  ghost predicate LosesIndex(s: AuthState, op: AuthOp, u: UserId) {
    op == ExpireIndex(u) && exists d :: Owns(s, u, d)
  }

  lemma RevokeKeepsListed(s: AuthState, devices: set<DeviceId>, u: UserId)
    requires AllListed(s, u)
    ensures AllListed(RevokeDevices(s, devices), u)
  {
    forall d | Owns(RevokeDevices(s, devices), u, d) ensures d in Devices(RevokeDevices(s, devices), u) {
      assert Owns(s, u, d);
    }
  }

  lemma CleanKeepsListed(s: AuthState, v: UserId, u: UserId)
    requires AllListed(s, u)
    ensures AllListed(CleanIndex(s, v), u)
  {
    forall d | Owns(CleanIndex(s, v), u, d) ensures d in Devices(CleanIndex(s, v), u) { assert Owns(s, u, d); }
  }

  lemma RevokeListedKeepsListed(s: AuthState, v: UserId, devices: set<DeviceId>, u: UserId)
    requires AllListed(s, u)
    ensures AllListed(RevokeListed(s, v, devices), u)
  {
    hide AllListed, RevokeDevices, CleanIndex;
    CleanKeepsListed(s, v, u);
    RevokeKeepsListed(CleanIndex(s, v), devices, u);
  }

  lemma BeforeLoginKeepsListed(s: AuthState, v: UserId, d: DeviceId, platform: Platform, u: UserId)
    requires AllListed(s, u)
    ensures AllListed(BeforeLogin(s, v, d, platform), u)
  {
    hide AllListed, RevokeDevices, CleanIndex, RevokeListed;
    RevokeKeepsListed(s, {d}, u);
    var replaced := RevokeByDevice(s, v, d);
    RevokeListedKeepsListed(replaced, v, Elsewhere(replaced, v, WEB, d), u);
  }

  lemma IssueKeepsListed(s: AuthState, v: UserId, d: DeviceId, platform: Platform, version: nat, f: Fresh, u: UserId)
    requires AllListed(s, u)
    ensures AllListed(Issue(s, v, d, platform, version, f), u)
  {
    var after := Issue(s, v, d, platform, version, f);
    forall e | Owns(after, u, e) ensures e in Devices(after, u) { assert e == d || Owns(s, u, e); }
  }

  /** A step that adds no session and takes nothing from the index. */
  lemma SameIndexKeepsListed(s: AuthState, after: AuthState, u: UserId)
    requires AllListed(s, u) && after.sessionIndex == s.sessionIndex
    requires forall d :: Owns(after, u, d) ==> Owns(s, u, d)
    ensures AllListed(after, u)
  {}

  /** The index of a user stays complete in every step except when it runs out while he has a session. */
  lemma StepKeepsListedIff(s: AuthState, op: AuthOp, u: UserId)
    requires AllListed(s, u)
    ensures AllListed(Apply(s, op), u) <==> !LosesIndex(s, op, u)
  {
    hide AllListed, RevokeDevices, CleanIndex, RevokeListed, BeforeLogin, Issue;
    if Refusal(s, op).Some? {
      if op.Refresh? && op.token.jti in s.used { RevokeKeepsListed(s, {s.used[op.token.jti].deviceId}, u); }
    } else {
      match op
      case Register(v, d, platform, _, _, f) =>
        var created := s.(users := s.users[v := User(1, false)]);
        SameIndexKeepsListed(s, created, u);
        IssueKeepsListed(created, v, d, platform, 1, f, u);
      case Login(v, d, platform, _, _, f) =>
        BeforeLoginKeepsListed(s, v, d, platform, u);
        IssueKeepsListed(BeforeLogin(s, v, d, platform), v, d, platform, s.users[v].tokenVersion, f, u);
      case Refresh(t, f) => SameIndexKeepsListed(s, Apply(s, op), u);
      case Logout(requester, device) =>
        var d := if device.Some? then device.value else requester.deviceId;
        RevokeKeepsListed(s, {d}, u);
        SameIndexKeepsListed(RevokeByDevice(s, requester.sub, d), Apply(s, op), u);
      case RevokeSession(_, d) => RevokeKeepsListed(s, {d}, u);
      case RevokeAll(v) => RevokeListedKeepsListed(s, v, Listed(s, v), u);
      case RevokeOthers(v, d) => RevokeListedKeepsListed(s, v, Listed(s, v) - {d}, u);
      case ChangePassword(v, _) =>
        SameIndexKeepsListed(s, NewVersion(s, v), u);
        RevokeListedKeepsListed(NewVersion(s, v), v, Listed(NewVersion(s, v), v), u);
      case ResetPassword(v, jti) =>
        var spent := NewVersion(s, v).(resets := s.resets - {jti});
        SameIndexKeepsListed(s, spent, u);
        RevokeListedKeepsListed(spent, v, Listed(spent, v), u);
      case IssueReset(_, _) => SameIndexKeepsListed(s, Apply(s, op), u);
      case SetDisabled(_, _) => SameIndexKeepsListed(s, Apply(s, op), u);
      case ExpireSession(_) => SameIndexKeepsListed(s, Apply(s, op), u);
      case ExpireIndex(v) => ExpiryKeepsListedIff(s, v, u);
    }
  }

  lemma ExpiryKeepsListedIff(s: AuthState, v: UserId, u: UserId)
    requires AllListed(s, u)
    ensures AllListed(Apply(s, ExpireIndex(v)), u) <==> !LosesIndex(s, ExpireIndex(v), u)
  {
    var after := Apply(s, ExpireIndex(v));
    forall d ensures Owns(after, u, d) == Owns(s, u, d) {}
    if v == u && exists d :: Owns(s, u, d) {
      var d :| Owns(s, u, d);
      assert Owns(after, u, d) && d !in Devices(after, u);
    }
  }

  /** Up to any point of a run a user's sessions were always listed exactly when his index has not run out over one. */
  lemma {:induction false} ListedIff(states: seq<AuthState>, ops: seq<AuthOp>, u: UserId, n: nat)
    requires IsRun(states, ops) && n <= |ops|
    ensures (forall i :: 0 <= i <= n ==> AllListed(states[i], u)) <==>
      (forall k :: 0 <= k < n ==> !LosesIndex(states[k], ops[k], u))
  {
    hide AllListed, LosesIndex, Apply, Allowed;
    if n == 0 {
      assert AllListed(EMPTY, u) by { NothingToList(u); }
    } else {
      ListedIff(states, ops, u, n - 1);
      assert IsStep(states[n - 1], ops[n - 1], states[n]);
      if AllListed(states[n - 1], u) { StepKeepsListedIff(states[n - 1], ops[n - 1], u); }
    }
  }

  lemma NothingToList(u: UserId)
    ensures AllListed(EMPTY, u) && OneWeb(EMPTY, u)
  {}

  // ---------- One web session per user, over runs ----------

  /** Sessions only disappear, or keep their user and platform. */
  ghost predicate NoNewSessions(s: AuthState, after: AuthState) {
    forall d :: d in after.sessions ==>
      d in s.sessions && after.sessions[d].userId == s.sessions[d].userId && after.sessions[d].platform == s.sessions[d].platform
  }

  lemma RevokeAddsNone(s: AuthState, devices: set<DeviceId>)
    ensures NoNewSessions(s, RevokeDevices(s, devices))
  {}

  lemma RevokeListedAddsNone(s: AuthState, v: UserId, devices: set<DeviceId>)
    ensures NoNewSessions(s, RevokeListed(s, v, devices))
  {
    hide RevokeDevices;
    RevokeAddsNone(CleanIndex(s, v), devices);
  }

  lemma BeforeLoginAddsNone(s: AuthState, v: UserId, d: DeviceId, platform: Platform)
    ensures NoNewSessions(s, BeforeLogin(s, v, d, platform))
  {
    hide RevokeListed, RevokeDevices;
    RevokeAddsNone(s, {d});
    var replaced := RevokeByDevice(s, v, d);
    RevokeListedAddsNone(replaced, v, Elsewhere(replaced, v, WEB, d));
  }

  /** No step but a login or a registration gives anybody a session. */
  lemma OthersAddNone(s: AuthState, op: AuthOp)
    requires Refusal(s, op).Some? || (!op.Login? && !op.Register?)
    ensures NoNewSessions(s, Apply(s, op))
  {
    hide RevokeDevices, RevokeListed;
    if Refusal(s, op).Some? {
      if op.Refresh? && op.token.jti in s.used { RevokeAddsNone(s, {s.used[op.token.jti].deviceId}); }
    } else {
      match op
      case Refresh(_, _) =>
      case Logout(requester, device) =>
        RevokeAddsNone(s, {if device.Some? then device.value else requester.deviceId});
      case RevokeSession(_, d) => RevokeAddsNone(s, {d});
      case RevokeAll(v) => RevokeListedAddsNone(s, v, Listed(s, v));
      case RevokeOthers(v, d) => RevokeListedAddsNone(s, v, Listed(s, v) - {d});
      case ChangePassword(v, _) => RevokeListedAddsNone(NewVersion(s, v), v, Listed(NewVersion(s, v), v));
      case ResetPassword(v, jti) =>
        var spent := NewVersion(s, v).(resets := s.resets - {jti});
        RevokeListedAddsNone(spent, v, Listed(spent, v));
      case IssueReset(_, _) =>
      case SetDisabled(_, _) =>
      case ExpireSession(_) =>
      case ExpireIndex(_) =>
    }
  }

  /** Writing a session keeps one web session per user exactly when it is no web session beside another of his. */
  lemma IssueKeepsOneWebIff(s: AuthState, v: UserId, d: DeviceId, platform: Platform, version: nat, f: Fresh, u: UserId)
    requires OneWeb(s, u)
    ensures OneWeb(Issue(s, v, d, platform, version, f), u) <==> (v == u && platform == WEB ==> NoOtherWeb(s, u, d))
  {
    var after := Issue(s, v, d, platform, version, f);
    forall e | e != d ensures IsWeb(after, u, e) == IsWeb(s, u, e) {}
    assert IsWeb(after, u, d) <==> v == u && platform == WEB;
  }

  /** A web login of the user that goes through. */
  predicate WebLogin(s: AuthState, op: AuthOp, u: UserId) {
    op.Login? && op.userId == u && op.platform == WEB && Refusal(s, op).None?
  }

  ghost predicate MissesWeb(s: AuthState, op: AuthOp, u: UserId) {
    WebLogin(s, op, u) && !OtherWebListed(s, u, op.deviceId)
  }

  /** A step leaves a user at most one web session exactly when it is no web login that finds one unlisted. */
  lemma StepKeepsOneWebIff(s: AuthState, op: AuthOp, u: UserId)
    requires Inv(s) && Allowed(s, op) && OneWeb(s, u)
    ensures OneWeb(Apply(s, op), u) <==> !MissesWeb(s, op, u)
  {
    hide Inv, OneWeb, NoOtherWeb, OtherWebListed, NoNewSessions, BeforeLogin, Issue;
    if Refusal(s, op).None? && op.Login? {
      var before := BeforeLogin(s, op.userId, op.deviceId, op.platform);
      BeforeLoginAddsNone(s, op.userId, op.deviceId, op.platform);
      FewerStayOne(s, before, u);
      IssueKeepsOneWebIff(before, op.userId, op.deviceId, op.platform, s.users[op.userId].tokenVersion, op.tokens, u);
      if op.platform == WEB && op.userId == u { ClearedIff(s, u, op.deviceId); }
    } else if Refusal(s, op).None? && op.Register? {
      var created := s.(users := s.users[op.userId := User(1, false)]);
      SameSessions(s, created, u);
      InvParts(s);
      NewUserHasNoWeb(s, created, op.userId, op.deviceId);
      IssueKeepsOneWebIff(created, op.userId, op.deviceId, op.platform, 1, op.tokens, u);
    } else {
      OthersAddNone(s, op);
      FewerStayOne(s, Apply(s, op), u);
    }
  }

  lemma FewerStayOne(s: AuthState, after: AuthState, u: UserId)
    requires NoNewSessions(s, after)
    ensures OneWeb(s, u) ==> OneWeb(after, u)
    ensures forall d :: NoOtherWeb(s, u, d) ==> NoOtherWeb(after, u, d)
    ensures forall d :: Owns(after, u, d) ==> Owns(s, u, d)
  {
    forall d | IsWeb(after, u, d) ensures IsWeb(s, u, d) {}
  }

  lemma SameSessions(s: AuthState, after: AuthState, u: UserId)
    requires after.sessions == s.sessions
    ensures OneWeb(after, u) == OneWeb(s, u)
  {
    forall d ensures IsWeb(after, u, d) == IsWeb(s, u, d) {}
  }

  lemma NewUserHasNoWeb(s: AuthState, after: AuthState, u: UserId, d: DeviceId)
    requires SessionsSound(s) && u !in s.users && after.sessions == s.sessions
    ensures NoOtherWeb(after, u, d)
  {
    forall e ensures !IsWeb(after, u, e) { assert SessionSound(s, e); }
  }

  /**
   * Up to any point of a run a user has had at most one web session at a time if and only if each of his web logins
   * found his other web sessions listed.
   */
  lemma {:induction false} OneWebIff(states: seq<AuthState>, ops: seq<AuthOp>, u: UserId, n: nat)
    requires IsRun(states, ops) && n <= |ops|
    ensures (forall i :: 0 <= i <= n ==> OneWeb(states[i], u)) <==>
      (forall k :: 0 <= k < n ==> !MissesWeb(states[k], ops[k], u))
  {
    hide Inv, OneWeb, MissesWeb, Apply, Allowed;
    if n == 0 {
      assert OneWeb(EMPTY, u) by { NothingToList(u); }
    } else {
      OneWebIff(states, ops, u, n - 1);
      assert IsStep(states[n - 1], ops[n - 1], states[n]);
      ReachableStatesKeepInv(states, ops);
      assert Inv(states[n - 1]);
      if OneWeb(states[n - 1], u) { StepKeepsOneWebIff(states[n - 1], ops[n - 1], u); }
    }
  }

  /** While a user's index does not run out over his sessions, it lists them, and he has at most one web session. */
  lemma OneWebWhileIndexLives(states: seq<AuthState>, ops: seq<AuthOp>, u: UserId, i: nat)
    requires IsRun(states, ops) && i <= |ops|
    requires forall k :: 0 <= k < i ==> !LosesIndex(states[k], ops[k], u)
    ensures AllListed(states[i], u) && OneWeb(states[i], u)
  {
    hide OneWeb, LosesIndex, Apply, Allowed;
    ListedIff(states, ops, u, i);
    forall k | 0 <= k < i ensures !MissesWeb(states[k], ops[k], u) {
      assert AllListed(states[k], u);
    }
    OneWebIff(states, ops, u, i);
  }

  // ---------- Lifetimes ----------

  /** Thirty days, in seconds, of a session and of a user's index alike. */
  const LIFETIME: nat := 30 * 24 * 60 * 60

  /** The step writes a session of the user and with it renews his index. */
  predicate RenewsIndex(s: AuthState, op: AuthOp, u: UserId) {
    Refusal(s, op).None? && ((op.Login? && op.userId == u) || (op.Register? && op.userId == u && !op.awaitsEmail))
  }

  /** Step `k` happens at `times[k]`, and no index runs out within a lifetime of the last login or registration. */
  ghost predicate KeepsLifetimes(states: seq<AuthState>, ops: seq<AuthOp>, times: seq<nat>)
    requires |states| == |ops| + 1 && |times| == |ops|
  {
    (forall j, k :: 0 <= j <= k < |ops| ==> times[j] <= times[k]) &&
    (forall j, k :: 0 <= j < k < |ops| && ops[k].ExpireIndex? && RenewsIndex(states[j], ops[j], ops[k].userId) ==>
      times[j] + LIFETIME <= times[k])
  }

  /** The user has logged in, or registered, less than a lifetime before step `k`. */
  ghost predicate LoggedInRecently(states: seq<AuthState>, ops: seq<AuthOp>, times: seq<nat>, u: UserId, k: nat)
    requires |states| == |ops| + 1 && |times| == |ops| && k < |ops|
  {
    exists j :: 0 <= j < k && RenewsIndex(states[j], ops[j], u) && times[k] < times[j] + LIFETIME
  }

  /** A user who logs in within each lifetime has one web session at most, and logging out everywhere ends them all. */
  lemma OneWebWithRecentLogins(states: seq<AuthState>, ops: seq<AuthOp>, times: seq<nat>, u: UserId, i: nat)
    requires IsRun(states, ops) && |times| == |ops| && KeepsLifetimes(states, ops, times) && i <= |ops|
    requires forall k :: 0 <= k < i && (exists d :: Owns(states[k], u, d)) ==> LoggedInRecently(states, ops, times, u, k)
    ensures OneWeb(states[i], u)
    ensures forall d :: !Owns(Apply(states[i], RevokeAll(u)), u, d)
  {
    hide OneWeb, AllListed, Apply, Owns, RenewsIndex;
    OneWebWhileIndexLives(states, ops, u, i);
    LogoutEverywhereIff(states[i], u);
  }
}
