/** What every run of logins, refreshes, logouts, password changes and expiries keeps. */
module AuthTheorems {
  import opened Wrappers
  import opened AuthModel

  // ---------- The invariant, device by device ----------

  /**
   * A live session belongs to a known user, is of no later version than his, and is backed by its own stored refresh
   * token. Whether the index lists it is another matter.
   */
  ghost predicate SessionSound(s: AuthState, d: DeviceId) {
    d in s.sessions ==>
      (var x := s.sessions[d];
       x.userId in s.users && x.version <= s.users[x.userId].tokenVersion &&
       x.refreshJti in s.stored && s.stored[x.refreshJti] == RefreshRecord(x.userId, d, x.version) &&
       x.accessJti in s.issued)
  }

  ghost predicate SessionsSound(s: AuthState) {
    forall d {:trigger SessionSound(s, d)} :: SessionSound(s, d)
  }

  /** A refresh token id is known before it is stored, and is never both stored and used. */
  ghost predicate TokensSound(s: AuthState) {
    s.stored.Keys <= s.issued && s.used.Keys <= s.issued && s.stored.Keys !! s.used.Keys &&
    s.blacklist <= s.issued && s.resets.Keys <= s.issued
  }

  ghost predicate AccessApart(s: AuthState) {
    forall d, e :: d in s.sessions && e in s.sessions && d != e ==> s.sessions[d].accessJti != s.sessions[e].accessJti
  }

  ghost predicate Inv(s: AuthState) {
    SessionsSound(s) && TokensSound(s) && AccessApart(s)
  }

  // ---------- Revoking keeps it ----------

  /** A stored refresh token names its device, so ending other sessions does not touch it. */
  lemma OthersKeepTheirToken(s: AuthState, devices: set<DeviceId>, d: DeviceId)
    requires SessionsSound(s) && d in s.sessions && d !in devices
    ensures s.sessions[d].refreshJti !in RefreshJtis(s, devices)
  {
    assert SessionSound(s, d);
    forall e | e in devices && e in s.sessions ensures s.sessions[e].refreshJti != s.sessions[d].refreshJti {
      assert SessionSound(s, e);
    }
  }

  lemma RevokeKeepsSession(s: AuthState, devices: set<DeviceId>, d: DeviceId)
    requires SessionsSound(s)
    ensures SessionSound(RevokeDevices(s, devices), d)
  {
    if d in RevokeDevices(s, devices).sessions {
      assert SessionSound(s, d);
      OthersKeepTheirToken(s, devices, d);
    }
  }

  lemma RevokeKeepsInv(s: AuthState, devices: set<DeviceId>)
    requires Inv(s)
    ensures Inv(RevokeDevices(s, devices))
  {
    var after := RevokeDevices(s, devices);
    forall d ensures SessionSound(after, d) { RevokeKeepsSession(s, devices, d); }
    assert AccessJtis(s, devices) <= s.issued by {
      forall j | j in AccessJtis(s, devices) ensures j in s.issued {
        var d :| d in devices && d in s.sessions && s.sessions[d].accessJti == j;
        assert SessionSound(s, d);
      }
    }
  }

  lemma RevokeNone(s: AuthState)
    ensures RevokeDevices(s, {}) == s
  {
    var after := RevokeDevices(s, {});
    assert RefreshJtis(s, {}) == {} && AccessJtis(s, {}) == {};
    forall u | u in s.sessionIndex ensures after.sessionIndex[u] == s.sessionIndex[u] {}
    assert after.sessions == s.sessions && after.stored == s.stored && after.sessionIndex == s.sessionIndex;
  }

  lemma CleanKeepsInv(s: AuthState, u: UserId)
    requires Inv(s)
    ensures Inv(CleanIndex(s, u))
  {
    forall d ensures SessionSound(CleanIndex(s, u), d) { assert SessionSound(s, d); }
  }

  lemma RevokeListedKeepsInv(s: AuthState, u: UserId, devices: set<DeviceId>)
    requires Inv(s)
    ensures Inv(RevokeListed(s, u, devices))
  {
    hide Inv, RevokeDevices, CleanIndex;
    CleanKeepsInv(s, u);
    RevokeKeepsInv(CleanIndex(s, u), devices);
  }

  lemma RevokeByDeviceKeepsInv(s: AuthState, u: UserId, d: DeviceId)
    requires Inv(s)
    ensures Inv(RevokeByDevice(s, u, d))
  {
    hide Inv, RevokeDevices;
    if Owns(s, u, d) { RevokeKeepsInv(s, {d}); }
  }

  // ---------- Issuing keeps it ----------

  lemma IssueKeepsSession(s: AuthState, u: UserId, d: DeviceId, platform: Platform, f: Fresh, e: DeviceId)
    requires SessionsSound(s) && TokensSound(s) && u in s.users && FreshFor(s, f)
    ensures SessionSound(Issue(s, u, d, platform, s.users[u].tokenVersion, f), e)
  {
    assert SessionSound(s, e);
  }

  /** Issuing a pair at the user's version is sound, whatever other sessions he has. */
  lemma IssueKeepsInv(s: AuthState, u: UserId, d: DeviceId, platform: Platform, f: Fresh)
    requires Inv(s) && u in s.users && FreshFor(s, f)
    ensures Inv(Issue(s, u, d, platform, s.users[u].tokenVersion, f))
  {
    hide SessionSound;
    var after := Issue(s, u, d, platform, s.users[u].tokenVersion, f);
    forall e ensures SessionSound(after, e) { IssueKeepsSession(s, u, d, platform, f, e); }
    forall e | e in s.sessions ensures s.sessions[e].accessJti in s.issued { AccessIsIssued(s, e); }
  }

  lemma AccessIsIssued(s: AuthState, d: DeviceId)
    requires SessionsSound(s) && d in s.sessions
    ensures s.sessions[d].accessJti in s.issued
  {
    assert SessionSound(s, d);
  }

  lemma BeforeLoginKeepsInv(s: AuthState, u: UserId, d: DeviceId, platform: Platform)
    requires Inv(s)
    ensures var after := BeforeLogin(s, u, d, platform);
      Inv(after) && after.users == s.users && after.issued == s.issued
  {
    hide Inv, RevokeDevices, Elsewhere;
    var replaced := RevokeByDevice(s, u, d);
    RevokeByDeviceKeepsInv(s, u, d);
    RevokeKeepsIssued(s, {d});
    if platform == WEB {
      var devices := Elsewhere(replaced, u, WEB, d);
      RevokeListedKeepsInv(replaced, u, devices);
      RevokeKeepsIssued(CleanIndex(replaced, u), devices);
    }
  }

  lemma LoginKeepsInv(s: AuthState, op: AuthOp)
    requires op.Login? && Inv(s) && Allowed(s, op) && Refusal(s, op).None?
    ensures Inv(Apply(s, op))
  {
    hide Inv, BeforeLogin, Issue;
    BeforeLoginKeepsInv(s, op.userId, op.deviceId, op.platform);
    IssueKeepsInv(BeforeLogin(s, op.userId, op.deviceId, op.platform), op.userId, op.deviceId, op.platform, op.tokens);
  }

  lemma RegisterKeepsInv(s: AuthState, op: AuthOp)
    requires op.Register? && Inv(s) && Allowed(s, op) && Refusal(s, op).None?
    ensures Inv(Apply(s, op))
  {
    hide Issue;
    var created := s.(users := s.users[op.userId := User(1, false)]);
    forall d ensures SessionSound(created, d) { assert SessionSound(s, d); }
    assert Inv(created);
    if !op.awaitsEmail { IssueKeepsInv(created, op.userId, op.deviceId, op.platform, op.tokens); }
  }

  lemma ExchangeKeepsSession(s: AuthState, t: RefreshToken, f: Fresh, d: DeviceId)
    requires SessionsSound(s) && TokensSound(s) && Exchangeable(s, t) && FreshFor(s, f)
    ensures SessionSound(Exchange(s, t, f), d)
  {
    assert SessionSound(s, d) && SessionSound(s, t.deviceId);
  }

  lemma ExchangeKeepsInv(s: AuthState, t: RefreshToken, f: Fresh)
    requires Inv(s) && Exchangeable(s, t) && FreshFor(s, f)
    ensures Inv(Exchange(s, t, f))
  {
    hide SessionSound;
    forall d ensures SessionSound(Exchange(s, t, f), d) { ExchangeKeepsSession(s, t, f, d); }
    forall e | e in s.sessions ensures s.sessions[e].accessJti in s.issued { AccessIsIssued(s, e); }
  }

  // ---------- Password changes ----------

  lemma NewVersionKeepsInv(s: AuthState, u: UserId)
    requires Inv(s) && u in s.users
    ensures Inv(NewVersion(s, u))
  {
    forall d ensures SessionSound(NewVersion(s, u), d) { assert SessionSound(s, d); }
  }

  /** A password change keeps it, although a session that the index does not list stays behind at its old version. */
  lemma PasswordChangeKeepsInv(s: AuthState, u: UserId)
    requires Inv(s) && u in s.users
    ensures Inv(RevokeAllSessions(NewVersion(s, u), u))
  {
    hide Inv, RevokeListed, NewVersion;
    NewVersionKeepsInv(s, u);
    RevokeListedKeepsInv(NewVersion(s, u), u, Listed(NewVersion(s, u), u));
  }

  lemma InvParts(s: AuthState)
    requires Inv(s)
    ensures SessionsSound(s) && TokensSound(s) && AccessApart(s)
  {}

  lemma ResetKeepsInv(s: AuthState, op: AuthOp)
    requires op.ResetPassword? && Inv(s) && Refusal(s, op).None?
    ensures Inv(Apply(s, op))
  {
    hide RevokeListed;
    var spent := s.(resets := s.resets - {op.resetJti});
    forall d ensures SessionSound(spent, d) { assert SessionSound(s, d); }
    assert Inv(spent);
    PasswordChangeKeepsInv(spent, op.userId);
    assert NewVersion(spent, op.userId) == NewVersion(s, op.userId).(resets := s.resets - {op.resetJti});
  }

  lemma SimpleStepKeepsInv(s: AuthState, op: AuthOp)
    requires (op.IssueReset? || op.SetDisabled? || op.ExpireSession? || op.ExpireIndex?) && Inv(s) && Allowed(s, op) && Refusal(s, op).None?
    ensures Inv(Apply(s, op))
  {
    forall d ensures SessionSound(Apply(s, op), d) { assert SessionSound(s, d); }
  }

  lemma LogoutKeepsInv(s: AuthState, op: AuthOp)
    requires op.Logout? && Inv(s) && Allowed(s, op)
    ensures Inv(Apply(s, op))
  {
    hide RevokeDevices;
    var device := if op.otherDevice.Some? then op.otherDevice.value else op.requester.deviceId;
    var ended := RevokeByDevice(s, op.requester.sub, device);
    RevokeByDeviceKeepsInv(s, op.requester.sub, device);
    assert ended.issued == s.issued by { RevokeKeepsIssued(s, {device}); }
    forall d ensures SessionSound(Apply(s, op), d) { assert SessionSound(ended, d); }
  }

  lemma RevokeKeepsIssued(s: AuthState, devices: set<DeviceId>)
    ensures RevokeDevices(s, devices).issued == s.issued && RevokeDevices(s, devices).users == s.users
  {}

  lemma StepKeepsInv(s: AuthState, op: AuthOp)
    requires Inv(s) && Allowed(s, op)
    ensures Inv(Apply(s, op))
  {
    hide Inv, RevokeListed, RevokeByDevice, Issue, BeforeLogin, Exchange, NewVersion;
    if Refusal(s, op).Some? {
      if op.Refresh? && op.token.jti in s.used {
        RevokeByDeviceKeepsInv(s, s.used[op.token.jti].userId, s.used[op.token.jti].deviceId);
      }
    } else {
      match op
      case Register(_, _, _, _, _, _) => RegisterKeepsInv(s, op);
      case Login(_, _, _, _, _, _) => LoginKeepsInv(s, op);
      case Refresh(t, f) => ExchangeKeepsInv(s, t, f);
      case Logout(_, _) => LogoutKeepsInv(s, op);
      case RevokeSession(u, d) => RevokeByDeviceKeepsInv(s, u, d);
      case RevokeAll(u) => RevokeListedKeepsInv(s, u, Listed(s, u));
      case RevokeOthers(u, d) => RevokeListedKeepsInv(s, u, Listed(s, u) - {d});
      case ChangePassword(u, _) => PasswordChangeKeepsInv(s, u);
      case IssueReset(_, _) => SimpleStepKeepsInv(s, op);
      case ResetPassword(_, _) => ResetKeepsInv(s, op);
      case SetDisabled(_, _) => SimpleStepKeepsInv(s, op);
      case ExpireSession(_) => SimpleStepKeepsInv(s, op);
      case ExpireIndex(_) => SimpleStepKeepsInv(s, op);
    }
  }

  lemma {:induction false} ReachableStatesKeepInv(states: seq<AuthState>, ops: seq<AuthOp>)
    requires IsRun(states, ops)
    ensures forall i :: 0 <= i < |states| ==> Inv(states[i])
  {
    hide Inv, Apply, Allowed;
    if ops == [] {
      assert Inv(EMPTY) by { EmptyIsSound(); }
    } else {
      var n := |ops| - 1;
      assert IsRun(states[..n + 1], ops[..n]);
      ReachableStatesKeepInv(states[..n + 1], ops[..n]);
      assert Inv(states[..n + 1][n]);
      assert IsStep(states[n], ops[n], states[n + 1]);
      StepKeepsInv(states[n], ops[n]);
      forall i | 0 <= i < |states| ensures Inv(states[i]) {
        if i <= n { assert Inv(states[..n + 1][i]); }
      }
    }
  }

  lemma EmptyIsSound()
    ensures Inv(EMPTY)
  {}
}
