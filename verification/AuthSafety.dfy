/** Safety of tokens over whole runs. */
module AuthSafety {
  import opened Wrappers
  import opened AuthModel
  import opened AuthTheorems

  // ---------- One token each per device ----------

  lemma OneAcceptedTokenPerDevice(s: AuthState, a: AccessToken, b: AccessToken)
    requires Accepted(s, a) && Accepted(s, b) && a.deviceId == b.deviceId
    ensures a == b
  {}

  lemma OneExchangeableTokenPerDevice(s: AuthState, a: RefreshToken, b: RefreshToken)
    requires Exchangeable(s, a) && Exchangeable(s, b) && a.deviceId == b.deviceId
    ensures a == b
  {}

  function AccessTokenOf(s: AuthState, d: DeviceId): AccessToken
    requires d in s.sessions
  {
    AccessToken(s.sessions[d].accessJti, s.sessions[d].userId, s.sessions[d].version, d)
  }

  function RefreshTokenOf(s: AuthState, d: DeviceId): RefreshToken
    requires d in s.sessions
  {
    RefreshToken(s.sessions[d].refreshJti, s.sessions[d].userId, s.sessions[d].version, d)
  }

  /** The session's user is enabled, and still at the version of the session. */
  predicate InForce(s: AuthState, d: DeviceId) {
    d in s.sessions &&
    var x := s.sessions[d];
    x.userId in s.users && !s.users[x.userId].disabled && s.users[x.userId].tokenVersion == x.version
  }

  /**
   * A session's own refresh token can be exchanged exactly while its user is enabled and at its version, and its own
   * access token is accepted exactly while, besides, it was not blacklisted; then no other token of the device is.
   */
  lemma LiveSessionTokens(s: AuthState, d: DeviceId, a: AccessToken, r: RefreshToken)
    requires Inv(s) && d in s.sessions && a.deviceId == d && r.deviceId == d
    ensures Exchangeable(s, r) <==> r == RefreshTokenOf(s, d) && InForce(s, d)
    ensures Accepted(s, AccessTokenOf(s, d)) <==> InForce(s, d) && s.sessions[d].accessJti !in s.blacklist
    ensures InForce(s, d) && Accepted(s, a) ==> a == AccessTokenOf(s, d)
  {
    assert SessionSound(s, d);
  }

  // ---------- No token twice ----------

  /** After an exchange the new tokens work and the old ones never will. */
  lemma ExchangeReplacesTokens(s: AuthState, t: RefreshToken, f: Fresh)
    requires Inv(s) && Exchangeable(s, t) && FreshFor(s, f)
    ensures var after, replaced := Exchange(s, t, f), AccessTokenOf(s, t.deviceId);
      !Exchangeable(after, t) && !Accepted(after, replaced) &&
      Exchangeable(after, t.(jti := f.refreshJti)) &&
      Accepted(after, AccessToken(f.accessJti, t.sub, t.version, t.deviceId)) &&
      t.jti in after.used && t.jti !in after.stored
  {
    assert SessionSound(s, t.deviceId);
  }

  /**
   * The checks of an exchange and its writes are separate awaits. A second exchange of the same token is refused
   * once the first has written, but if its checks came before, it goes through too; then its pair works, and the
   * first one's new pair does not.
   */
  lemma RacingExchanges(s: AuthState, t: RefreshToken, f: Fresh, g: Fresh)
    requires Inv(s) && Exchangeable(s, t) && FreshFor(s, f) && FreshFor(Exchange(s, t, f), g)
    ensures !Exchangeable(Exchange(s, t, f), t)
    ensures var twice := Exchange(Exchange(s, t, f), t, g);
      Exchangeable(twice, t.(jti := g.refreshJti)) && !Exchangeable(twice, t.(jti := f.refreshJti)) &&
      Accepted(twice, AccessToken(g.accessJti, t.sub, t.version, t.deviceId)) &&
      !Accepted(twice, AccessToken(f.accessJti, t.sub, t.version, t.deviceId))
  {
    assert SessionSound(s, t.deviceId);
  }

  /** A token id that was issued and is no longer stored. */
  ghost predicate Spent(s: AuthState, jti: Jti) {
    jti in s.issued && jti !in s.stored
  }

  lemma RevokeKeepsSpent(s: AuthState, devices: set<DeviceId>, jti: Jti)
    requires Spent(s, jti)
    ensures Spent(RevokeDevices(s, devices), jti)
  {}

  lemma SpentStaysSpent(s: AuthState, op: AuthOp, jti: Jti)
    requires Spent(s, jti) && Allowed(s, op)
    ensures Spent(Apply(s, op), jti)
  {
    hide RevokeDevices, RefreshJtis, AccessJtis, Listed, Elsewhere;
    forall x, devices {:trigger RevokeDevices(x, devices)} | Spent(x, jti) ensures Spent(RevokeDevices(x, devices), jti) {
      RevokeKeepsSpent(x, devices, jti);
    }
  }

  lemma {:induction false} SpentForever(states: seq<AuthState>, ops: seq<AuthOp>, i: nat, j: nat, jti: Jti)
    requires IsRun(states, ops) && i <= j < |states| && Spent(states[i], jti)
    ensures Spent(states[j], jti)
    decreases j
  {
    hide Apply, Allowed, Spent;
    if i < j {
      SpentForever(states, ops, i, j - 1, jti);
      assert IsStep(states[j - 1], ops[j - 1], states[j]);
      SpentStaysSpent(states[j - 1], ops[j - 1], jti);
    }
  }

  ghost predicate Exchanges(s: AuthState, op: AuthOp, jti: Jti) {
    op.Refresh? && op.token.jti == jti && Refusal(s, op).None?
  }

  /** No refresh token is exchanged twice in any run. */
  lemma NoDoubleExchange(states: seq<AuthState>, ops: seq<AuthOp>, i: nat, j: nat, jti: Jti)
    requires IsRun(states, ops) && i < j < |ops|
    requires Exchanges(states[i], ops[i], jti)
    ensures !Exchanges(states[j], ops[j], jti)
  {
    hide Inv, Apply;
    ReachableStatesKeepInv(states, ops);
    assert IsStep(states[i], ops[i], states[i + 1]);
    ExchangedIsSpent(states[i], ops[i], jti);
    SpentForever(states, ops, i + 1, j, jti);
  }

  lemma ExchangedIsSpent(s: AuthState, op: AuthOp, jti: Jti)
    requires Inv(s) && Allowed(s, op) && Exchanges(s, op, jti)
    ensures Spent(Apply(s, op), jti)
  {}

  /** Presenting a used token again ends the session it was used for, if it is still the same user's. */
  lemma ReuseEndsTheSession(s: AuthState, t: RefreshToken, f: Fresh)
    requires Inv(s) && t.jti in s.used && s.used[t.jti] == RefreshRecord(t.sub, t.deviceId, t.version)
    ensures Refusal(s, Refresh(t, f)) == Some(InvalidToken)
    ensures !Owns(Apply(s, Refresh(t, f)), t.sub, t.deviceId)
    ensures forall d :: d != t.deviceId ==> (d in Apply(s, Refresh(t, f)).sessions <==> d in s.sessions)
    ensures !Owns(s, t.sub, t.deviceId) ==> Apply(s, Refresh(t, f)) == s
  {}

  // ---------- Password changes ----------

  predicate ChangesPassword(op: AuthOp, u: UserId) {
    (op.ChangePassword? && op.userId == u) || (op.ResetPassword? && op.userId == u)
  }

  ghost predicate VersionAtLeast(s: AuthState, u: UserId, version: nat) {
    u in s.users && s.users[u].tokenVersion >= version
  }

  /** Versions never fall, and a password change raises the user's own. */
  lemma StepKeepsVersion(s: AuthState, op: AuthOp, u: UserId, version: nat)
    requires VersionAtLeast(s, u, version) && Allowed(s, op)
    ensures VersionAtLeast(Apply(s, op), u, version)
    ensures ChangesPassword(op, u) && Refusal(s, op).None? ==> VersionAtLeast(Apply(s, op), u, version + 1)
  {
    hide RefreshJtis, AccessJtis, Listed, Elsewhere, RevokeDevices;
    forall x, devices {:trigger RevokeDevices(x, devices)} ensures RevokeDevices(x, devices).users == x.users {
      RevokeKeepsIssued(x, devices);
    }
  }

  lemma {:induction false} VersionsNeverFall(states: seq<AuthState>, ops: seq<AuthOp>, i: nat, j: nat, u: UserId, version: nat)
    requires IsRun(states, ops) && i <= j < |states| && VersionAtLeast(states[i], u, version)
    ensures VersionAtLeast(states[j], u, version)
    decreases j
  {
    hide Apply, Allowed, VersionAtLeast;
    if i < j {
      VersionsNeverFall(states, ops, i, j - 1, u, version);
      assert IsStep(states[j - 1], ops[j - 1], states[j]);
      StepKeepsVersion(states[j - 1], ops[j - 1], u, version);
    }
  }

  /** Tokens accepted or exchangeable at any point of a run never are again once their user's password has changed. */
  lemma OldTokensStayRejected(states: seq<AuthState>, ops: seq<AuthOp>, i: nat, k: nat, j: nat, a: AccessToken, r: RefreshToken)
    requires IsRun(states, ops) && i <= k < |ops| && k < j < |states|
    requires ChangesPassword(ops[k], a.sub) && ChangesPassword(ops[k], r.sub) && Refusal(states[k], ops[k]).None?
    requires Accepted(states[i], a) && Exchangeable(states[i], r)
    ensures !Accepted(states[j], a) && !Exchangeable(states[j], r)
  {
    hide Apply, Allowed;
    VersionsNeverFall(states, ops, i, k, a.sub, a.version);
    VersionsNeverFall(states, ops, i, k, r.sub, r.version);
    assert IsStep(states[k], ops[k], states[k + 1]);
    StepKeepsVersion(states[k], ops[k], a.sub, a.version);
    StepKeepsVersion(states[k], ops[k], r.sub, r.version);
    VersionsNeverFall(states, ops, k + 1, j, a.sub, a.version + 1);
    VersionsNeverFall(states, ops, k + 1, j, r.sub, r.version + 1);
  }

  // ---------- Logging in and out ----------

  /** An enabled user who logs in with his password, verified if he has to be, gets a pair that works, and nothing else does on that device. */
  lemma LoginIssuesWorkingTokens(s: AuthState, op: AuthOp, a: AccessToken, r: RefreshToken)
    requires Inv(s) && op.Login? && Allowed(s, op)
    requires op.userId in s.users && !s.users[op.userId].disabled && op.passwordMatches && !op.emailPending
    requires a.deviceId == op.deviceId && r.deviceId == op.deviceId
    ensures var version := s.users[op.userId].tokenVersion;
      (Accepted(Apply(s, op), a) <==> a == AccessToken(op.tokens.accessJti, op.userId, version, op.deviceId)) &&
      (Exchangeable(Apply(s, op), r) <==> r == RefreshToken(op.tokens.refreshJti, op.userId, version, op.deviceId))
  {
    hide BeforeLogin, Inv;
    BeforeLoginKeepsInv(s, op.userId, op.deviceId, op.platform);
    LoginKeepsInv(s, op);
    var after := Apply(s, op);
    assert after.sessions[op.deviceId] ==
      Session(op.userId, op.platform, op.tokens.refreshJti, op.tokens.accessJti, s.users[op.userId].tokenVersion);
    assert op.tokens.accessJti !in after.blacklist by { InvParts(BeforeLogin(s, op.userId, op.deviceId, op.platform)); }
    LiveSessionTokens(after, op.deviceId, a, r);
  }

  /** Logging out blacklists the token used and ends the user's session on the chosen device, and no other session. */
  lemma LogoutEndsTheSession(s: AuthState, t: AccessToken, device: Option<DeviceId>)
    requires Inv(s)
    ensures var after, d := Apply(s, Logout(t, device)), if device.Some? then device.value else t.deviceId;
      !Accepted(after, t) && !Owns(after, t.sub, d) && t.jti in after.blacklist &&
      forall e :: e != d ==> (e in after.sessions <==> e in s.sessions)
  {}

  /**
   * Logging a user out everywhere ends exactly the sessions on the devices in that user's index.
   * It touches another user's session if and only if that user took over a device from the first.
   */
  lemma RevokeAllTouchesOthersIff(s: AuthState, u: UserId, d: DeviceId)
    requires Inv(s) && d in s.sessions && s.sessions[d].userId != u
    ensures d !in Apply(s, RevokeAll(u)).sessions <==> d in Devices(s, u)
  {}

  /** It does happen: two users register on one device, the first logs out everywhere, and the second is logged out. */
  lemma SharedDeviceIsLoggedOut() returns (states: seq<AuthState>, ops: seq<AuthOp>)
    ensures IsRun(states, ops) && |ops| == 3 && ops[2] == RevokeAll(1)
    ensures Owns(states[2], 2, 7) && !Owns(states[3], 2, 7)
  {
    hide RefreshJtis, AccessJtis;
    var first := Register(1, 7, APP, false, false, Fresh(1, 2));
    var second := Register(2, 7, APP, false, false, Fresh(3, 4));
    var s1 := Apply(EMPTY, first);
    var s2 := Apply(s1, second);
    var s3 := Apply(s2, RevokeAll(1));
    assert 7 in Devices(s2, 1) && 7 in Listed(s2, 1);
    states, ops := [EMPTY, s1, s2, s3], [first, second, RevokeAll(1)];
    forall i | 0 <= i < 3 ensures IsStep(states[i], ops[i], states[i + 1]) {
      if i == 0 { assert Allowed(EMPTY, first); } else if i == 1 { assert Allowed(s1, second); }
    }
  }

  // ---------- Password resets ----------

  /** A reset token works once. */
  lemma ResetWorksOnce(s: AuthState, u: UserId, jti: Jti)
    requires Inv(s) && Refusal(s, ResetPassword(u, jti)).None?
    ensures Refusal(Apply(s, ResetPassword(u, jti)), ResetPassword(u, jti)) == Some(InvalidResetToken)
  {}
}
