/** The authentication use case over its stores. */
module AuthService {
  import opened Wrappers
  import opened AuthModel
  import opened AuthTheorems

  /** Ending sessions one after the other ends all of them. */
  lemma RevokeOneMore(s: AuthState, done: set<DeviceId>, d: DeviceId)
    requires d in s.sessions && d !in done
    ensures d in RevokeDevices(s, done).sessions
    ensures RevokeDevices(RevokeDevices(s, done), {d}) == RevokeDevices(s, done + {d})
  {
    hide RefreshJtis, AccessJtis;
    var first := RevokeDevices(s, done);
    JtisOneMore(s, done, d);
    IndexOneMore(s, done, d);
    var both, once := RevokeDevices(first, {d}), RevokeDevices(s, done + {d});
    assert both.sessions == once.sessions;
    assert both.stored == once.stored;
    assert both.blacklist == once.blacklist;
  }

  lemma JtisOneMore(s: AuthState, done: set<DeviceId>, d: DeviceId)
    requires d in s.sessions && d !in done
    ensures RefreshJtis(RevokeDevices(s, done), {d}) == {s.sessions[d].refreshJti}
    ensures AccessJtis(RevokeDevices(s, done), {d}) == {s.sessions[d].accessJti}
    ensures RefreshJtis(s, done + {d}) == RefreshJtis(s, done) + {s.sessions[d].refreshJti}
    ensures AccessJtis(s, done + {d}) == AccessJtis(s, done) + {s.sessions[d].accessJti}
  {}

  lemma IndexOneMore(s: AuthState, done: set<DeviceId>, d: DeviceId)
    requires d in s.sessions && d !in done
    ensures RevokeDevices(RevokeDevices(s, done), {d}).sessionIndex == RevokeDevices(s, done + {d}).sessionIndex
  {
    hide RefreshJtis, AccessJtis;
    var both, once := RevokeDevices(RevokeDevices(s, done), {d}), RevokeDevices(s, done + {d});
    forall u | u in s.sessionIndex ensures both.sessionIndex[u] == once.sessionIndex[u] {}
    assert both.sessionIndex == once.sessionIndex;
  }

  lemma RevokeOneByParts(s: AuthState, d: DeviceId)
    requires d in s.sessions
    ensures var x, after := s.sessions[d], RevokeDevices(s, {d});
      after.sessions == s.sessions - {d} && after.stored == s.stored - {x.refreshJti} &&
      after.blacklist == s.blacklist + {x.accessJti} &&
      after.sessionIndex ==
        if x.userId in s.sessionIndex then s.sessionIndex[x.userId := s.sessionIndex[x.userId] - {d}] else s.sessionIndex
  {
    assert RefreshJtis(s, {d}) == {s.sessions[d].refreshJti};
    assert AccessJtis(s, {d}) == {s.sessions[d].accessJti};
    forall u | u in s.sessionIndex
      ensures RevokeDevices(s, {d}).sessionIndex[u] ==
        if u == s.sessions[d].userId then s.sessionIndex[u] - {d} else s.sessionIndex[u]
    {}
  }

  class AuthUseCase {
    var users: map<UserId, User>
    var sessions: map<DeviceId, Session>
    var sessionIndex: map<UserId, set<DeviceId>>
    var stored: map<Jti, RefreshRecord>
    var used: map<Jti, RefreshRecord>
    var blacklist: set<Jti>
    var resets: map<Jti, UserId>
    ghost var issued: set<Jti>

    ghost function State(): AuthState
      reads this
    {
      AuthState(users, sessions, sessionIndex, stored, used, blacklist, resets, issued)
    }

    constructor ()
      ensures State() == EMPTY
    {
      users, sessions, sessionIndex := map[], map[], map[];
      stored, used, blacklist, resets, issued := map[], map[], {}, map[], {};
    }

    // ---------- Revoking ----------

    method RevokeSessionObject(d: DeviceId)
      requires d in sessions
      modifies this`sessions, this`sessionIndex, this`stored, this`blacklist
      ensures State() == RevokeDevices(old(State()), {d})
    {
      RevokeOneByParts(State(), d);
      var session := sessions[d];
      stored := stored - {session.refreshJti};
      blacklist := blacklist + {session.accessJti};
      sessions := sessions - {d};
      if session.userId in sessionIndex {
        sessionIndex := sessionIndex[session.userId := sessionIndex[session.userId] - {d}];
      }
    }

    method RevokeSessionByDevice(u: UserId, d: DeviceId) returns (revoked: bool)
      modifies this`sessions, this`sessionIndex, this`stored, this`blacklist
      ensures State() == RevokeByDevice(old(State()), u, d) && revoked == Owns(old(State()), u, d)
    {
      if d !in sessions || sessions[d].userId != u { return false; }
      RevokeSessionObject(d);
      return true;
    }

    /** The devices of a user's index that still have a session; the others leave the index. */
    method ListByUser(u: UserId) returns (devices: set<DeviceId>)
      modifies this`sessionIndex
      ensures State() == CleanIndex(old(State()), u) && devices == Listed(old(State()), u)
    {
      devices := {};
      if u in sessionIndex {
        devices := set d | d in sessionIndex[u] && d in sessions;
        sessionIndex := sessionIndex[u := devices];
      }
    }

    method RevokeEach(devices: set<DeviceId>)
      requires devices <= sessions.Keys
      modifies this`sessions, this`sessionIndex, this`stored, this`blacklist
      ensures State() == RevokeDevices(old(State()), devices)
    {
      hide RevokeDevices;
      var left := devices;
      ghost var start, done: set<DeviceId> := State(), {};
      RevokeNone(start);
      while left != {}
        invariant left + done == devices && left !! done
        invariant State() == RevokeDevices(start, done)
        decreases |left|
      {
        var d :| d in left;
        RevokeOneMore(start, done, d);
        RevokeSessionObject(d);
        left, done := left - {d}, done + {d};
      }
      assert done == devices;
    }

    method RevokeSessionsByPlatform(u: UserId, platform: Platform, excluded: DeviceId)
      modifies this`sessions, this`sessionIndex, this`stored, this`blacklist
      ensures State() == RevokeListed(old(State()), u, Elsewhere(old(State()), u, platform, excluded))
    {
      hide RevokeDevices;
      var listed := ListByUser(u);
      var others := set d | d in listed && d != excluded && sessions[d].platform == platform;
      assert others == Elsewhere(old(State()), u, platform, excluded);
      RevokeEach(others);
    }

    method RevokeAllOf(u: UserId)
      modifies this`sessions, this`sessionIndex, this`stored, this`blacklist
      ensures State() == RevokeAllSessions(old(State()), u)
    {
      hide RevokeDevices;
      var listed := ListByUser(u);
      RevokeEach(listed);
    }

    // ---------- Issuing ----------

    /** Writes the session and lists it, and with it renews the lifetimes of both. */
    method CreateSession(u: UserId, d: DeviceId, platform: Platform, version: nat, f: Fresh)
      modifies this`sessions, this`sessionIndex, this`stored, this`issued
      ensures State() == Issue(old(State()), u, d, platform, version, f)
    {
      stored := stored[f.refreshJti := RefreshRecord(u, d, version)];
      sessions := sessions[d := Session(u, platform, f.refreshJti, f.accessJti, version)];
      sessionIndex := sessionIndex[u := (if u in sessionIndex then sessionIndex[u] else {}) + {d}];
      issued := issued + {f.accessJti, f.refreshJti};
    }

    // ---------- The use cases ----------

    /** How each use case answers: the step's refusal, and its new state either way. */
    ghost predicate Steps(before: AuthState, op: AuthOp, error: Option<AuthError>)
      reads this
    {
      error == Refusal(before, op) && State() == Apply(before, op)
    }

    method RegisterUser(u: UserId, d: DeviceId, platform: Platform, taken: bool, awaitsEmail: bool, f: Fresh)
      returns (error: Option<AuthError>)
      modifies this
      ensures Steps(old(State()), Register(u, d, platform, taken, awaitsEmail, f), error)
    {
      if taken { return Some(AlreadyRegistered); }
      users := users[u := User(1, false)];
      if awaitsEmail { return None; }
      CreateSession(u, d, platform, 1, f);
      return None;
    }

    method LogIn(u: UserId, d: DeviceId, platform: Platform, passwordMatches: bool, emailPending: bool, f: Fresh)
      returns (error: Option<AuthError>)
      modifies this
      ensures Steps(old(State()), Login(u, d, platform, passwordMatches, emailPending, f), error)
    {
      hide RevokeDevices, Issue, Elsewhere;
      if u !in users { return Some(InvalidCredentials); }
      if !passwordMatches { return Some(InvalidCredentials); }
      if users[u].disabled { return Some(UserInactivated); }
      if emailPending { return Some(EmailNotVerified); }
      var _ := RevokeSessionByDevice(u, d);
      if platform == WEB { RevokeSessionsByPlatform(u, platform, d); }
      CreateSession(u, d, platform, users[u].tokenVersion, f);
      return None;
    }

    /** The checks of an exchange, which only read unless the token was used before. */
    method CheckRefresh(t: RefreshToken) returns (error: Option<AuthError>)
      modifies this`sessions, this`sessionIndex, this`stored, this`blacklist
      ensures error == RefreshRefusal(old(State()), t)
      ensures State() == if error.Some? then Reused(old(State()), t) else old(State())
    {
      hide RevokeDevices;
      if t.jti !in stored {
        if t.jti in used { var _ := RevokeSessionByDevice(used[t.jti].userId, used[t.jti].deviceId); }
        return Some(InvalidToken);
      }
      var record := stored[t.jti];
      if record.userId != t.sub || record.deviceId != t.deviceId || record.version != t.version {
        return Some(InvalidToken);
      }
      if t.sub !in users { return Some(DataNotFound); }
      if users[t.sub].disabled { return Some(UserInactivated); }
      if t.version != users[t.sub].tokenVersion { return Some(InvalidToken); }
      if t.deviceId !in sessions || sessions[t.deviceId].userId != t.sub || sessions[t.deviceId].refreshJti != t.jti {
        return Some(InvalidToken);
      }
      return None;
    }

    /** The writes of an exchange, whatever has happened since its checks. */
    method WriteExchange(t: RefreshToken, f: Fresh)
      modifies this`sessions, this`stored, this`used, this`issued
      ensures State() == Exchange(old(State()), t, f)
    {
      SpendToken(t, f);
      UpdateSession(t, f);
    }

    /** Spends the token and stores the one that replaces it. */
    method SpendToken(t: RefreshToken, f: Fresh)
      modifies this`stored, this`used, this`issued
      ensures State() == Reissue(old(State()), t, f)
    {
      if t.jti in stored {
        used := used[t.jti := stored[t.jti]];
        stored := stored - {t.jti};
      }
      issued := issued + {f.accessJti, f.refreshJti};
      stored := stored[f.refreshJti := RefreshRecord(t.sub, t.deviceId, t.version)];
    }

    /** Reads the device's session and writes it back with the new pair, for another lifetime; its index is not renewed. */
    method UpdateSession(t: RefreshToken, f: Fresh)
      modifies this`sessions
      ensures State() ==
        if t.deviceId in old(sessions)
        then PutSession(old(State()), t.deviceId, Renewed(old(sessions)[t.deviceId], t, f))
        else old(State())
    {
      if t.deviceId in sessions {
        sessions := sessions[t.deviceId := sessions[t.deviceId].(
          refreshJti := f.refreshJti, accessJti := f.accessJti, version := t.version)];
      }
    }

    /** An exchange that nothing comes between. */
    method RefreshTokens(t: RefreshToken, f: Fresh) returns (error: Option<AuthError>)
      modifies this
      ensures Steps(old(State()), Refresh(t, f), error)
    {
      hide RevokeDevices, Exchange;
      error := CheckRefresh(t);
      if error.None? { WriteExchange(t, f); }
    }

    method LogOut(requester: AccessToken, otherDevice: Option<DeviceId>)
      modifies this
      ensures Steps(old(State()), Logout(requester, otherDevice), None)
    {
      hide RevokeDevices;
      var effectiveDeviceId := match otherDevice case Some(d) => d case None => requester.deviceId;
      var _ := RevokeSessionByDevice(requester.sub, effectiveDeviceId);
      blacklist := blacklist + {requester.jti};
    }

    method RevokeOneSession(u: UserId, d: DeviceId) returns (revoked: bool)
      modifies this
      ensures Steps(old(State()), RevokeSession(u, d), None) && revoked == Owns(old(State()), u, d)
    {
      hide RevokeDevices;
      revoked := RevokeSessionByDevice(u, d);
    }

    method LogOutEverywhere(u: UserId)
      modifies this
      ensures Steps(old(State()), RevokeAll(u), None)
    {
      hide RevokeDevices;
      RevokeAllOf(u);
    }

    method RevokeOtherSessions(u: UserId, current: DeviceId) returns (error: Option<AuthError>)
      modifies this
      ensures Steps(old(State()), RevokeOthers(u, current), error)
    {
      hide RevokeDevices;
      if current !in sessions || sessions[current].userId != u { return Some(InvalidToken); }
      var listed := ListByUser(u);
      RevokeEach(listed - {current});
      return None;
    }

    method ChangeThePassword(u: UserId, passwordMatches: bool) returns (error: Option<AuthError>)
      modifies this
      ensures Steps(old(State()), ChangePassword(u, passwordMatches), error)
    {
      hide RevokeDevices;
      if u !in users { return Some(UserNotFound); }
      if !passwordMatches { return Some(InvalidCurrentPassword); }
      users := users[u := users[u].(tokenVersion := users[u].tokenVersion + 1)];
      RevokeAllOf(u);
      return None;
    }

    method ResetThePassword(u: UserId, resetJti: Jti) returns (error: Option<AuthError>)
      modifies this
      ensures Steps(old(State()), ResetPassword(u, resetJti), error)
    {
      hide RevokeDevices;
      if resetJti !in resets || resets[resetJti] != u { return Some(InvalidResetToken); }
      if u !in users { return Some(UserNotFound); }
      users := users[u := users[u].(tokenVersion := users[u].tokenVersion + 1)];
      resets := resets - {resetJti};
      RevokeAllOf(u);
      return None;
    }

    method Introspect(t: AccessToken) returns (isOk: bool)
      ensures isOk <==> Accepted(State(), t)
    {
      if t.jti in blacklist { return false; }
      if t.sub !in users { return false; }
      if users[t.sub].disabled { return false; }
      if users[t.sub].tokenVersion != t.version { return false; }
      if t.deviceId !in sessions { return false; }
      var session := sessions[t.deviceId];
      return session.userId == t.sub && session.accessJti == t.jti;
    }
  }
}
