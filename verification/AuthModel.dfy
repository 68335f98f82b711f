/** Sessions and tokens: what logging in, refreshing, logging out and password changes do to the stores. */
module AuthModel {
  import opened Wrappers

  type UserId = nat
  type DeviceId = nat
  type Jti = nat

  datatype Platform = WEB | APP

  datatype User = User(tokenVersion: nat, disabled: bool)

  datatype Session = Session(userId: UserId, platform: Platform, refreshJti: Jti, accessJti: Jti, version: nat)

  datatype RefreshRecord = RefreshRecord(userId: UserId, deviceId: DeviceId, version: nat)

  /** A signed token is the payload it carries. */
  datatype AccessToken = AccessToken(jti: Jti, sub: UserId, version: nat, deviceId: DeviceId)
  datatype RefreshToken = RefreshToken(jti: Jti, sub: UserId, version: nat, deviceId: DeviceId)

  /** `sessionIndex` lists a user's devices; `issued` holds every token id ever generated. */
  datatype AuthState = AuthState(
    users: map<UserId, User>,
    sessions: map<DeviceId, Session>,
    sessionIndex: map<UserId, set<DeviceId>>,
    stored: map<Jti, RefreshRecord>,
    used: map<Jti, RefreshRecord>,
    blacklist: set<Jti>,
    resets: map<Jti, UserId>,
    issued: set<Jti>
  )

  datatype AuthError =
    | InvalidCredentials | UserInactivated | EmailNotVerified | InvalidToken | DataNotFound
    | UserNotFound | InvalidCurrentPassword | InvalidResetToken | AlreadyRegistered

  /** The token ids a step generates. */
  datatype Fresh = Fresh(accessJti: Jti, refreshJti: Jti)

  datatype AuthOp =
    | Register(userId: UserId, deviceId: DeviceId, platform: Platform, taken: bool, awaitsEmail: bool, tokens: Fresh)
    | Login(userId: UserId, deviceId: DeviceId, platform: Platform, passwordMatches: bool, emailPending: bool, tokens: Fresh)
    | Refresh(token: RefreshToken, tokens: Fresh)
    | Logout(requester: AccessToken, otherDevice: Option<DeviceId>)
    | RevokeSession(userId: UserId, deviceId: DeviceId)
    | RevokeAll(userId: UserId)
    | RevokeOthers(userId: UserId, deviceId: DeviceId)
    | ChangePassword(userId: UserId, passwordMatches: bool)
    | IssueReset(userId: UserId, resetJti: Jti)
    | ResetPassword(userId: UserId, resetJti: Jti)
    | SetDisabled(userId: UserId, disabled: bool)
    | ExpireSession(deviceId: DeviceId)
    | ExpireIndex(userId: UserId)

  // ---------- Revoking ----------

  function Devices(s: AuthState, u: UserId): set<DeviceId> {
    if u in s.sessionIndex then s.sessionIndex[u] else {}
  }

  function RefreshJtis(s: AuthState, devices: set<DeviceId>): set<Jti> {
    set d | d in devices && d in s.sessions :: s.sessions[d].refreshJti
  }

  function AccessJtis(s: AuthState, devices: set<DeviceId>): set<Jti> {
    set d | d in devices && d in s.sessions :: s.sessions[d].accessJti
  }

  /** Ends the sessions on `devices`, whoever they belong to. */
  function RevokeDevices(s: AuthState, devices: set<DeviceId>): AuthState {
    s.(sessions := map d | d in s.sessions && d !in devices :: s.sessions[d],
       stored := map j | j in s.stored && j !in RefreshJtis(s, devices) :: s.stored[j],
       blacklist := s.blacklist + AccessJtis(s, devices),
       sessionIndex := map u | u in s.sessionIndex ::
         set d | d in s.sessionIndex[u] && !(d in devices && d in s.sessions && s.sessions[d].userId == u))
  }

  predicate Owns(s: AuthState, u: UserId, d: DeviceId) {
    d in s.sessions && s.sessions[d].userId == u
  }

  function RevokeByDevice(s: AuthState, u: UserId, d: DeviceId): AuthState {
    if Owns(s, u, d) then RevokeDevices(s, {d}) else s
  }

  /** Listing a user's sessions drops the devices without a session from the index. */
  function CleanIndex(s: AuthState, u: UserId): AuthState {
    if u in s.sessionIndex
    then s.(sessionIndex := s.sessionIndex[u := set d | d in s.sessionIndex[u] && d in s.sessions])
    else s
  }

  /** The devices in `u`'s index that have a session, on whatever platform and of whichever user. */
  function Listed(s: AuthState, u: UserId): set<DeviceId> {
    set d | d in Devices(s, u) && d in s.sessions
  }

  function RevokeListed(s: AuthState, u: UserId, devices: set<DeviceId>): AuthState {
    RevokeDevices(CleanIndex(s, u), devices)
  }

  function RevokeAllSessions(s: AuthState, u: UserId): AuthState {
    RevokeListed(s, u, Listed(s, u))
  }

  function Elsewhere(s: AuthState, u: UserId, platform: Platform, d: DeviceId): set<DeviceId> {
    set e | e in Listed(s, u) && e != d && s.sessions[e].platform == platform
  }

  // ---------- Issuing ----------

  /** Generates both tokens and writes the device's session over whatever was there. */
  function Issue(s: AuthState, u: UserId, d: DeviceId, platform: Platform, version: nat, f: Fresh): AuthState {
    s.(sessions := s.sessions[d := Session(u, platform, f.refreshJti, f.accessJti, version)],
       sessionIndex := s.sessionIndex[u := Devices(s, u) + {d}],
       stored := s.stored[f.refreshJti := RefreshRecord(u, d, version)],
       issued := s.issued + {f.accessJti, f.refreshJti})
  }

  function BeforeLogin(s: AuthState, u: UserId, d: DeviceId, platform: Platform): AuthState {
    var replaced := RevokeByDevice(s, u, d);
    if platform == WEB then RevokeListed(replaced, u, Elsewhere(replaced, u, WEB, d)) else replaced
  }

  /** A stored token becomes a used one; one that is stored no more leaves no trace. */
  function Consume(s: AuthState, jti: Jti): AuthState {
    if jti in s.stored then s.(stored := s.stored - {jti}, used := s.used[jti := s.stored[jti]]) else s
  }

  /** Spends the token and stores a new one. */
  function Reissue(s: AuthState, t: RefreshToken, f: Fresh): AuthState {
    var consumed := Consume(s, t.jti);
    consumed.(stored := consumed.stored[f.refreshJti := RefreshRecord(t.sub, t.deviceId, t.version)],
              issued := s.issued + {f.accessJti, f.refreshJti})
  }

  /** The session as an exchange writes it back. */
  function Renewed(x: Session, t: RefreshToken, f: Fresh): Session {
    x.(refreshJti := f.refreshJti, accessJti := f.accessJti, version := t.version)
  }

  function PutSession(s: AuthState, d: DeviceId, x: Session): AuthState {
    s.(sessions := s.sessions[d := x])
  }

  /**
   * Spends the token, stores a new one, and puts the new pair into the device's session, whosever it is by then; the
   * index and its lifetime are left alone, and a session that is gone stays gone.
   */
  function Exchange(s: AuthState, t: RefreshToken, f: Fresh): AuthState {
    if t.deviceId in s.sessions
    then PutSession(Reissue(s, t, f), t.deviceId, Renewed(s.sessions[t.deviceId], t, f))
    else Reissue(s, t, f)
  }

  // ---------- Checks ----------

  /** `introspect` */
  predicate Accepted(s: AuthState, t: AccessToken) {
    t.jti !in s.blacklist &&
    t.sub in s.users && !s.users[t.sub].disabled && s.users[t.sub].tokenVersion == t.version &&
    Owns(s, t.sub, t.deviceId) && s.sessions[t.deviceId].accessJti == t.jti
  }

  function RefreshRefusal(s: AuthState, t: RefreshToken): Option<AuthError> {
    if t.jti !in s.stored then Some(InvalidToken)
    else if s.stored[t.jti] != RefreshRecord(t.sub, t.deviceId, t.version) then Some(InvalidToken)
    else if t.sub !in s.users then Some(DataNotFound)
    else if s.users[t.sub].disabled then Some(UserInactivated)
    else if t.version != s.users[t.sub].tokenVersion then Some(InvalidToken)
    else if !Owns(s, t.sub, t.deviceId) || s.sessions[t.deviceId].refreshJti != t.jti then Some(InvalidToken)
    else None
  }

  predicate Exchangeable(s: AuthState, t: RefreshToken) {
    RefreshRefusal(s, t).None?
  }

  // ---------- Steps ----------

  function Refusal(s: AuthState, op: AuthOp): Option<AuthError> {
    match op
    case Register(_, _, _, taken, _, _) => if taken then Some(AlreadyRegistered) else None
    case Login(u, _, _, matches, emailPending, _) =>
      if u !in s.users || !matches then Some(InvalidCredentials)
      else if s.users[u].disabled then Some(UserInactivated)
      else if emailPending then Some(EmailNotVerified)
      else None
    case Refresh(t, _) => RefreshRefusal(s, t)
    case RevokeOthers(u, d) => if !Owns(s, u, d) then Some(InvalidToken) else None
    case ChangePassword(u, matches) =>
      if u !in s.users then Some(UserNotFound) else if !matches then Some(InvalidCurrentPassword) else None
    case IssueReset(u, _) => if u !in s.users then Some(UserNotFound) else None
    case ResetPassword(u, jti) =>
      if jti !in s.resets || s.resets[jti] != u then Some(InvalidResetToken)
      else if u !in s.users then Some(UserNotFound)
      else None
    case Logout(_, _) => None
    case RevokeSession(_, _) => None
    case RevokeAll(_) => None
    case SetDisabled(_, _) => None
    case ExpireSession(_) => None
    case ExpireIndex(_) => None
  }

  function NewVersion(s: AuthState, u: UserId): AuthState
    requires u in s.users
  {
    s.(users := s.users[u := s.users[u].(tokenVersion := s.users[u].tokenVersion + 1)])
  }

  /** A used refresh token that is presented again ends the session it was used for. */
  function Reused(s: AuthState, t: RefreshToken): AuthState {
    if t.jti !in s.stored && t.jti in s.used then RevokeByDevice(s, s.used[t.jti].userId, s.used[t.jti].deviceId) else s
  }

  /** A refused step changes nothing else. */
  function Refused(s: AuthState, op: AuthOp): AuthState {
    if op.Refresh? then Reused(s, op.token) else s
  }

  function Apply(s: AuthState, op: AuthOp): AuthState {
    if Refusal(s, op).Some? then Refused(s, op) else
    match op
    case Register(u, d, platform, _, awaitsEmail, f) =>
      var created := s.(users := s.users[u := User(1, false)]);
      if awaitsEmail then created else Issue(created, u, d, platform, 1, f)
    case Login(u, d, platform, _, _, f) =>
      Issue(BeforeLogin(s, u, d, platform), u, d, platform, s.users[u].tokenVersion, f)
    case Refresh(t, f) => Exchange(s, t, f)
    case Logout(requester, device) =>
      var ended := RevokeByDevice(s, requester.sub, if device.Some? then device.value else requester.deviceId);
      ended.(blacklist := ended.blacklist + {requester.jti})
    case RevokeSession(u, d) => RevokeByDevice(s, u, d)
    case RevokeAll(u) => RevokeAllSessions(s, u)
    case RevokeOthers(u, d) => RevokeListed(s, u, Listed(s, u) - {d})
    case ChangePassword(u, _) => RevokeAllSessions(NewVersion(s, u), u)
    case IssueReset(u, jti) => s.(resets := s.resets[jti := u], issued := s.issued + {jti})
    case ResetPassword(u, jti) => RevokeAllSessions(NewVersion(s, u).(resets := s.resets - {jti}), u)
    case SetDisabled(u, disabled) => if u in s.users then s.(users := s.users[u := s.users[u].(disabled := disabled)]) else s
    case ExpireSession(d) => s.(sessions := s.sessions - {d})
    case ExpireIndex(u) => s.(sessionIndex := s.sessionIndex - {u})
  }

  predicate FreshFor(s: AuthState, f: Fresh) {
    f.accessJti !in s.issued && f.refreshJti !in s.issued && f.accessJti != f.refreshJti
  }

  /**
   * Generated ids are new, and so is a registered user's. A session and a user's index have lifetimes of their own:
   * a login renews both, an exchange only the session's, so either may run out while the other is alive.
   */
  predicate Allowed(s: AuthState, op: AuthOp) {
    match op
    case Register(u, _, _, _, _, f) => u !in s.users && FreshFor(s, f)
    case Login(_, _, _, _, _, f) => FreshFor(s, f)
    case Refresh(_, f) => FreshFor(s, f)
    case IssueReset(_, jti) => jti !in s.issued
    case Logout(requester, _) => requester.jti in s.issued
    case RevokeSession(_, _) => true
    case RevokeAll(_) => true
    case RevokeOthers(_, _) => true
    case ChangePassword(_, _) => true
    case ResetPassword(_, _) => true
    case SetDisabled(_, _) => true
    case ExpireSession(_) => true
    case ExpireIndex(_) => true
  }

  const EMPTY := AuthState(map[], map[], map[], map[], map[], {}, map[], {})

  ghost predicate IsRun(states: seq<AuthState>, ops: seq<AuthOp>) {
    |states| == |ops| + 1 && states[0] == EMPTY &&
    forall i :: 0 <= i < |ops| ==> IsStep(states[i], ops[i], states[i + 1])
  }

  ghost predicate IsStep(s: AuthState, op: AuthOp, after: AuthState) {
    Allowed(s, op) && after == Apply(s, op)
  }
}
