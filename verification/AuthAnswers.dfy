/**
 * Which use cases are granted, which sessions and tokens each of them ends or issues, and to whom, read off the stores.
 */
module AuthAnswers {
  import opened Wrappers
  import opened AuthModel
  import opened AuthTheorems
  import opened AuthSafety

  // ---------- What is granted ----------

  predicate Holds(s: AuthState, u: UserId, d: DeviceId) {
    d in s.sessions && s.sessions[d].userId == u
  }

  predicate Registered(s: AuthState, u: UserId) {
    u in s.users && !s.users[u].disabled
  }

  /** The refresh token is stored as it is signed, current for its enabled user, and its device session's own. */
  predicate Redeemable(s: AuthState, t: RefreshToken) {
    t.jti in s.stored && s.stored[t.jti].userId == t.sub && s.stored[t.jti].deviceId == t.deviceId &&
    s.stored[t.jti].version == t.version && Registered(s, t.sub) && s.users[t.sub].tokenVersion == t.version &&
    Holds(s, t.sub, t.deviceId) && s.sessions[t.deviceId].refreshJti == t.jti
  }

  predicate Grants(s: AuthState, op: AuthOp) {
    match op
    case Register(_, _, _, taken, _, _) => !taken
    case Login(u, _, _, matches, emailPending, _) => Registered(s, u) && matches && !emailPending
    case Refresh(t, _) => Redeemable(s, t)
    case RevokeOthers(u, d) => Holds(s, u, d)
    case ChangePassword(u, matches) => u in s.users && matches
    case IssueReset(u, _) => u in s.users
    case ResetPassword(u, jti) => u in s.users && jti in s.resets && s.resets[jti] == u
    case Logout(_, _) => true
    case RevokeSession(_, _) => true
    case RevokeAll(_) => true
    case SetDisabled(_, _) => true
    case ExpireSession(_) => true
    case ExpireIndex(_) => true
  }

  /** All that runs take for granted: ids that are generated are new, a registered user too, and a token logged out with was issued. */
  lemma AllowedMeans(s: AuthState, op: AuthOp)
    ensures !(op.Register? || op.Login? || op.Refresh? || op.IssueReset? || op.Logout?) ==> Allowed(s, op)
    ensures (op.Register? || op.Login? || op.Refresh?) ==>
      (Allowed(s, op) <==>
        op.tokens.accessJti !in s.issued && op.tokens.refreshJti !in s.issued && op.tokens.accessJti != op.tokens.refreshJti &&
        (op.Register? ==> op.userId !in s.users))
    ensures op.IssueReset? ==> (Allowed(s, op) <==> op.resetJti !in s.issued)
    ensures op.Logout? ==> (Allowed(s, op) <==> op.requester.jti in s.issued)
  {}

  /** A refused use case changes nothing, unless it is an exchange of a token that was used before. */
  lemma ActsIffGranted(s: AuthState, op: AuthOp)
    ensures Refusal(s, op).None? <==> Grants(s, op)
    ensures !Grants(s, op) && !(op.Refresh? && op.token.jti !in s.stored && op.token.jti in s.used) ==> Apply(s, op) == s
  {}

  /** An error is true of the stores or of what was asked. */
  lemma ErrorsAreTrue(s: AuthState, op: AuthOp)
    requires Refusal(s, op).Some?
    ensures match Refusal(s, op).value {
        case AlreadyRegistered => op.Register? && op.taken
        case InvalidCredentials => op.Login? && (op.userId !in s.users || !op.passwordMatches)
        case UserInactivated =>
          (op.Login? && op.userId in s.users && s.users[op.userId].disabled) ||
          (op.Refresh? && op.token.sub in s.users && s.users[op.token.sub].disabled)
        case EmailNotVerified => op.Login? && op.emailPending
        case DataNotFound => op.Refresh? && op.token.sub !in s.users
        case InvalidToken =>
          (op.RevokeOthers? && !Holds(s, op.userId, op.deviceId)) || (op.Refresh? && !Redeemable(s, op.token))
        case UserNotFound => (op.ChangePassword? || op.IssueReset? || op.ResetPassword?) && op.userId !in s.users
        case InvalidCurrentPassword => op.ChangePassword? && !op.passwordMatches
        case InvalidResetToken => op.ResetPassword? && !(op.resetJti in s.resets && s.resets[op.resetJti] == op.userId)
      }
  {}

  // ---------- Which sessions end ----------

  predicate InIndex(s: AuthState, u: UserId, d: DeviceId) {
    u in s.sessionIndex && d in s.sessionIndex[u]
  }

  /** The use case ends the session on the device, and with it the tokens that session holds. */
  predicate Ends(s: AuthState, op: AuthOp, d: DeviceId) {
    d in s.sessions &&
    match op
    case Login(u, e, platform, _, _, _) =>
      Grants(s, op) &&
      ((d == e && Holds(s, u, d)) || (d != e && platform == WEB && s.sessions[d].platform == WEB && InIndex(s, u, d)))
    case Refresh(t, _) =>
      t.jti !in s.stored && t.jti in s.used && d == s.used[t.jti].deviceId && Holds(s, s.used[t.jti].userId, d)
    case Logout(a, other) => d == (match other { case Some(e) => e case None => a.deviceId }) && Holds(s, a.sub, d)
    case RevokeSession(u, e) => d == e && Holds(s, u, d)
    case RevokeAll(u) => InIndex(s, u, d)
    case RevokeOthers(u, e) => Grants(s, op) && InIndex(s, u, d) && d != e
    case ChangePassword(u, _) => Grants(s, op) && InIndex(s, u, d)
    case ResetPassword(u, _) => Grants(s, op) && InIndex(s, u, d)
    case Register(_, _, _, _, _, _) => false
    case IssueReset(_, _) => false
    case SetDisabled(_, _) => false
    case ExpireSession(_) => false
    case ExpireIndex(_) => false
  }

  function Ended(s: AuthState, op: AuthOp): set<DeviceId> {
    set d | d in s.sessions && Ends(s, op, d)
  }

  /** The session the use case writes, if it writes one on the device. */
  function Written(s: AuthState, op: AuthOp, d: DeviceId): Option<Session> {
    match op
    case Register(u, e, platform, _, awaitsEmail, f) =>
      if Grants(s, op) && !awaitsEmail && d == e then Some(Session(u, platform, f.refreshJti, f.accessJti, 1)) else None
    case Login(u, e, platform, _, _, f) =>
      if Grants(s, op) && d == e then Some(Session(u, platform, f.refreshJti, f.accessJti, s.users[u].tokenVersion)) else None
    case Refresh(t, f) =>
      if Grants(s, op) && d == t.deviceId
      then Some(Session(t.sub, s.sessions[d].platform, f.refreshJti, f.accessJti, t.version)) else None
    case _ => None
  }

  // ---------- How the stores come out ----------

  function SessionOn(s: AuthState, d: DeviceId): Option<Session> {
    if d in s.sessions then Some(s.sessions[d]) else None
  }

  predicate EndedHeldRefresh(s: AuthState, op: AuthOp, j: Jti) {
    exists d :: d in s.sessions && Ends(s, op, d) && s.sessions[d].refreshJti == j
  }

  predicate EndedHeldAccess(s: AuthState, op: AuthOp, j: Jti) {
    exists d :: d in s.sessions && Ends(s, op, d) && s.sessions[d].accessJti == j
  }

  /** Users whose index the use case goes through, dropping the devices without a session. */
  predicate Cleans(s: AuthState, op: AuthOp, u: UserId) {
    Grants(s, op) && (op.Login? || op.RevokeAll? || op.RevokeOthers? || op.ChangePassword? || op.ResetPassword?) &&
    op.userId == u && (op.Login? ==> op.platform == WEB)
  }

  predicate Lists(s: AuthState, op: AuthOp, u: UserId, d: DeviceId) {
    (op.Register? || op.Login?) && op.userId == u && op.deviceId == d && Written(s, op, d).Some?
  }

  ghost predicate SessionsPurged(s: AuthState, op: AuthOp, t: AuthState) {
    forall d :: SessionOn(t, d) == if d in s.sessions && Ends(s, op, d) then None else SessionOn(s, d)
  }

  ghost predicate StoredPurged(s: AuthState, op: AuthOp, t: AuthState) {
    (forall j :: j in t.stored <==> j in s.stored && !EndedHeldRefresh(s, op, j)) &&
    forall j :: j in t.stored ==> t.stored[j] == s.stored[j]
  }

  ghost predicate BlacklistPurged(s: AuthState, op: AuthOp, t: AuthState) {
    forall j :: j in t.blacklist <==> j in s.blacklist || EndedHeldAccess(s, op, j)
  }

  ghost predicate IndexPurged(s: AuthState, op: AuthOp, t: AuthState) {
    forall u, d :: InIndex(t, u, d) <==>
      InIndex(s, u, d) && !(d in s.sessions && Ends(s, op, d) && s.sessions[d].userId == u) &&
      !(Cleans(s, op, u) && d !in s.sessions)
  }

  /** `t` is `s` with the sessions ended that the use case ends, and the index it goes through cleaned. */
  ghost predicate Purged(s: AuthState, op: AuthOp, t: AuthState) {
    SessionsPurged(s, op, t) && StoredPurged(s, op, t) && BlacklistPurged(s, op, t) && IndexPurged(s, op, t)
  }

  lemma RevokeEndsSessions(s: AuthState, op: AuthOp, devices: set<DeviceId>, t: AuthState)
    requires forall d :: d in s.sessions ==> (Ends(s, op, d) <==> d in devices)
    requires t.sessions == RevokeDevices(s, devices).sessions
    ensures SessionsPurged(s, op, t)
  {
    hide Ends;
  }

  lemma RevokeEndsTokens(s: AuthState, op: AuthOp, devices: set<DeviceId>, t: AuthState)
    requires forall d :: d in s.sessions ==> (Ends(s, op, d) <==> d in devices)
    requires t.stored == RevokeDevices(s, devices).stored && t.blacklist == RevokeDevices(s, devices).blacklist
    ensures StoredPurged(s, op, t) && BlacklistPurged(s, op, t)
  {
    hide Ends;
    forall j ensures j in RefreshJtis(s, devices) <==> EndedHeldRefresh(s, op, j) {}
    forall j ensures j in AccessJtis(s, devices) <==> EndedHeldAccess(s, op, j) {}
  }

  lemma RevokeIsPurge(s: AuthState, op: AuthOp, devices: set<DeviceId>)
    requires forall d :: d in s.sessions ==> (Ends(s, op, d) <==> d in devices)
    requires forall u :: !Cleans(s, op, u)
    ensures Purged(s, op, RevokeDevices(s, devices))
  {
    hide Ends, Cleans, RefreshJtis, AccessJtis, EndedHeldRefresh, EndedHeldAccess;
    RevokeEndsSessions(s, op, devices, RevokeDevices(s, devices));
    RevokeEndsTokens(s, op, devices, RevokeDevices(s, devices));
  }

  lemma ListedEndsTokens(s: AuthState, op: AuthOp, u: UserId, devices: set<DeviceId>)
    requires forall d :: d in s.sessions ==> (Ends(s, op, d) <==> d in devices)
    ensures SessionsPurged(s, op, RevokeListed(s, u, devices))
    ensures StoredPurged(s, op, RevokeListed(s, u, devices)) && BlacklistPurged(s, op, RevokeListed(s, u, devices))
  {
    hide Ends, Cleans;
    var c := CleanIndex(s, u);
    assert RefreshJtis(c, devices) == RefreshJtis(s, devices) && AccessJtis(c, devices) == AccessJtis(s, devices);
    RevokeEndsSessions(s, op, devices, RevokeListed(s, u, devices));
    RevokeEndsTokens(s, op, devices, RevokeListed(s, u, devices));
  }

  /** Going through a user's index and ending listed sessions. */
  lemma ListedIsPurge(s: AuthState, op: AuthOp, u: UserId, devices: set<DeviceId>)
    requires forall d :: d in s.sessions ==> (Ends(s, op, d) <==> d in devices)
    requires forall v :: Cleans(s, op, v) <==> v == u
    ensures Purged(s, op, RevokeListed(s, u, devices))
  {
    hide Ends, Cleans, RefreshJtis, AccessJtis, SessionsPurged, StoredPurged, BlacklistPurged;
    ListedEndsTokens(s, op, u, devices);
  }

  lemma ByDeviceIsPurge(s: AuthState, op: AuthOp, u: UserId, d: DeviceId)
    requires forall e :: e in s.sessions ==> (Ends(s, op, e) <==> e == d && Holds(s, u, d))
    requires forall v :: !Cleans(s, op, v)
    ensures Purged(s, op, RevokeByDevice(s, u, d))
  {
    hide Ends, Cleans, RevokeDevices, Purged;
    if Owns(s, u, d) { RevokeIsPurge(s, op, {d}); } else { RevokeIsPurge(s, op, {}); RevokeNone(s); }
  }

  /** A login first ends the device's own session and then, for the web, the listed web sessions elsewhere. */
  lemma LoginIsPurge(s: AuthState, op: AuthOp)
    requires op.Login? && Grants(s, op)
    ensures Purged(s, op, BeforeLogin(s, op.userId, op.deviceId, op.platform))
  {
    var u, d := op.userId, op.deviceId;
    if op.platform == WEB {
      TwoPurges(s, op);
    } else {
      ByDeviceIsPurge(s, op, u, d);
    }
  }

  lemma TwoPurges(s: AuthState, op: AuthOp)
    requires op.Login? && Grants(s, op) && op.platform == WEB
    ensures Purged(s, op, BeforeLogin(s, op.userId, op.deviceId, WEB))
  {
    hide SessionsPurged, StoredPurged, BlacklistPurged, IndexPurged, RefreshJtis, AccessJtis, Ends;
    LoginEndsSessions(s, op);
    LoginEndsTokens(s, op);
    LoginCleansIndex(s, op);
  }

  lemma LoginEndsSessions(s: AuthState, op: AuthOp)
    requires op.Login? && Grants(s, op) && op.platform == WEB
    ensures SessionsPurged(s, op, BeforeLogin(s, op.userId, op.deviceId, WEB))
  {
    hide RefreshJtis, AccessJtis, Grants;
  }

  lemma LoginEndsTokens(s: AuthState, op: AuthOp)
    requires op.Login? && Grants(s, op) && op.platform == WEB
    ensures StoredPurged(s, op, BeforeLogin(s, op.userId, op.deviceId, WEB))
    ensures BlacklistPurged(s, op, BeforeLogin(s, op.userId, op.deviceId, WEB))
  {
    hide Grants, RevokeDevices, Ends;
    var u, d := op.userId, op.deviceId;
    var mid := RevokeByDevice(s, u, d);
    var others := Elsewhere(mid, u, WEB, d);
    assert RevokeByDevice(s, u, d) == RevokeDevices(s, if Holds(s, u, d) then {d} else {}) by { RevokeNone(s); }
    forall e | e in s.sessions ensures Ends(s, op, e) <==> (e == d && Holds(s, u, d)) || e in others { EndsOnLogin(s, op, e); }
    TwiceEndsTokens(s, op, if Holds(s, u, d) then {d} else {}, u, others);
  }

  lemma EndsOnLogin(s: AuthState, op: AuthOp, e: DeviceId)
    requires op.Login? && Grants(s, op) && op.platform == WEB && e in s.sessions
    ensures Ends(s, op, e) <==>
      (e == op.deviceId && Holds(s, op.userId, e)) || e in Elsewhere(RevokeByDevice(s, op.userId, op.deviceId), op.userId, WEB, op.deviceId)
  {
    hide Grants, RefreshJtis, AccessJtis;
  }

  lemma JtisOfBoth(s: AuthState, op: AuthOp, first: set<DeviceId>, c: AuthState, rest: set<DeviceId>, j: Jti)
    requires forall e :: e in s.sessions ==> (Ends(s, op, e) <==> e in first || e in rest)
    requires c.sessions == RevokeDevices(s, first).sessions
    ensures EndedHeldRefresh(s, op, j) <==> j in RefreshJtis(s, first) || j in RefreshJtis(c, rest)
    ensures EndedHeldAccess(s, op, j) <==> j in AccessJtis(s, first) || j in AccessJtis(c, rest)
  {
    hide Ends;
    if EndedHeldRefresh(s, op, j) {
      var d :| d in s.sessions && Ends(s, op, d) && s.sessions[d].refreshJti == j;
      assert d in first || (d in c.sessions && d in rest && c.sessions[d] == s.sessions[d]);
    }
    if EndedHeldAccess(s, op, j) {
      var d :| d in s.sessions && Ends(s, op, d) && s.sessions[d].accessJti == j;
      assert d in first || (d in c.sessions && d in rest && c.sessions[d] == s.sessions[d]);
    }
  }

  lemma TokensAfterRevoke(s: AuthState, devices: set<DeviceId>, j: Jti)
    ensures var t := RevokeDevices(s, devices);
      (j in t.stored <==> j in s.stored && j !in RefreshJtis(s, devices)) && (j in t.stored ==> t.stored[j] == s.stored[j]) &&
      (j in t.blacklist <==> j in s.blacklist || j in AccessJtis(s, devices))
  {
    hide RefreshJtis, AccessJtis;
  }

  lemma TwiceEndsTokens(s: AuthState, op: AuthOp, first: set<DeviceId>, u: UserId, rest: set<DeviceId>)
    requires forall e :: e in s.sessions ==> (Ends(s, op, e) <==> e in first || e in rest)
    ensures StoredPurged(s, op, RevokeListed(RevokeDevices(s, first), u, rest))
    ensures BlacklistPurged(s, op, RevokeListed(RevokeDevices(s, first), u, rest))
  {
    hide Ends, RefreshJtis, AccessJtis, EndedHeldRefresh, EndedHeldAccess, RevokeDevices;
    var mid := RevokeDevices(s, first);
    var c := CleanIndex(mid, u);
    var t := RevokeListed(mid, u, rest);
    forall j ensures
      (j in t.stored <==> j in s.stored && !EndedHeldRefresh(s, op, j)) && (j in t.stored ==> t.stored[j] == s.stored[j]) &&
      (j in t.blacklist <==> j in s.blacklist || EndedHeldAccess(s, op, j))
    {
      JtisOfBoth(s, op, first, c, rest, j);
      TokensAfterRevoke(s, first, j);
      TokensAfterRevoke(c, rest, j);
    }
  }

  lemma IndexAfterRevoke(s: AuthState, devices: set<DeviceId>, u: UserId, d: DeviceId)
    ensures InIndex(RevokeDevices(s, devices), u, d) <==> InIndex(s, u, d) && !(d in devices && Holds(s, u, d))
    ensures d in RevokeDevices(s, devices).sessions <==> d in s.sessions && d !in devices
    ensures d in RevokeDevices(s, devices).sessions ==> RevokeDevices(s, devices).sessions[d] == s.sessions[d]
  {
    hide RefreshJtis, AccessJtis;
  }

  lemma IndexAfterCleaning(s: AuthState, u: UserId, v: UserId, d: DeviceId)
    ensures InIndex(CleanIndex(s, u), v, d) <==> InIndex(s, v, d) && !(v == u && d !in s.sessions)
  {}

  lemma LoginCleansIndex(s: AuthState, op: AuthOp)
    requires op.Login? && Grants(s, op) && op.platform == WEB
    ensures IndexPurged(s, op, BeforeLogin(s, op.userId, op.deviceId, WEB))
  {
    hide InIndex, Ends, Elsewhere, Grants, RefreshJtis, AccessJtis;
    var u, d := op.userId, op.deviceId;
    var first := if Holds(s, u, d) then {d} else {};
    var mid := RevokeByDevice(s, u, d);
    assert mid == RevokeDevices(s, first) by { RevokeNone(s); }
    var rest := Elsewhere(mid, u, WEB, d);
    var t := BeforeLogin(s, u, d, WEB);
    forall v, e ensures InIndex(t, v, e) <==>
      InIndex(s, v, e) && !(e in s.sessions && Ends(s, op, e) && s.sessions[e].userId == v) && !(v == u && e !in s.sessions)
    {
      hide RevokeDevices, CleanIndex;
      IndexAfterRevoke(s, first, v, e);
      IndexAfterCleaning(mid, u, v, e);
      IndexAfterRevoke(CleanIndex(mid, u), rest, v, e);
      assert CleanIndex(mid, u).sessions == mid.sessions by { CleaningKeepsSessions(mid, u); }
      if e in s.sessions { EndsOnLogin(s, op, e); }
    }
    forall v ensures Cleans(s, op, v) <==> v == u {}
  }

  lemma CleaningKeepsSessions(s: AuthState, u: UserId)
    ensures CleanIndex(s, u).sessions == s.sessions
  {}

  lemma NothingIsPurged(s: AuthState, op: AuthOp)
    requires forall d :: d in s.sessions ==> !Ends(s, op, d)
    requires forall u :: !Cleans(s, op, u)
    ensures Purged(s, op, s)
  {
    hide Ends, Cleans;
  }

  lemma SameStoresPurged(s: AuthState, op: AuthOp, t: AuthState, x: AuthState)
    requires Purged(s, op, t) && x.sessions == t.sessions && x.stored == t.stored
    requires x.blacklist == t.blacklist && x.sessionIndex == t.sessionIndex
    ensures Purged(s, op, x)
  {
    hide Ends, Cleans, EndedHeldRefresh, EndedHeldAccess;
    forall d ensures SessionOn(x, d) == SessionOn(t, d) {}
    forall u, d ensures InIndex(x, u, d) == InIndex(t, u, d) {}
    assert SessionsPurged(s, op, x) && IndexPurged(s, op, x);
  }

  lemma PasswordChangeIsPurge(s: AuthState, op: AuthOp, u: UserId)
    requires (op.ChangePassword? || op.ResetPassword?) && op.userId == u && Grants(s, op)
    ensures Purged(s, op, Apply(s, op))
  {
    hide Purged, RevokeDevices;
    forall d | d in s.sessions ensures Ends(s, op, d) <==> d in Listed(s, u) {}
    ListedIsPurge(s, op, u, Listed(s, u));
    var raised := if op.ResetPassword? then NewVersion(s, u).(resets := s.resets - {op.resetJti}) else NewVersion(s, u);
    assert Listed(raised, u) == Listed(s, u);
    assert Apply(s, op) == RevokeListed(raised, u, Listed(s, u));
    SameRevocation(s, raised, u, Listed(s, u));
    SameStoresPurged(s, op, RevokeListed(s, u, Listed(s, u)), Apply(s, op));
  }

  lemma SameRevocation(s: AuthState, raised: AuthState, u: UserId, devices: set<DeviceId>)
    requires raised.(users := s.users, resets := s.resets) == s
    ensures var x, y := RevokeListed(raised, u, devices), RevokeListed(s, u, devices);
      x.sessions == y.sessions && x.stored == y.stored && x.blacklist == y.blacklist && x.sessionIndex == y.sessionIndex
  {
    hide RevokeDevices;
    var c, r := CleanIndex(s, u), CleanIndex(raised, u);
    assert c.sessions == r.sessions && c.sessionIndex == r.sessionIndex && c.stored == r.stored && c.blacklist == r.blacklist;
    SameTokens(c, r, devices);
    SameSessions(c, r, devices);
  }

  lemma SameTokens(c: AuthState, r: AuthState, devices: set<DeviceId>)
    requires c.sessions == r.sessions && c.stored == r.stored && c.blacklist == r.blacklist
    ensures RevokeDevices(c, devices).stored == RevokeDevices(r, devices).stored
    ensures RevokeDevices(c, devices).blacklist == RevokeDevices(r, devices).blacklist
  {
    assert RefreshJtis(c, devices) == RefreshJtis(r, devices) && AccessJtis(c, devices) == AccessJtis(r, devices);
  }

  lemma SameSessions(c: AuthState, r: AuthState, devices: set<DeviceId>)
    requires c.sessions == r.sessions && c.sessionIndex == r.sessionIndex
    ensures RevokeDevices(c, devices).sessions == RevokeDevices(r, devices).sessions
    ensures RevokeDevices(c, devices).sessionIndex == RevokeDevices(r, devices).sessionIndex
  {
    hide RefreshJtis, AccessJtis;
  }

  /** The token a use case stores, and for whom. */
  function Issued(s: AuthState, op: AuthOp, j: Jti): Option<RefreshRecord> {
    match op
    case Register(u, d, _, _, awaitsEmail, f) =>
      if Grants(s, op) && !awaitsEmail && j == f.refreshJti then Some(RefreshRecord(u, d, 1)) else None
    case Login(u, d, _, _, _, f) =>
      if Grants(s, op) && j == f.refreshJti then Some(RefreshRecord(u, d, s.users[u].tokenVersion)) else None
    case Refresh(t, f) =>
      if Grants(s, op) && j == f.refreshJti then Some(RefreshRecord(t.sub, t.deviceId, t.version)) else None
    case _ => None
  }

  function RecordOf(s: AuthState, j: Jti): Option<RefreshRecord> {
    if j in s.stored then Some(s.stored[j]) else None
  }

  predicate Spends(s: AuthState, op: AuthOp, j: Jti) {
    op.Refresh? && Grants(s, op) && op.token.jti == j
  }

  /** After the sessions are ended, the use case writes at most one session and one token, and may spend one. */
  ghost predicate Writes(s: AuthState, op: AuthOp, t: AuthState, after: AuthState) {
    (forall d :: SessionOn(after, d) ==
       if Written(s, op, d).Some? then Written(s, op, d) else if op == ExpireSession(d) then None else SessionOn(t, d)) &&
    (forall j :: RecordOf(after, j) ==
       if Issued(s, op, j).Some? then Issued(s, op, j) else if Spends(s, op, j) then None else RecordOf(t, j)) &&
    (forall j :: j in after.blacklist <==> j in t.blacklist || (op.Logout? && op.requester.jti == j)) &&
    forall u, d :: InIndex(after, u, d) <==> Lists(s, op, u, d) || (InIndex(t, u, d) && op != ExpireIndex(u))
  }

  lemma IssueWrites(s: AuthState, op: AuthOp, t: AuthState)
    requires (op.Login? || (op.Register? && !op.awaitsEmail)) && Grants(s, op)
    ensures Writes(s, op, t, Issue(t, op.userId, op.deviceId, op.platform, if op.Login? then s.users[op.userId].tokenVersion else 1, op.tokens))
  {}

  lemma ExchangeWrites(s: AuthState, op: AuthOp)
    requires op.Refresh? && Grants(s, op)
    ensures Writes(s, op, s, Apply(s, op))
  {}

  lemma SameWrites(s: AuthState, op: AuthOp, t: AuthState, after: AuthState)
    requires forall d :: Written(s, op, d).None? && op != ExpireSession(d)
    requires forall j :: Issued(s, op, j).None? && !Spends(s, op, j)
    requires forall u, d :: !Lists(s, op, u, d) && op != ExpireIndex(u)
    requires after.sessions == t.sessions && after.stored == t.stored && after.sessionIndex == t.sessionIndex
    requires forall j :: j in after.blacklist <==> j in t.blacklist || (op.Logout? && op.requester.jti == j)
    ensures Writes(s, op, t, after)
  {
    hide Written, Issued, Spends, Lists;
  }

  lemma StepIsPurgeAndWrite(s: AuthState, op: AuthOp) returns (t: AuthState)
    ensures Purged(s, op, t) && Writes(s, op, t, Apply(s, op))
  {
    hide Purged, RevokeDevices, BeforeLogin, Issue, Exchange, Writes;
    ActsIffGranted(s, op);
    t := s;
    match op
    case Register(_, _, _, _, awaitsEmail, _) =>
      NothingIsPurged(s, op);
      if Grants(s, op) && !awaitsEmail {
        var created := s.(users := s.users[op.userId := User(1, false)]);
        SameStoresPurged(s, op, s, created);
        t := created;
        IssueWrites(s, op, t);
      } else { SameWrites(s, op, s, Apply(s, op)); }
    case Login(u, d, platform, _, _, _) =>
      if Grants(s, op) {
        t := BeforeLogin(s, u, d, platform);
        LoginIsPurge(s, op);
        IssueWrites(s, op, t);
      } else { NothingIsPurged(s, op); SameWrites(s, op, s, s); }
    case Refresh(token, _) =>
      if Grants(s, op) {
        NothingIsPurged(s, op);
        ExchangeWrites(s, op);
      } else {
        t := Apply(s, op);
        if token.jti !in s.stored && token.jti in s.used {
          ByDeviceIsPurge(s, op, s.used[token.jti].userId, s.used[token.jti].deviceId);
        } else { NothingIsPurged(s, op); }
        SameWrites(s, op, t, t);
      }
    case Logout(a, other) =>
      t := RevokeByDevice(s, a.sub, match other { case Some(e) => e case None => a.deviceId });
      ByDeviceIsPurge(s, op, a.sub, match other { case Some(e) => e case None => a.deviceId });
      SameWrites(s, op, t, Apply(s, op));
    case RevokeSession(u, d) =>
      t := Apply(s, op);
      ByDeviceIsPurge(s, op, u, d);
      SameWrites(s, op, t, t);
    case RevokeAll(u) =>
      t := Apply(s, op);
      ListedIsPurge(s, op, u, Listed(s, u));
      SameWrites(s, op, t, t);
    case RevokeOthers(u, d) =>
      t := Apply(s, op);
      if Grants(s, op) { ListedIsPurge(s, op, u, Listed(s, u) - {d}); } else { NothingIsPurged(s, op); }
      SameWrites(s, op, t, t);
    case ChangePassword(u, _) =>
      t := Apply(s, op);
      if Grants(s, op) { PasswordChangeIsPurge(s, op, u); } else { NothingIsPurged(s, op); }
      SameWrites(s, op, t, t);
    case ResetPassword(u, _) =>
      t := Apply(s, op);
      if Grants(s, op) { PasswordChangeIsPurge(s, op, u); } else { NothingIsPurged(s, op); }
      SameWrites(s, op, t, t);
    case IssueReset(_, _) => NothingIsPurged(s, op); SameWrites(s, op, s, Apply(s, op));
    case SetDisabled(_, _) => NothingIsPurged(s, op); SameWrites(s, op, s, Apply(s, op));
    case ExpireSession(_) => NothingIsPurged(s, op); ExpiryWrites(s, op);
    case ExpireIndex(_) => NothingIsPurged(s, op); ExpiryWrites(s, op);
  }

  lemma ExpiryWrites(s: AuthState, op: AuthOp)
    requires op.ExpireSession? || op.ExpireIndex?
    ensures Writes(s, op, s, Apply(s, op))
  {}

  // ---------- The stores after any use case ----------

  /** A device has the session that the use case writes, or the one it had, unless that is ended or expires. */
  lemma SessionsComeOut(s: AuthState, op: AuthOp, d: DeviceId)
    ensures SessionOn(Apply(s, op), d) ==
      if Written(s, op, d).Some? then Written(s, op, d)
      else if (d in s.sessions && Ends(s, op, d)) || op == ExpireSession(d) then None
      else SessionOn(s, d)
  {
    hide Apply, Ends, Written, StoredPurged, BlacklistPurged, IndexPurged, RecordOf, Issued, InIndex, Lists;
    var t := StepIsPurgeAndWrite(s, op);
  }

  /** A refresh token is stored when it is issued, and until it is spent or the session that holds it is ended. */
  lemma RefreshTokensComeOut(s: AuthState, op: AuthOp, j: Jti)
    ensures RecordOf(Apply(s, op), j) ==
      if Issued(s, op, j).Some? then Issued(s, op, j)
      else if Spends(s, op, j) || EndedHeldRefresh(s, op, j) then None
      else RecordOf(s, j)
  {
    hide Apply, Ends, EndedHeldRefresh, Written, SessionsPurged, BlacklistPurged, IndexPurged, SessionOn, Issued, InIndex, Lists;
    var t := StepIsPurgeAndWrite(s, op);
  }

  /** An access token is blacklisted by ending the session that holds it, and by logging out with it. */
  lemma BlacklistComesOut(s: AuthState, op: AuthOp, j: Jti)
    ensures j in Apply(s, op).blacklist <==>
      j in s.blacklist || EndedHeldAccess(s, op, j) || (op.Logout? && op.requester.jti == j)
  {
    hide Apply, Ends, EndedHeldAccess, Written, SessionsPurged, StoredPurged, IndexPurged, SessionOn, Issued, InIndex, Lists, RecordOf;
    var t := StepIsPurgeAndWrite(s, op);
  }

  /** A device is in the index of who logs in on it, until that session is ended, the index is cleaned, or it expires. */
  lemma IndexComesOut(s: AuthState, op: AuthOp, u: UserId, d: DeviceId)
    ensures InIndex(Apply(s, op), u, d) <==>
      Lists(s, op, u, d) ||
      (InIndex(s, u, d) && op != ExpireIndex(u) && !(d in s.sessions && Ends(s, op, d) && s.sessions[d].userId == u) &&
       !(Cleans(s, op, u) && d !in s.sessions))
  {
    hide Apply, Ends, Cleans, Written, SessionsPurged, StoredPurged, BlacklistPurged, SessionOn, Issued, InIndex, Lists, RecordOf;
    var t := StepIsPurgeAndWrite(s, op);
  }

  lemma RevokeKeepsRest(s: AuthState, devices: set<DeviceId>)
    ensures var t := RevokeDevices(s, devices); t.users == s.users && t.used == s.used && t.resets == s.resets
  {}

  lemma RevokesKeepRest(s: AuthState, u: UserId, d: DeviceId, platform: Platform, devices: set<DeviceId>)
    ensures var t := RevokeListed(s, u, devices); t.users == s.users && t.used == s.used && t.resets == s.resets
    ensures var t := RevokeByDevice(s, u, d); t.users == s.users && t.used == s.used && t.resets == s.resets
    ensures var t := BeforeLogin(s, u, d, platform); t.users == s.users && t.used == s.used && t.resets == s.resets
  {
    hide RevokeDevices, Elsewhere;
    RevokeKeepsRest(s, {d});
    RevokeKeepsRest(CleanIndex(s, u), devices);
    var replaced := RevokeByDevice(s, u, d);
    RevokeKeepsRest(CleanIndex(replaced, u), Elsewhere(replaced, u, WEB, d));
  }

  /** Accounts, used tokens and reset tokens: who changes them, and how. */
  lemma AccountsComeOut(s: AuthState, op: AuthOp)
    ensures Apply(s, op).users ==
      if !Grants(s, op) then s.users
      else if op.Register? then s.users[op.userId := User(1, false)]
      else if op.ChangePassword? || op.ResetPassword? then
        s.users[op.userId := User(s.users[op.userId].tokenVersion + 1, s.users[op.userId].disabled)]
      else if op.SetDisabled? && op.userId in s.users then s.users[op.userId := User(s.users[op.userId].tokenVersion, op.disabled)]
      else s.users
    ensures Apply(s, op).used == if op.Refresh? && Grants(s, op) then s.used[op.token.jti := s.stored[op.token.jti]] else s.used
    ensures Apply(s, op).resets ==
      if op.IssueReset? && Grants(s, op) then s.resets[op.resetJti := op.userId]
      else if op.ResetPassword? && Grants(s, op) then s.resets - {op.resetJti}
      else s.resets
  {
    hide RevokeListed, RevokeByDevice, BeforeLogin, Listed;
    ActsIffGranted(s, op);
    match op
    case Register(_, _, _, _, _, _) =>
    case Login(u, d, platform, _, _, _) => RevokesKeepRest(s, u, d, platform, {});
    case Refresh(t, _) =>
      if !Grants(s, op) && t.jti in s.used { RevokesKeepRest(s, s.used[t.jti].userId, s.used[t.jti].deviceId, WEB, {}); }
    case Logout(a, other) => RevokesKeepRest(s, a.sub, match other { case Some(e) => e case None => a.deviceId }, WEB, {});
    case RevokeSession(u, d) => RevokesKeepRest(s, u, d, WEB, {});
    case RevokeAll(u) => RevokesKeepRest(s, u, 0, WEB, Listed(s, u));
    case RevokeOthers(u, d) => RevokesKeepRest(s, u, d, WEB, Listed(s, u) - {d});
    case ChangePassword(u, _) =>
      if Grants(s, op) { RevokesKeepRest(NewVersion(s, u), u, 0, WEB, Listed(NewVersion(s, u), u)); }
    case ResetPassword(u, jti) =>
      if Grants(s, op) {
        var spent := NewVersion(s, u).(resets := s.resets - {jti});
        RevokesKeepRest(spent, u, 0, WEB, Listed(spent, u));
      }
    case IssueReset(_, _) =>
    case SetDisabled(_, _) =>
    case ExpireSession(_) =>
    case ExpireIndex(_) =>
  }

  // ---------- Who gets tokens ----------

  /**
   * A session with a refresh token its device did not have is given only to a registered and enabled user who logs in
   * with his password and verified, to a newly registered one, or for the token that the session held.
   */
  lemma TokensAreGivenOnlyFor(s: AuthState, op: AuthOp, d: DeviceId)
    requires d in Apply(s, op).sessions
    requires d in s.sessions ==> s.sessions[d].refreshJti != Apply(s, op).sessions[d].refreshJti
    ensures
      (op.Login? && d == op.deviceId && op.userId in s.users && !s.users[op.userId].disabled && op.passwordMatches &&
       !op.emailPending && Apply(s, op).sessions[d].userId == op.userId) ||
      (op.Register? && d == op.deviceId && !op.taken && !op.awaitsEmail && Apply(s, op).sessions[d].userId == op.userId) ||
      (op.Refresh? && d == op.token.deviceId && d in s.sessions && op.token.jti == s.sessions[d].refreshJti &&
       op.token.jti in s.stored && Apply(s, op).sessions[d].userId == s.sessions[d].userId)
  {
    hide Apply, Ends;
    SessionsComeOut(s, op, d);
  }

  /** A password is changed, and the version raised, exactly for a known user with the password or with a reset token. */
  lemma VersionRisesIff(s: AuthState, op: AuthOp, u: UserId)
    requires u in s.users && Allowed(s, op)
    ensures u in Apply(s, op).users && (Apply(s, op).users[u].tokenVersion == s.users[u].tokenVersion + 1 <==>
      (op.ChangePassword? && op.userId == u && op.passwordMatches) ||
      (op.ResetPassword? && op.userId == u && op.resetJti in s.resets && s.resets[op.resetJti] == u))
    ensures Apply(s, op).users[u].tokenVersion == s.users[u].tokenVersion ||
      Apply(s, op).users[u].tokenVersion == s.users[u].tokenVersion + 1
  {
    hide Apply;
    AccountsComeOut(s, op);
  }
}
