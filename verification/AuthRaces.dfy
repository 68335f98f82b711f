/**
 * Exchanges and logins whose awaits are separate steps, interleaved with each other and with every other use case:
 * when a refresh token is exchanged twice, and what holds all the same.
 */
module AuthRaces {
  import opened Wrappers
  import opened AuthModel
  import opened AuthTheorems
  import opened AuthSafety

  type CallId = nat

  /**
   * Where a call stands: past the checks of an exchange, past spending the token and storing the new one, past reading
   * the session it is to update; past ending the sessions a login replaces; or done.
   */
  datatype Progress =
    | Checked(token: RefreshToken)
    | Reissued(token: RefreshToken, tokens: Fresh)
    | Updating(token: RefreshToken, tokens: Fresh, session: Session)
    | LoggingIn(userId: UserId, deviceId: DeviceId, platform: Platform, version: nat)
    | Finished

  datatype Race = Race(auth: AuthState, calls: map<CallId, Progress>)

  datatype RaceStep =
    | Check(call: CallId, token: RefreshToken)
    | Write(call: CallId, tokens: Fresh)
    | Read(call: CallId)
    | Put(call: CallId)
    | StartLogin(call: CallId, userId: UserId, deviceId: DeviceId, platform: Platform)
    | FinishLogin(call: CallId, tokens: Fresh)
    | Do(op: AuthOp)

  predicate Enabled(s: Race, step: RaceStep) {
    match step
    case Check(call, _) => call !in s.calls
    case Write(call, f) => call in s.calls && s.calls[call].Checked? && FreshFor(s.auth, f)
    case Read(call) => call in s.calls && s.calls[call].Reissued?
    case Put(call) => call in s.calls && s.calls[call].Updating?
    case StartLogin(call, u, _, _) => call !in s.calls && u in s.auth.users && !s.auth.users[u].disabled
    case FinishLogin(call, f) => call in s.calls && s.calls[call].LoggingIn? && FreshFor(s.auth, f)
    case Do(op) => Allowed(s.auth, op) && !op.Refresh? && !op.Login?
  }

  function RaceApply(s: Race, step: RaceStep): Race
    requires Enabled(s, step)
  {
    match step
    case Check(call, t) =>
      if Exchangeable(s.auth, t) then s.(calls := s.calls[call := Checked(t)])
      else Race(Reused(s.auth, t), s.calls[call := Finished])
    case Write(call, f) =>
      var t := s.calls[call].token;
      Race(Reissue(s.auth, t, f), s.calls[call := Reissued(t, f)])
    case Read(call) =>
      var Reissued(t, f) := s.calls[call];
      s.(calls := s.calls[call :=
           if t.deviceId in s.auth.sessions then Updating(t, f, s.auth.sessions[t.deviceId]) else Finished])
    case Put(call) =>
      var Updating(t, f, x) := s.calls[call];
      Race(PutSession(s.auth, t.deviceId, Renewed(x, t, f)), s.calls[call := Finished])
    case StartLogin(call, u, d, platform) =>
      Race(BeforeLogin(s.auth, u, d, platform),
           s.calls[call := LoggingIn(u, d, platform, s.auth.users[u].tokenVersion)])
    case FinishLogin(call, f) =>
      var l := s.calls[call];
      Race(Issue(s.auth, l.userId, l.deviceId, l.platform, l.version, f), s.calls[call := Finished])
    case Do(op) => s.(auth := Apply(s.auth, op))
  }

  ghost predicate IsRaceStep(s: Race, step: RaceStep, after: Race) {
    Enabled(s, step) && after == RaceApply(s, step)
  }

  ghost predicate IsRace(states: seq<Race>, steps: seq<RaceStep>) {
    |states| == |steps| + 1 && states[0] == Race(EMPTY, map[]) &&
    forall i :: 0 <= i < |steps| ==> IsRaceStep(states[i], steps[i], states[i + 1])
  }

  /** An exchange that nothing comes between is the exchange of one step. */
  lemma UndisturbedExchange(s: Race, c: CallId, t: RefreshToken, f: Fresh)
    requires c !in s.calls && Exchangeable(s.auth, t) && FreshFor(s.auth, f)
    ensures var checked := RaceApply(s, Check(c, t));
      var written := RaceApply(checked, Write(c, f));
      var read := RaceApply(written, Read(c));
      read.calls[c].Updating? && RaceApply(read, Put(c)).auth == Apply(s.auth, Refresh(t, f))
  {}

  /** So is an undisturbed login. */
  lemma UndisturbedLogin(s: Race, c: CallId, u: UserId, d: DeviceId, platform: Platform, f: Fresh)
    requires Enabled(s, StartLogin(c, u, d, platform)) && FreshFor(s.auth, f)
    ensures Refusal(s.auth, Login(u, d, platform, true, false, f)).None?
    ensures var started := RaceApply(s, StartLogin(c, u, d, platform));
      FreshFor(started.auth, f) &&
      RaceApply(started, FinishLogin(c, f)).auth == Apply(s.auth, Login(u, d, platform, true, false, f))
  {
    hide Issue, RefreshJtis, AccessJtis, Elsewhere;
    assert BeforeLogin(s.auth, u, d, platform).issued == s.auth.issued;
  }

  // ---------- How stores evolve ----------

  predicate KnownAt(s: AuthState, u: UserId, version: nat) {
    u in s.users && version <= s.users[u].tokenVersion
  }

  /** The session's refresh token is stored, and as its own. */
  predicate Backed(s: AuthState, d: DeviceId)
    requires d in s.sessions
  {
    var x := s.sessions[d];
    x.refreshJti in s.stored && s.stored[x.refreshJti] == RefreshRecord(x.userId, d, x.version)
  }

  predicate Claims(s: AuthState, d: DeviceId, jti: Jti) {
    d in s.sessions && s.sessions[d].refreshJti == jti
  }

  ghost predicate Known(s: AuthState, d: DeviceId) {
    d in s.sessions ==>
      s.sessions[d].userId in s.users && s.sessions[d].accessJti in s.issued && s.sessions[d].refreshJti in s.issued
  }

  ghost predicate AllKnown(s: AuthState) {
    forall d {:trigger Known(s, d)} :: Known(s, d)
  }

  ghost predicate JtisApart(s: AuthState) {
    forall d, e :: d in s.sessions && e in s.sessions && d != e ==>
      s.sessions[d].accessJti != s.sessions[e].accessJti && s.sessions[d].refreshJti != s.sessions[e].refreshJti
  }

  ghost predicate Sound(s: AuthState) {
    AllKnown(s) && TokensSound(s) && JtisApart(s)
  }

  ghost predicate Grows(s: AuthState, after: AuthState) {
    s.issued <= after.issued && forall u :: u in s.users ==> KnownAt(after, u, s.users[u].tokenVersion)
  }

  predicate Stays(s: AuthState, after: AuthState, d: DeviceId) {
    d in s.sessions && d in after.sessions && after.sessions[d] == s.sessions[d] && (Backed(s, d) ==> Backed(after, d))
  }

  predicate Arrives(s: AuthState, after: AuthState, d: DeviceId) {
    d in after.sessions && Backed(after, d) && KnownAt(after, after.sessions[d].userId, after.sessions[d].version) &&
    after.sessions[d].accessJti !in s.issued && after.sessions[d].refreshJti !in s.issued
  }

  /** No spent token is stored again, and a stored token that is no session's stays. */
  ghost predicate TokensStay(s: AuthState, after: AuthState) {
    (forall j :: j in after.stored && j in s.issued ==> j in s.stored) &&
    (forall j :: j in s.stored && (forall d :: !Claims(s, d, j)) ==> j in after.stored && after.stored[j] == s.stored[j])
  }

  /** What every step does to the stores, except the writes of an exchange. */
  ghost predicate Evolves(s: AuthState, after: AuthState) {
    Sound(after) && Grows(s, after) && TokensStay(s, after) &&
    forall d :: d in after.sessions ==> Stays(s, after, d) || Arrives(s, after, d)
  }

  lemma EvolvesOn(s: AuthState, mid: AuthState, after: AuthState)
    requires Sound(s) && Evolves(s, mid) && Evolves(mid, after)
    ensures Evolves(s, after)
  {
    forall d | d in after.sessions ensures Stays(s, after, d) || Arrives(s, after, d) {
      if Stays(mid, after, d) { assert Stays(s, mid, d) || Arrives(s, mid, d); }
    }
    forall j | j in s.stored && (forall d :: !Claims(s, d, j)) ensures j in after.stored && after.stored[j] == s.stored[j] {
      forall d ensures !Claims(mid, d, j) {
        if d in mid.sessions { assert Stays(s, mid, d) || Arrives(s, mid, d); assert !Claims(s, d, j); }
      }
    }
  }

  lemma RevokeEvolves(s: AuthState, devices: set<DeviceId>)
    requires Sound(s)
    ensures Evolves(s, RevokeDevices(s, devices))
  {
    var after := RevokeDevices(s, devices);
    forall d ensures Known(after, d) { assert Known(s, d); }
    forall j | j in AccessJtis(s, devices) ensures j in s.issued {
      var d :| d in devices && d in s.sessions && s.sessions[d].accessJti == j;
      assert Known(s, d);
    }
    forall j | j in RefreshJtis(s, devices) ensures exists d :: Claims(s, d, j) && d in devices {
      var d :| d in devices && d in s.sessions && s.sessions[d].refreshJti == j;
      assert Claims(s, d, j);
    }
  }

  /** A change of users, versions, the index, the blacklist or reset tokens. */
  lemma SameSessionsEvolve(s: AuthState, after: AuthState)
    requires Sound(s) && after.sessions == s.sessions && after.stored == s.stored && after.used == s.used
    requires Grows(s, after) && after.blacklist <= after.issued && after.resets.Keys <= after.issued
    ensures Evolves(s, after)
  {
    forall d ensures Known(after, d) { assert Known(s, d); }
    forall d | d in after.sessions ensures Stays(s, after, d) {}
  }

  lemma RevokeListedEvolves(s: AuthState, u: UserId, devices: set<DeviceId>)
    requires Sound(s)
    ensures Evolves(s, RevokeListed(s, u, devices))
  {
    hide RevokeDevices, AllKnown, JtisApart;
    SameSessionsEvolve(s, CleanIndex(s, u));
    SoundAfter(s, CleanIndex(s, u));
    RevokeEvolves(CleanIndex(s, u), devices);
    EvolvesOn(s, CleanIndex(s, u), RevokeListed(s, u, devices));
  }

  lemma SoundAfter(s: AuthState, after: AuthState)
    requires Evolves(s, after)
    ensures Sound(after)
  {}

  lemma NothingEvolves(s: AuthState)
    requires Sound(s)
    ensures Evolves(s, s)
  {}

  lemma RevokeByDeviceEvolves(s: AuthState, u: UserId, d: DeviceId)
    requires Sound(s)
    ensures Evolves(s, RevokeByDevice(s, u, d))
  {
    hide Sound, RevokeDevices, Evolves;
    if Owns(s, u, d) { RevokeEvolves(s, {d}); } else { NothingEvolves(s); }
  }

  lemma BeforeLoginEvolves(s: AuthState, u: UserId, d: DeviceId, platform: Platform)
    requires Sound(s)
    ensures Evolves(s, BeforeLogin(s, u, d, platform))
  {
    hide Sound, Evolves, RevokeByDevice, RevokeListed;
    var replaced := RevokeByDevice(s, u, d);
    RevokeByDeviceEvolves(s, u, d);
    SoundAfter(s, replaced);
    RevokeListedEvolves(replaced, u, Elsewhere(replaced, u, WEB, d));
    if platform == WEB { EvolvesOn(s, replaced, BeforeLogin(s, u, d, platform)); }
  }

  lemma IssueEvolves(s: AuthState, u: UserId, d: DeviceId, platform: Platform, version: nat, f: Fresh)
    requires Sound(s) && KnownAt(s, u, version) && FreshFor(s, f)
    ensures Evolves(s, Issue(s, u, d, platform, version, f))
  {
    var after := Issue(s, u, d, platform, version, f);
    forall e ensures Known(after, e) { assert Known(s, e); }
    forall e | e in s.sessions ensures s.sessions[e].accessJti in s.issued && s.sessions[e].refreshJti in s.issued {
      assert Known(s, e);
    }
    assert Arrives(s, after, d);
    forall e | e in after.sessions && e != d ensures Stays(s, after, e) {}
  }

  lemma ExpiryEvolves(s: AuthState, d: DeviceId)
    requires Sound(s)
    ensures Evolves(s, s.(sessions := s.sessions - {d}))
  {
    var after := s.(sessions := s.sessions - {d});
    forall e ensures Known(after, e) { assert Known(s, e); }
    forall e | e in after.sessions ensures Stays(s, after, e) {}
  }

  lemma DoEvolves(s: AuthState, op: AuthOp)
    requires Sound(s) && Allowed(s, op) && !op.Refresh? && !op.Login?
    ensures Evolves(s, Apply(s, op))
  {
    hide RevokeDevices, CleanIndex, Issue, Sound, AllKnown, JtisApart, Evolves;
    assert TokensSound(s) by { SoundParts(s); }
    NothingEvolves(s);
    if Refusal(s, op).None? {
      match op
      case Register(u, d, platform, _, awaits, f) =>
        var created := s.(users := s.users[u := User(1, false)]);
        SameSessionsEvolve(s, created);
        if !awaits {
          SoundAfter(s, created);
          IssueEvolves(created, u, d, platform, 1, f);
          EvolvesOn(s, created, Apply(s, op));
        }
      case Logout(requester, device) =>
        var d := if device.Some? then device.value else requester.deviceId;
        RevokeByDeviceEvolves(s, requester.sub, d);
        var ended := RevokeByDevice(s, requester.sub, d);
        SoundAfter(s, ended);
        assert ended.issued == s.issued by { RevokeKeepsIssued(s, {d}); }
        assert TokensSound(ended) by { SoundParts(ended); }
        SameSessionsEvolve(ended, Apply(s, op));
        EvolvesOn(s, ended, Apply(s, op));
      case RevokeSession(u, d) => RevokeByDeviceEvolves(s, u, d);
      case RevokeAll(u) => RevokeListedEvolves(s, u, Listed(s, u));
      case RevokeOthers(u, d) => RevokeListedEvolves(s, u, Listed(s, u) - {d});
      case ChangePassword(u, _) => RaisedAndRevokedEvolves(s, NewVersion(s, u), u);
      case ResetPassword(u, jti) => RaisedAndRevokedEvolves(s, NewVersion(s, u).(resets := s.resets - {jti}), u);
      case IssueReset(_, _) => SameSessionsEvolve(s, Apply(s, op));
      case SetDisabled(_, _) => SameSessionsEvolve(s, Apply(s, op));
      case ExpireSession(d) => ExpiryEvolves(s, d);
      case ExpireIndex(_) => SameSessionsEvolve(s, Apply(s, op));
    }
  }

  lemma RaisedAndRevokedEvolves(s: AuthState, raised: AuthState, u: UserId)
    requires Sound(s) && raised.sessions == s.sessions && raised.stored == s.stored && raised.used == s.used
    requires Grows(s, raised) && raised.blacklist == s.blacklist && raised.resets.Keys <= s.resets.Keys && raised.issued == s.issued
    ensures Evolves(s, RevokeAllSessions(raised, u))
  {
    hide RevokeListed, AllKnown, JtisApart, Evolves;
    SameSessionsEvolve(s, raised);
    SoundAfter(s, raised);
    RevokeListedEvolves(raised, u, Listed(raised, u));
    EvolvesOn(s, raised, RevokeAllSessions(raised, u));
  }

  lemma SoundParts(s: AuthState)
    requires Sound(s)
    ensures AllKnown(s) && TokensSound(s) && JtisApart(s)
  {}

  // ---------- What holds in every interleaving ----------

  predicate HasToken(p: Progress) {
    p.Checked? || p.Reissued? || p.Updating?
  }

  predicate HasPair(p: Progress) {
    p.Reissued? || p.Updating?
  }

  /** A new pair that waits to be put into its session: stored, and no session's yet. */
  ghost predicate PairWaits(s: AuthState, t: RefreshToken, f: Fresh) {
    f.accessJti in s.issued && f.refreshJti in s.stored &&
    s.stored[f.refreshJti] == RefreshRecord(t.sub, t.deviceId, t.version) &&
    (forall d :: !Claims(s, d, f.refreshJti)) &&
    forall d :: d in s.sessions ==> s.sessions[d].accessJti != f.accessJti
  }

  ghost predicate CallSound(s: AuthState, p: Progress) {
    (HasToken(p) ==>
       p.token.jti in s.issued && KnownAt(s, p.token.sub, p.token.version) &&
       forall d :: Claims(s, d, p.token.jti) ==> d == p.token.deviceId) &&
    (HasPair(p) ==> PairWaits(s, p.token, p.tokens) && p.token.jti !in s.stored) &&
    (p.Updating? ==> p.session.userId in s.users) &&
    (p.LoggingIn? ==> KnownAt(s, p.userId, p.version))
  }

  /** No call waits with a pair of another, or with one that a call is exchanging. */
  predicate PairApart(p: Progress, q: Progress, same: bool) {
    HasPair(p) && HasToken(q) ==>
      p.tokens.refreshJti != q.token.jti &&
      (HasPair(q) && !same ==> p.tokens.refreshJti != q.tokens.refreshJti && p.tokens.accessJti != q.tokens.accessJti)
  }

  ghost predicate CallsSound(s: Race) {
    (forall c :: c in s.calls ==> CallSound(s.auth, s.calls[c])) &&
    forall c, e :: c in s.calls && e in s.calls ==> PairApart(s.calls[c], s.calls[e], c == e)
  }

  ghost predicate RaceInv(s: Race) {
    Sound(s.auth) && CallsSound(s)
  }

  lemma EvolvedCall(s: AuthState, after: AuthState, p: Progress)
    requires Sound(s) && Evolves(s, after) && CallSound(s, p)
    ensures CallSound(after, p)
  {
    hide Sound, JtisApart, AllKnown;
    if HasToken(p) {
      forall d | Claims(after, d, p.token.jti) ensures d == p.token.deviceId {
        assert Stays(s, after, d) || Arrives(s, after, d);
        assert Claims(s, d, p.token.jti);
      }
    }
    if HasPair(p) {
      assert p.tokens.refreshJti in s.issued by { SoundParts(s); }
      forall d | d in after.sessions
        ensures !Claims(after, d, p.tokens.refreshJti) && after.sessions[d].accessJti != p.tokens.accessJti
      {
        assert Stays(s, after, d) || Arrives(s, after, d);
        assert !Claims(s, d, p.tokens.refreshJti);
      }
    }
  }

  /** The step leaves the calls alone but for one that ends, or that starts without a pair. */
  lemma EvolvedRace(s: Race, after: Race, c: CallId, p: Progress)
    requires RaceInv(s) && Evolves(s.auth, after.auth) && after.calls == s.calls[c := p] && !HasPair(p)
    requires CallSound(after.auth, p)
    requires HasToken(p) ==> exists d :: Claims(s.auth, d, p.token.jti)
    ensures RaceInv(after)
  {
    hide CallSound, Sound, Evolves;
    SoundAfter(s.auth, after.auth);
    forall e | e in after.calls && e != c ensures CallSound(after.auth, after.calls[e]) {
      EvolvedCall(s.auth, after.auth, s.calls[e]);
    }
    if HasToken(p) {
      forall e | e in s.calls && HasPair(s.calls[e]) ensures s.calls[e].tokens.refreshJti != p.token.jti {
        assert PairWaits(s.auth, s.calls[e].token, s.calls[e].tokens) by { CallParts(s.auth, s.calls[e]); }
      }
    }
  }

  lemma CallParts(s: AuthState, p: Progress)
    requires CallSound(s, p)
    ensures HasToken(p) ==> p.token.jti in s.issued && KnownAt(s, p.token.sub, p.token.version)
    ensures HasPair(p) ==> PairWaits(s, p.token, p.tokens)
    ensures p.LoggingIn? ==> KnownAt(s, p.userId, p.version)
    ensures p.Updating? ==> p.session.userId in s.users
  {}

  lemma CheckKeepsRaceInv(s: Race, c: CallId, t: RefreshToken)
    requires RaceInv(s) && Enabled(s, Check(c, t))
    ensures RaceInv(RaceApply(s, Check(c, t)))
  {
    hide CallsSound, RevokeByDevice, Evolves;
    if Exchangeable(s.auth, t) {
      NothingEvolves(s.auth);
      assert Claims(s.auth, t.deviceId, t.jti);
      EvolvedRace(s, RaceApply(s, Check(c, t)), c, Checked(t));
    } else {
      NothingEvolves(s.auth);
      if t.jti in s.auth.used { RevokeByDeviceEvolves(s.auth, s.auth.used[t.jti].userId, s.auth.used[t.jti].deviceId); }
      EvolvedRace(s, RaceApply(s, Check(c, t)), c, Finished);
    }
  }

  lemma ReissueIsSound(s: AuthState, t: RefreshToken, f: Fresh)
    requires Sound(s) && FreshFor(s, f)
    ensures Sound(Reissue(s, t, f))
  {
    var after := Reissue(s, t, f);
    forall d ensures Known(after, d) { assert Known(s, d); }
  }

  /** A call other than the writer keeps its standing while the writer's token is spent. */
  lemma ReissueKeepsCall(s: AuthState, t: RefreshToken, f: Fresh, p: Progress)
    requires Sound(s) && FreshFor(s, f) && CallSound(s, p) && (HasPair(p) ==> p.tokens.refreshJti != t.jti)
    ensures CallSound(Reissue(s, t, f), p)
  {
    var after := Reissue(s, t, f);
    forall d, j ensures Claims(after, d, j) == Claims(s, d, j) {}
  }

  lemma ReissueMakesPair(s: AuthState, t: RefreshToken, f: Fresh)
    requires Sound(s) && FreshFor(s, f) && CallSound(s, Checked(t))
    ensures CallSound(Reissue(s, t, f), Reissued(t, f))
  {
    var after := Reissue(s, t, f);
    forall d | d in s.sessions ensures s.sessions[d].accessJti in s.issued && s.sessions[d].refreshJti in s.issued {
      assert Known(s, d);
    }
    forall d ensures Claims(after, d, t.jti) == Claims(s, d, t.jti) {}
  }

  lemma WriteKeepsRaceInv(s: Race, c: CallId, f: Fresh)
    requires RaceInv(s) && Enabled(s, Write(c, f))
    ensures RaceInv(RaceApply(s, Write(c, f)))
  {
    hide CallSound, Sound, Reissue, PairWaits;
    var t, after := s.calls[c].token, RaceApply(s, Write(c, f));
    ReissueIsSound(s.auth, t, f);
    ReissueMakesPair(s.auth, t, f);
    forall e | e in s.calls && e != c ensures CallSound(after.auth, after.calls[e]) {
      ReissueKeepsCall(s.auth, t, f, s.calls[e]);
    }
    forall e | e in s.calls ensures
        (HasToken(s.calls[e]) ==> s.calls[e].token.jti in s.auth.issued) &&
        (HasPair(s.calls[e]) ==> s.calls[e].tokens.accessJti in s.auth.issued && s.calls[e].tokens.refreshJti in s.auth.issued)
    {
      CallIdsAreIssued(s.auth, s.calls[e]);
    }
  }

  lemma CallIdsAreIssued(s: AuthState, p: Progress)
    requires Sound(s) && CallSound(s, p)
    ensures HasToken(p) ==> p.token.jti in s.issued
    ensures HasPair(p) ==> p.tokens.accessJti in s.issued && p.tokens.refreshJti in s.issued
  {}

  lemma ReadKeepsRaceInv(s: Race, c: CallId)
    requires RaceInv(s) && Enabled(s, Read(c))
    ensures RaceInv(RaceApply(s, Read(c)))
  {
    hide PairWaits, JtisApart, TokensSound;
    if s.calls[c].token.deviceId in s.auth.sessions { assert Known(s.auth, s.calls[c].token.deviceId); }
  }

  lemma PutIsSound(s: AuthState, t: RefreshToken, f: Fresh, x: Session)
    requires Sound(s) && CallSound(s, Updating(t, f, x))
    ensures Sound(PutSession(s, t.deviceId, Renewed(x, t, f)))
  {
    var after := PutSession(s, t.deviceId, Renewed(x, t, f));
    forall d ensures Known(after, d) { assert Known(s, d); }
    forall d | d in s.sessions && d != t.deviceId
      ensures s.sessions[d].refreshJti != f.refreshJti && s.sessions[d].accessJti != f.accessJti
    {
      assert !Claims(s, d, f.refreshJti);
    }
  }

  lemma PutKeepsCall(s: AuthState, d: DeviceId, x: Session, p: Progress)
    requires CallSound(s, p) && (HasToken(p) ==> p.token.jti != x.refreshJti)
    requires HasPair(p) ==> p.tokens.refreshJti != x.refreshJti && p.tokens.accessJti != x.accessJti
    ensures CallSound(PutSession(s, d, x), p)
  {
    var after := PutSession(s, d, x);
    forall e, j | j != x.refreshJti && Claims(after, e, j) ensures Claims(s, e, j) {}
  }

  lemma PutKeepsRaceInv(s: Race, c: CallId)
    requires RaceInv(s) && Enabled(s, Put(c))
    ensures RaceInv(RaceApply(s, Put(c)))
  {
    hide CallSound, Sound, PutSession;
    var p, after := s.calls[c], RaceApply(s, Put(c));
    var x := Renewed(p.session, p.token, p.tokens);
    PutIsSound(s.auth, p.token, p.tokens, p.session);
    forall e | e in s.calls && e != c ensures CallSound(after.auth, after.calls[e]) {
      assert PairApart(p, s.calls[e], false);
      PutKeepsCall(s.auth, p.token.deviceId, x, s.calls[e]);
    }
    assert CallSound(after.auth, Finished) by { NoCall(after.auth); }
  }

  lemma NoCall(s: AuthState)
    ensures CallSound(s, Finished)
  {}

  lemma StepKeepsRaceInv(s: Race, step: RaceStep)
    requires RaceInv(s) && Enabled(s, step)
    ensures RaceInv(RaceApply(s, step))
  {
    hide CallSound, Sound, Evolves, BeforeLogin, Issue, Apply, Reused, RefreshRefusal;
    var after := RaceApply(s, step);
    match step
    case Check(c, t) => CheckKeepsRaceInv(s, c, t);
    case Write(c, f) => WriteKeepsRaceInv(s, c, f);
    case Read(c) => ReadKeepsRaceInv(s, c);
    case Put(c) => PutKeepsRaceInv(s, c);
    case StartLogin(c, u, d, platform) =>
      BeforeLoginEvolves(s.auth, u, d, platform);
      assert KnownAt(after.auth, u, s.auth.users[u].tokenVersion) by { EvolvesGrows(s.auth, after.auth); }
      assert CallSound(after.auth, after.calls[c]) by { LoginCall(after.auth, after.calls[c]); }
      EvolvedRace(s, after, c, after.calls[c]);
    case FinishLogin(c, f) =>
      var l := s.calls[c];
      assert KnownAt(s.auth, l.userId, l.version) by { CallParts(s.auth, l); }
      IssueEvolves(s.auth, l.userId, l.deviceId, l.platform, l.version, f);
      NoCall(after.auth);
      EvolvedRace(s, after, c, Finished);
    case Do(op) =>
      DoEvolves(s.auth, op);
      SoundAfter(s.auth, after.auth);
      forall e | e in s.calls ensures CallSound(after.auth, s.calls[e]) { EvolvedCall(s.auth, after.auth, s.calls[e]); }
  }

  /** All steps but the writes of an exchange are of that kind. */
  lemma StepEvolves(s: Race, step: RaceStep)
    requires RaceInv(s) && Enabled(s, step) && !step.Write? && !step.Put?
    ensures Evolves(s.auth, RaceApply(s, step).auth)
  {
    hide CallSound, Sound, Evolves, BeforeLogin, Issue, Apply, RevokeByDevice, RefreshRefusal;
    NothingEvolves(s.auth);
    match step
    case Check(_, t) =>
      if t.jti in s.auth.used { RevokeByDeviceEvolves(s.auth, s.auth.used[t.jti].userId, s.auth.used[t.jti].deviceId); }
    case Read(_) =>
    case StartLogin(_, u, d, platform) => BeforeLoginEvolves(s.auth, u, d, platform);
    case FinishLogin(c, f) =>
      var l := s.calls[c];
      assert KnownAt(s.auth, l.userId, l.version) by { CallParts(s.auth, l); }
      IssueEvolves(s.auth, l.userId, l.deviceId, l.platform, l.version, f);
    case Do(op) => DoEvolves(s.auth, op);
  }

  lemma EvolvesGrows(s: AuthState, after: AuthState)
    requires Evolves(s, after)
    ensures Grows(s, after)
  {}

  lemma LoginCall(s: AuthState, p: Progress)
    requires p.LoggingIn? && KnownAt(s, p.userId, p.version)
    ensures CallSound(s, p)
  {}

  /** In every interleaving the ids of sessions, tokens and calls stay known and apart, and no spent token is stored. */
  lemma {:induction false} ReachableRacesKeepInv(states: seq<Race>, steps: seq<RaceStep>, i: nat)
    requires IsRace(states, steps) && i < |states|
    ensures RaceInv(states[i])
  {
    hide RaceInv, RaceApply, Enabled;
    if i == 0 {
      assert RaceInv(states[0]) by { EmptyRaceIsSound(); }
    } else {
      ReachableRacesKeepInv(states, steps, i - 1);
      assert IsRaceStep(states[i - 1], steps[i - 1], states[i]);
      StepKeepsRaceInv(states[i - 1], steps[i - 1]);
    }
  }

  lemma EmptyRaceIsSound()
    ensures RaceInv(Race(EMPTY, map[]))
  {}

  // ---------- Exchanged twice ----------

  /** The step passes call `c`'s checks with the token. */
  ghost predicate Passes(s: Race, step: RaceStep, c: CallId, jti: Jti) {
    step.Check? && step.call == c && step.token.jti == jti && Exchangeable(s.auth, step.token)
  }

  /** The step writes call `c`'s exchange of the token. */
  ghost predicate Writes(s: Race, step: RaceStep, c: CallId, jti: Jti) {
    step.Write? && step.call == c && IsChecked(s, c, jti)
  }

  predicate IsChecked(s: Race, c: CallId, jti: Jti) {
    c in s.calls && s.calls[c].Checked? && s.calls[c].token.jti == jti
  }

  ghost predicate ExchangedTwice(states: seq<Race>, steps: seq<RaceStep>, jti: Jti)
    requires |states| == |steps| + 1
  {
    exists i, j, c, d :: 0 <= i < j < |steps| && Writes(states[i], steps[i], c, jti) && Writes(states[j], steps[j], d, jti)
  }

  /** A call passes its checks with the token before another call writes with it. */
  ghost predicate ChecksOverlap(states: seq<Race>, steps: seq<RaceStep>, jti: Jti)
    requires |states| == |steps| + 1
  {
    exists k, i, c, d :: 0 <= k < i < |steps| && c != d &&
      Passes(states[k], steps[k], d, jti) && Writes(states[i], steps[i], c, jti)
  }

  /** Every exchange that passed its checks has been written. */
  ghost predicate Completed(s: Race) {
    forall c :: c in s.calls ==> !s.calls[c].Checked?
  }

  /** The call that writes passed its checks some time before. */
  lemma {:induction false} CheckedWasPassed(states: seq<Race>, steps: seq<RaceStep>, i: nat, c: CallId, jti: Jti)
    returns (k: nat)
    requires IsRace(states, steps) && i < |states| && IsChecked(states[i], c, jti)
    ensures k < i && Passes(states[k], steps[k], c, jti)
  {
    hide BeforeLogin, Issue, Apply, Reused, RefreshRefusal;
    assert i > 0;
    assert IsRaceStep(states[i - 1], steps[i - 1], states[i]);
    if IsChecked(states[i - 1], c, jti) {
      k := CheckedWasPassed(states, steps, i - 1, c, jti);
    } else {
      k := i - 1;
    }
  }

  /** In a completed run, a call that has passed its checks goes on to write. */
  lemma {:induction false} CheckedIsWritten(states: seq<Race>, steps: seq<RaceStep>, i: nat, c: CallId, jti: Jti)
    returns (j: nat)
    requires IsRace(states, steps) && Completed(states[|steps|]) && i < |states| && IsChecked(states[i], c, jti)
    ensures i <= j < |steps| && Writes(states[j], steps[j], c, jti)
    decreases |states| - i
  {
    hide BeforeLogin, Issue, Apply, Reused, RefreshRefusal;
    assert i < |steps|;
    assert IsRaceStep(states[i], steps[i], states[i + 1]);
    if Writes(states[i], steps[i], c, jti) {
      j := i;
    } else {
      j := CheckedIsWritten(states, steps, i + 1, c, jti);
    }
  }

  lemma StepKeepsSpent(s: Race, step: RaceStep, jti: Jti)
    requires Spent(s.auth, jti) && Enabled(s, step)
    ensures Spent(RaceApply(s, step).auth, jti)
  {
    hide RevokeDevices, RefreshJtis, AccessJtis, Listed, Elsewhere, Apply;
    forall x, devices {:trigger RevokeDevices(x, devices)} | Spent(x, jti) ensures Spent(RevokeDevices(x, devices), jti) {
      RevokeKeepsSpent(x, devices, jti);
    }
    if step.Do? { SpentStaysSpent(s.auth, step.op, jti); }
  }

  lemma {:induction false} SpentThroughout(states: seq<Race>, steps: seq<RaceStep>, i: nat, j: nat, jti: Jti)
    requires IsRace(states, steps) && i <= j < |states| && Spent(states[i].auth, jti)
    ensures Spent(states[j].auth, jti)
    decreases j
  {
    hide RaceApply, Enabled, Spent;
    if i < j {
      SpentThroughout(states, steps, i, j - 1, jti);
      assert IsRaceStep(states[j - 1], steps[j - 1], states[j]);
      StepKeepsSpent(states[j - 1], steps[j - 1], jti);
    }
  }

  /** After a write no check passes with the token any more. */
  lemma WrittenIsSpent(states: seq<Race>, steps: seq<RaceStep>, i: nat, k: nat, c: CallId, d: CallId, jti: Jti)
    requires IsRace(states, steps) && i < k < |steps| && Writes(states[i], steps[i], c, jti)
    ensures !Passes(states[k], steps[k], d, jti)
  {
    hide AllKnown, JtisApart, PairApart, BeforeLogin, Issue, Apply;
    ReachableRacesKeepInv(states, steps, i);
    assert CallSound(states[i].auth, states[i].calls[c]);
    assert IsRaceStep(states[i], steps[i], states[i + 1]);
    assert Spent(states[i + 1].auth, jti);
    SpentThroughout(states, steps, i + 1, k, jti);
  }

  predicate PastChecks(s: Race, c: CallId) {
    c in s.calls && !s.calls[c].Checked?
  }

  /** A call that has written never waits to write again. */
  lemma {:induction false} PastChecksForGood(states: seq<Race>, steps: seq<RaceStep>, i: nat, j: nat, c: CallId)
    requires IsRace(states, steps) && i <= j < |states| && PastChecks(states[i], c)
    ensures PastChecks(states[j], c)
    decreases j
  {
    hide BeforeLogin, Issue, Apply, Reused, RefreshRefusal;
    if i < j {
      PastChecksForGood(states, steps, i, j - 1, c);
      assert IsRaceStep(states[j - 1], steps[j - 1], states[j]);
    }
  }

  lemma WritesOnce(states: seq<Race>, steps: seq<RaceStep>, i: nat, j: nat, c: CallId, d: CallId, jti: Jti)
    requires IsRace(states, steps) && i < j < |steps|
    requires Writes(states[i], steps[i], c, jti) && Writes(states[j], steps[j], d, jti)
    ensures c != d
  {
    hide BeforeLogin, Issue, Apply, Reused;
    assert IsRaceStep(states[i], steps[i], states[i + 1]);
    PastChecksForGood(states, steps, i + 1, j, c);
  }

  /**
   * Over all interleavings that run to completion: a refresh token is exchanged twice if and only if a second call
   * passes its checks with it before the first call's write.
   */
  lemma ExchangedTwiceIff(states: seq<Race>, steps: seq<RaceStep>, jti: Jti)
    requires IsRace(states, steps) && Completed(states[|steps|])
    ensures ExchangedTwice(states, steps, jti) <==> ChecksOverlap(states, steps, jti)
  {
    hide IsRace, Writes, Passes, Completed;
    RaceLength(states, steps);
    if ExchangedTwice(states, steps, jti) {
      var i, j, c, d :| 0 <= i < j < |steps| && Writes(states[i], steps[i], c, jti) && Writes(states[j], steps[j], d, jti);
      WritesOnce(states, steps, i, j, c, d, jti);
      assert IsChecked(states[j], d, jti) by { WriterIsChecked(states[j], steps[j], d, jti); }
      var k := CheckedWasPassed(states, steps, j, d, jti);
      assert k != i by { ChecksAreNoWrites(states[k], steps[k], d, c, jti); }
      if i < k { WrittenIsSpent(states, steps, i, k, c, d, jti); }
    }
    if ChecksOverlap(states, steps, jti) {
      var k, i, c, d :| 0 <= k < i < |steps| && c != d &&
        Passes(states[k], steps[k], d, jti) && Writes(states[i], steps[i], c, jti);
      PassedIsChecked(states, steps, k, d, jti);
      var j := CheckedIsWritten(states, steps, k + 1, d, jti);
      assert i != j by { OneWriter(states[i], steps[i], c, d, jti); }
    }
  }

  lemma RaceLength(states: seq<Race>, steps: seq<RaceStep>)
    requires IsRace(states, steps)
    ensures |states| == |steps| + 1
  {}

  lemma WriterIsChecked(s: Race, step: RaceStep, c: CallId, jti: Jti)
    requires Writes(s, step, c, jti)
    ensures IsChecked(s, c, jti)
  {}

  lemma ChecksAreNoWrites(s: Race, step: RaceStep, c: CallId, d: CallId, jti: Jti)
    requires Passes(s, step, c, jti)
    ensures !Writes(s, step, d, jti)
  {}

  lemma OneWriter(s: Race, step: RaceStep, c: CallId, d: CallId, jti: Jti)
    requires Writes(s, step, c, jti) && c != d
    ensures !Writes(s, step, d, jti)
  {}

  lemma PassedIsChecked(states: seq<Race>, steps: seq<RaceStep>, k: nat, c: CallId, jti: Jti)
    requires IsRace(states, steps) && k < |steps| && Passes(states[k], steps[k], c, jti)
    ensures IsChecked(states[k + 1], c, jti)
  {
    assert IsRaceStep(states[k], steps[k], states[k + 1]);
  }

  // ---------- Password changes ----------

  lemma StepKeepsVersions(s: Race, step: RaceStep, u: UserId, version: nat)
    requires VersionAtLeast(s.auth, u, version) && Enabled(s, step)
    ensures VersionAtLeast(RaceApply(s, step).auth, u, version)
  {
    hide RevokeDevices, Listed, Elsewhere, Apply;
    forall x, devices {:trigger RevokeDevices(x, devices)} ensures RevokeDevices(x, devices).users == x.users {
      RevokeKeepsIssued(x, devices);
    }
    if step.Do? { StepKeepsVersion(s.auth, step.op, u, version); }
  }

  lemma {:induction false} VersionsNeverFallInRaces(states: seq<Race>, steps: seq<RaceStep>, i: nat, j: nat, u: UserId,
                                                   version: nat)
    requires IsRace(states, steps) && i <= j < |states| && VersionAtLeast(states[i].auth, u, version)
    ensures VersionAtLeast(states[j].auth, u, version)
    decreases j
  {
    hide RaceApply, Enabled, VersionAtLeast;
    if i < j {
      VersionsNeverFallInRaces(states, steps, i, j - 1, u, version);
      assert IsRaceStep(states[j - 1], steps[j - 1], states[j]);
      StepKeepsVersions(states[j - 1], steps[j - 1], u, version);
    }
  }

  /** However late its exchange or login is written, no token of a version before a password change ever works again. */
  lemma OldVersionsStayRejected(states: seq<Race>, steps: seq<RaceStep>, k: nat, j: nat, u: UserId, a: AccessToken, r: RefreshToken)
    requires IsRace(states, steps) && k < j < |states| && a.sub == u && r.sub == u
    requires steps[k].Do? && ChangesPassword(steps[k].op, u) && Refusal(states[k].auth, steps[k].op).None?
    requires KnownAt(states[k].auth, u, a.version) && KnownAt(states[k].auth, u, r.version)
    ensures !Accepted(states[j].auth, a) && !Exchangeable(states[j].auth, r)
  {
    hide RaceApply, Apply;
    var version := states[k].auth.users[u].tokenVersion;
    assert IsRaceStep(states[k], steps[k], states[k + 1]);
    assert states[k + 1].auth == Apply(states[k].auth, steps[k].op) by { DoApplies(states[k], steps[k]); }
    StepKeepsVersion(states[k].auth, steps[k].op, u, version);
    VersionsNeverFallInRaces(states, steps, k + 1, j, u, version + 1);
  }

  lemma DoApplies(s: Race, step: RaceStep)
    requires step.Do? && Enabled(s, step)
    ensures RaceApply(s, step).auth == Apply(s.auth, step.op)
  {}
}
