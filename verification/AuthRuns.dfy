/** Runs in which a session outlives its user's index, and interleavings in which exchanges and logins get in each other's way. */
module AuthRuns {
  import opened Wrappers
  import opened AuthModel
  import opened AuthTheorems
  import opened AuthSafety
  import opened AuthExpiry
  import opened AuthRaces
  import opened AuthRaceSessions

  // ---------- A session that outlives the index ----------

  const SIX_DAYS: nat := 6 * 24 * 60 * 60

  /** User 1 on the web on device 7, after `n` exchanges; the `i`th pair has the ids `2i` and `2i + 1`. */
  function AfterRenewals(n: nat): AuthState {
    AuthState(map[1 := User(1, false)], map[7 := Session(1, WEB, 2 * n + 1, 2 * n, 1)], map[1 := {7}],
      map[2 * n + 1 := RefreshRecord(1, 7, 1)], SpentAfter(n), {}, map[], Ids(2 * n + 2))
  }

  function SpentAfter(n: nat): (used: map<Jti, RefreshRecord>)
    ensures forall j: nat :: j in used ==> j < 2 * n
  {
    if n == 0 then map[] else SpentAfter(n - 1)[2 * n - 1 := RefreshRecord(1, 7, 1)]
  }

  function Ids(n: nat): (ids: set<Jti>)
    ensures forall j: nat :: j in ids <==> j < n
  {
    if n == 0 then {} else Ids(n - 1) + {n - 1}
  }

  const FIRST := Register(1, 7, WEB, false, false, Fresh(0, 1))

  function Renewal(n: nat): AuthOp {
    Refresh(RefreshToken(2 * n + 1, 1, 1, 7), Fresh(2 * n + 2, 2 * n + 3))
  }

  lemma RegisterFirst()
    ensures IsStep(EMPTY, FIRST, AfterRenewals(0))
  {
    var after := Apply(EMPTY, FIRST);
    assert Ids(2) == {0, 1};
    var created := EMPTY.(users := map[1 := User(1, false)]);
    assert Devices(created, 1) + {7} == {7};
    assert after == Issue(created, 1, 7, WEB, 1, Fresh(0, 1));
    assert after.sessionIndex == map[1 := {7}] && after.stored == map[1 := RefreshRecord(1, 7, 1)];
  }

  lemma RenewOnce(n: nat)
    ensures IsStep(AfterRenewals(n), Renewal(n), AfterRenewals(n + 1))
  {
    var after := Apply(AfterRenewals(n), Renewal(n));
    assert Refusal(AfterRenewals(n), Renewal(n)).None?;
    assert after.sessions == AfterRenewals(n + 1).sessions;
    assert after.stored == AfterRenewals(n + 1).stored;
    assert after.used == AfterRenewals(n + 1).used;
    assert after.issued == AfterRenewals(n + 1).issued by { assert Ids(2 * n + 4) == Ids(2 * n + 2) + {2 * n + 2, 2 * n + 3}; }
  }

  lemma ExtendRun(states: seq<AuthState>, ops: seq<AuthOp>, op: AuthOp, after: AuthState)
    returns (longer: seq<AuthState>, more: seq<AuthOp>)
    requires IsRun(states, ops) && IsStep(states[|states| - 1], op, after)
    ensures longer == states + [after] && more == ops + [op] && IsRun(longer, more)
  {
    hide IsStep;
    longer, more := states + [after], ops + [op];
    forall i | 0 <= i < |more| ensures IsStep(longer[i], more[i], longer[i + 1]) {
      if i < |ops| { assert IsStep(states[i], ops[i], states[i + 1]); }
    }
  }

  /** The user registers and exchanges his token every six days. */
  lemma {:induction false} RenewFor(n: nat) returns (states: seq<AuthState>, ops: seq<AuthOp>)
    ensures IsRun(states, ops) && |ops| == n + 1 && ops[0] == FIRST && states[n + 1] == AfterRenewals(n)
    ensures forall k :: 0 < k <= n ==> ops[k].Refresh?
  {
    hide IsStep, AfterRenewals;
    if n == 0 {
      RegisterFirst();
      states, ops := [EMPTY, AfterRenewals(0)], [FIRST];
    } else {
      states, ops := RenewFor(n - 1);
      RenewOnce(n - 1);
      states, ops := ExtendRun(states, ops, Renewal(n - 1), AfterRenewals(n));
    }
  }

  /** The index has run out, and the session has just been renewed. */
  function Outlived(): AuthState {
    AfterRenewals(5).(sessionIndex := map[])
  }

  /** Thirty days after the registration the index runs out, while the session has just been renewed. */
  lemma OutliveTheIndex() returns (states: seq<AuthState>, ops: seq<AuthOp>)
    ensures IsRun(states, ops) && |ops| == 7 && ops[0] == FIRST && ops[6] == ExpireIndex(1)
    ensures forall k :: 0 < k <= 5 ==> ops[k].Refresh?
    ensures states[7] == Outlived()
  {
    hide IsStep, AfterRenewals, Outlived;
    states, ops := RenewFor(5);
    ExpiryOutlived();
    states, ops := ExtendRun(states, ops, ExpireIndex(1), Outlived());
  }

  lemma ExpiryOutlived()
    ensures IsStep(AfterRenewals(5), ExpireIndex(1), Outlived())
  {
    assert Apply(AfterRenewals(5), ExpireIndex(1)).sessionIndex == map[];
  }

  lemma AboutOutlived()
    ensures var s := Outlived();
      s.users == map[1 := User(1, false)] && s.sessions == map[7 := Session(1, WEB, 11, 10, 1)] && s.sessionIndex == map[] &&
      s.stored == map[11 := RefreshRecord(1, 7, 1)] && s.blacklist == {} && forall j: nat :: j in s.issued <==> j < 12
  {}

  /** When it all happens: an exchange every six days, the expiry a lifetime after the registration, and what follows. */
  function Schedule(): seq<nat> {
    [0, SIX_DAYS, 2 * SIX_DAYS, 3 * SIX_DAYS, 4 * SIX_DAYS, 5 * SIX_DAYS, LIFETIME, LIFETIME + 1]
  }

  lemma ScheduleKeepsLifetimes(states: seq<AuthState>, ops: seq<AuthOp>)
    requires |ops| == 8 && |states| == 9 && ops[0] == FIRST && ops[6] == ExpireIndex(1) && !ops[7].ExpireIndex?
    requires forall k :: 0 < k <= 5 ==> ops[k].Refresh?
    ensures KeepsLifetimes(states, ops, Schedule())
  {
    hide Refusal;
  }

  /** Working tokens of a device: its session's own access and refresh token. */
  ghost predicate Works(s: AuthState, d: DeviceId) {
    d in s.sessions && Accepted(s, AccessTokenOf(s, d)) && Exchangeable(s, RefreshTokenOf(s, d))
  }

  const ELSEWHERE := Login(1, 8, WEB, true, false, Fresh(12, 13))

  /** Then a web login on device 8 finds nothing to end, and both web sessions work. */
  lemma ExpiredIndexLeavesTwoWebSessions() returns (states: seq<AuthState>, ops: seq<AuthOp>, times: seq<nat>)
    ensures IsRun(states, ops) && |times| == |ops| == 8 && KeepsLifetimes(states, ops, times)
    ensures WebLogin(states[7], ops[7], 1) && ops[7].deviceId == 8
    ensures IsWeb(states[8], 1, 7) && IsWeb(states[8], 1, 8) && Works(states[8], 7) && Works(states[8], 8)
  {
    hide IsStep, KeepsLifetimes, Outlived, Schedule, Works, IsWeb, WebLogin, Issue;
    states, ops := OutliveTheIndex();
    var after := Issue(Outlived(), 1, 8, WEB, 1, Fresh(12, 13));
    LoginBeside();
    BothWork(Outlived(), after);
    states, ops := ExtendRun(states, ops, ELSEWHERE, after);
    times := Schedule();
    assert |Schedule()| == 8 by { ScheduleLength(); }
    ScheduleKeepsLifetimes(states, ops);
  }

  lemma ScheduleLength()
    ensures |Schedule()| == 8
  {}

  lemma LoginBeside()
    ensures IsStep(Outlived(), ELSEWHERE, Issue(Outlived(), 1, 8, WEB, 1, Fresh(12, 13))) && WebLogin(Outlived(), ELSEWHERE, 1)
  {
    hide BeforeLogin, Outlived, Issue;
    AboutOutlived();
    LoginFindsNothing(Outlived(), 1, 8);
  }

  lemma BothWork(s: AuthState, after: AuthState)
    requires s == Outlived() && after == Issue(s, 1, 8, WEB, 1, Fresh(12, 13))
    ensures IsWeb(after, 1, 7) && IsWeb(after, 1, 8) && Works(after, 7) && Works(after, 8)
  {
    hide Outlived;
    AboutOutlived();
  }

  /** And logging out everywhere ends nothing. */
  lemma ExpiredIndexEscapesLogoutEverywhere() returns (states: seq<AuthState>, ops: seq<AuthOp>, times: seq<nat>)
    ensures IsRun(states, ops) && |times| == |ops| == 8 && KeepsLifetimes(states, ops, times)
    ensures ops[7] == RevokeAll(1) && Works(states[7], 7) && Works(states[8], 7)
  {
    hide IsStep, KeepsLifetimes, Outlived, Schedule, Works;
    states, ops := OutliveTheIndex();
    LogoutMisses();
    states, ops := ExtendRun(states, ops, RevokeAll(1), Outlived());
    times := Schedule();
    assert |Schedule()| == 8 by { ScheduleLength(); }
    ScheduleKeepsLifetimes(states, ops);
  }

  lemma LogoutMisses()
    ensures IsStep(Outlived(), RevokeAll(1), Outlived()) && Works(Outlived(), 7)
  {
    hide Outlived;
    AboutOutlived();
    var s := Outlived();
    assert Listed(s, 1) == {};
    RevokeNone(s);
  }

  lemma LoginFindsNothing(s: AuthState, u: UserId, d: DeviceId)
    requires d !in s.sessions && u !in s.sessionIndex
    ensures BeforeLogin(s, u, d, WEB) == s
  {
    LoginChangesNothing(s, u, d);
  }

  lemma LoginChangesNothing(s: AuthState, u: UserId, d: DeviceId)
    requires d !in s.sessions && Listed(s, u) == Devices(s, u) && Elsewhere(s, u, WEB, d) == {}
    ensures BeforeLogin(s, u, d, WEB) == s
  {
    hide RevokeDevices;
    assert CleanIndex(s, u) == s;
    RevokeNone(s);
  }

  // ---------- Interleavings ----------

  lemma ExtendRace(states: seq<Race>, steps: seq<RaceStep>, step: RaceStep, after: Race)
    returns (longer: seq<Race>, more: seq<RaceStep>)
    requires IsRace(states, steps) && IsRaceStep(states[|states| - 1], step, after)
    ensures longer == states + [after] && more == steps + [step] && IsRace(longer, more)
  {
    hide IsRaceStep;
    longer, more := states + [after], steps + [step];
    forall i | 0 <= i < |more| ensures IsRaceStep(longer[i], more[i], longer[i + 1]) {
      if i < |steps| { assert IsRaceStep(states[i], steps[i], states[i + 1]); }
    }
  }

  /** User 1 has registered on the web on device 7, and holds the refresh token `HELD`. */
  function Start(): Race {
    Race(AfterRenewals(0), map[])
  }

  const HELD := RefreshToken(1, 1, 1, 7)

  lemma StartRace() returns (states: seq<Race>, steps: seq<RaceStep>)
    ensures states == [Race(EMPTY, map[]), Start()] && steps == [Do(FIRST)] && IsRace(states, steps)
  {
    hide Apply;
    RegisterFirst();
    states, steps := [Race(EMPTY, map[]), Start()], [Do(FIRST)];
    assert IsRaceStep(states[0], steps[0], states[1]);
  }

  lemma HeldIsExchangeable()
    ensures Exchangeable(AfterRenewals(0), HELD) && Works(AfterRenewals(0), 7)
    ensures forall j: nat :: j in AfterRenewals(0).issued <==> j < 2
    ensures AfterRenewals(0).stored == map[1 := RefreshRecord(1, 7, 1)] && AfterRenewals(0).used == map[]
  {}

  lemma BothMayWrite(once: AuthState, twice: AuthState)
    requires once == Reissue(AfterRenewals(0), HELD, Fresh(2, 3)) && twice == Reissue(once, HELD, Fresh(4, 5))
    ensures FreshFor(AfterRenewals(0), Fresh(2, 3)) && FreshFor(once, Fresh(4, 5))
    ensures twice.sessions == map[7 := Session(1, WEB, 1, 0, 1)]
    ensures Works(PutSession(twice, 7, Session(1, WEB, 5, 4, 1)), 7)
  {
    HeldIsExchangeable();
  }

  /** Two calls pass their checks with one token before either writes, and both exchange it; the later pair works. */
  lemma TwoCallsExchangeOneToken() returns (states: seq<Race>, steps: seq<RaceStep>)
    ensures IsRace(states, steps) && |steps| == 9 && Completed(states[9]) && Quiet(states[9])
    ensures ExchangedTwice(states, steps, HELD.jti) && Works(states[9].auth, 7)
  {
    hide IsRace, AfterRenewals, Reissue, Exchangeable, FreshFor, Works;
    var f, g := Fresh(2, 3), Fresh(4, 5);
    var once := Reissue(AfterRenewals(0), HELD, f);
    var twice := Reissue(once, HELD, g);
    HeldIsExchangeable();
    BothMayWrite(once, twice);
    states, steps := StartRace();
    states, steps := ExtendRace(states, steps, Check(0, HELD), Race(AfterRenewals(0), map[0 := Checked(HELD)]));
    var checked := Race(AfterRenewals(0), map[0 := Checked(HELD)][1 := Checked(HELD)]);
    states, steps := ExtendRace(states, steps, Check(1, HELD), checked);
    var written := Race(once, checked.calls[0 := Reissued(HELD, f)]);
    states, steps := ExtendRace(states, steps, Write(0, f), written);
    var both := Race(twice, written.calls[1 := Reissued(HELD, g)]);
    states, steps := ExtendRace(states, steps, Write(1, g), both);
    states, steps := PutBoth(states, steps, both, f, g);
    assert states[3] == checked && steps[3] == Write(0, f) && Writes(states[3], steps[3], 0, HELD.jti);
    assert states[4] == written && steps[4] == Write(1, g) && Writes(states[4], steps[4], 1, HELD.jti);
  }

  /** Both calls then read and write the session, one after the other. */
  lemma PutBoth(states: seq<Race>, steps: seq<RaceStep>, s: Race, f: Fresh, g: Fresh)
    returns (longer: seq<Race>, more: seq<RaceStep>)
    requires IsRace(states, steps) && states[|states| - 1] == s
    requires s.calls == map[0 := Reissued(HELD, f), 1 := Reissued(HELD, g)] && s.auth.sessions == map[7 := Session(1, WEB, 1, 0, 1)]
    ensures IsRace(longer, more) && |more| == |steps| + 4 && states <= longer && steps <= more
    ensures longer[|more|] == Race(PutSession(s.auth, 7, Session(1, WEB, g.refreshJti, g.accessJti, 1)), map[0 := Finished, 1 := Finished])
  {
    var x, y := Session(1, WEB, 1, 0, 1), Session(1, WEB, f.refreshJti, f.accessJti, 1);
    var s1 := s.(calls := map[0 := Updating(HELD, f, x), 1 := Reissued(HELD, g)]);
    longer, more := ExtendRace(states, steps, Read(0), s1);
    var s2 := Race(PutSession(s.auth, 7, y), map[0 := Finished, 1 := Reissued(HELD, g)]);
    longer, more := ExtendRace(longer, more, Put(0), s2);
    var s3 := s2.(calls := map[0 := Finished, 1 := Updating(HELD, g, y)]);
    longer, more := ExtendRace(longer, more, Read(1), s3);
    var s4 := Race(PutSession(s2.auth, 7, Renewed(y, HELD, g)), map[0 := Finished, 1 := Finished]);
    assert PutSession(s2.auth, 7, Renewed(y, HELD, g)) == PutSession(s.auth, 7, Session(1, WEB, g.refreshJti, g.accessJti, 1));
    longer, more := ExtendRace(longer, more, Put(1), s4);
  }

  /** The user registers in the app, and two web logins both end his earlier sessions before either writes its own. */
  lemma OverlappingLoginsLeaveTwo() returns (states: seq<Race>, steps: seq<RaceStep>)
    ensures IsRace(states, steps) && |steps| == 5 && LoginsOverlap(states[3], steps[3], 1)
    ensures IsWeb(states[5].auth, 1, 7) && IsWeb(states[5].auth, 1, 8) && Works(states[5].auth, 7) && Works(states[5].auth, 8)
  {
    hide IsRace, BeforeLogin, Issue, Apply, Works, FreshFor;
    var s1 := Apply(EMPTY, IN_THE_APP);
    var s4 := Issue(s1, 1, 7, WEB, 1, Fresh(2, 3));
    var s5 := Issue(s4, 1, 8, WEB, 1, Fresh(4, 5));
    AppThenTwo(s1, s4, s5);
    EmptyRace();
    states, steps := ExtendRace([Race(EMPTY, map[])], [], Do(IN_THE_APP), Race(s1, map[]));
    var first, second := LoggingIn(1, 7, WEB, 1), LoggingIn(1, 8, WEB, 1);
    states, steps := ExtendRace(states, steps, StartLogin(0, 1, 7, WEB), Race(s1, map[0 := first]));
    states, steps := ExtendRace(states, steps, StartLogin(1, 1, 8, WEB), Race(s1, map[0 := first][1 := second]));
    states, steps := ExtendRace(states, steps, FinishLogin(0, Fresh(2, 3)), Race(s4, map[0 := Finished][1 := second]));
    states, steps := ExtendRace(states, steps, FinishLogin(1, Fresh(4, 5)), Race(s5, map[0 := Finished][1 := Finished]));
    assert 1 in states[3].calls && IsWebLogin(states[3].calls[1], 1);
  }

  const IN_THE_APP := Register(1, 6, APP, false, false, Fresh(0, 1))

  lemma EmptyRace()
    ensures IsRace([Race(EMPTY, map[])], [])
  {}

  lemma AppThenTwo(s1: AuthState, s4: AuthState, s5: AuthState)
    requires s1 == Apply(EMPTY, IN_THE_APP)
    requires s4 == Issue(s1, 1, 7, WEB, 1, Fresh(2, 3)) && s5 == Issue(s4, 1, 8, WEB, 1, Fresh(4, 5))
    ensures Allowed(EMPTY, IN_THE_APP) && s1.users == map[1 := User(1, false)]
    ensures BeforeLogin(s1, 1, 7, WEB) == s1 && BeforeLogin(s1, 1, 8, WEB) == s1
    ensures FreshFor(s1, Fresh(2, 3)) && FreshFor(s4, Fresh(4, 5))
    ensures IsWeb(s5, 1, 7) && IsWeb(s5, 1, 8) && Works(s5, 7) && Works(s5, 8)
  {
    hide BeforeLogin;
    LoginChangesNothing(s1, 1, 7);
    LoginChangesNothing(s1, 1, 8);
  }

  /** An exchange has spent its token and read the session, and waits to write it. */
  lemma ReadTheSession() returns (states: seq<Race>, steps: seq<RaceStep>)
    ensures IsRace(states, steps) && |steps| == 4 && |states| == 5
    ensures states[4] == Race(Reissue(AfterRenewals(0), HELD, Fresh(2, 3)), map[0 := WAITING])
  {
    hide IsRace, AfterRenewals, Reissue, Exchangeable, FreshFor, Works;
    HeldIsExchangeable();
    var s := Reissue(AfterRenewals(0), HELD, Fresh(2, 3));
    AboutReissued(s);
    states, steps := StartRace();
    states, steps := ExtendRace(states, steps, Check(0, HELD), Race(AfterRenewals(0), map[0 := Checked(HELD)]));
    states, steps := ExtendRace(states, steps, Write(0, Fresh(2, 3)), Race(s, map[0 := Reissued(HELD, Fresh(2, 3))]));
    states, steps := ExtendRace(states, steps, Read(0), Race(s, map[0 := WAITING]));
  }

  const WAITING := Updating(HELD, Fresh(2, 3), Session(1, WEB, 1, 0, 1))

  lemma AboutReissued(s: AuthState)
    requires s == Reissue(AfterRenewals(0), HELD, Fresh(2, 3))
    ensures FreshFor(AfterRenewals(0), Fresh(2, 3)) && FreshFor(s, Fresh(4, 5))
    ensures s.users == map[1 := User(1, false)] && s.sessions == map[7 := Session(1, WEB, 1, 0, 1)]
    ensures s.sessionIndex == map[1 := {7}] && s.stored == map[3 := RefreshRecord(1, 7, 1)] && s.blacklist == {}
  {
    HeldIsExchangeable();
  }

  /** The user logs out everywhere in between: the session that was read comes back, and its new pair works. */
  lemma ExchangeRevivesTheSession() returns (states: seq<Race>, steps: seq<RaceStep>)
    ensures IsRace(states, steps) && |steps| == 6 && steps[4] == Do(RevokeAll(1))
    ensures HasNone(states[5].auth, 1) && Revives(states[5], steps[5], 1) && Works(states[6].auth, 7)
    ensures !AllListed(states[6].auth, 1)
  {
    hide IsRace, Reissue, HasNone, Works, Apply, AllListed;
    states, steps := ReadTheSession();
    var s := states[4].auth;
    var out := Apply(s, RevokeAll(1));
    var back := PutSession(out, 7, Session(1, WEB, 3, 2, 1));
    PutAfterLogout(s, out, back);
    states, steps := ExtendRace(states, steps, Do(RevokeAll(1)), Race(out, map[0 := WAITING]));
    states, steps := ExtendRace(states, steps, Put(0), Race(back, map[0 := Finished]));
    assert !IsWeb(out, 1, 7) by { assert !Owns(out, 1, 7) by { NoneOwned(out); } }
  }

  lemma NoneOwned(s: AuthState)
    requires HasNone(s, 1)
    ensures !Owns(s, 1, 7)
  {}

  lemma PutAfterLogout(s: AuthState, out: AuthState, back: AuthState)
    requires s == Reissue(AfterRenewals(0), HELD, Fresh(2, 3)) && out == Apply(s, RevokeAll(1))
    requires back == PutSession(out, 7, Session(1, WEB, 3, 2, 1))
    ensures HasNone(out, 1) && Works(back, 7) && !AllListed(back, 1)
  {
    hide Reissue, AfterRenewals, RevokeListed;
    AboutReissued(s);
    EndSeven(s);
    assert Listed(s, 1) == {7};
    assert Owns(back, 1, 7) && 7 !in Devices(back, 1);
  }

  /** Or he logs in on the web elsewhere, which ends the session that was read: then he has two web sessions. */
  lemma ExchangeLeavesTwoWebSessions() returns (states: seq<Race>, steps: seq<RaceStep>)
    ensures IsRace(states, steps) && |steps| == 7 && Revives(states[6], steps[6], 1) && Quiet(states[7])
    ensures IsWeb(states[7].auth, 1, 7) && IsWeb(states[7].auth, 1, 8) && Works(states[7].auth, 7) && Works(states[7].auth, 8)
  {
    hide IsRace, Reissue, Works, BeforeLogin, Issue, FreshFor;
    states, steps := ReadTheSession();
    var s := states[4].auth;
    var before := BeforeLogin(s, 1, 8, WEB);
    var after := Issue(before, 1, 8, WEB, 1, Fresh(4, 5));
    var back := PutSession(after, 7, Session(1, WEB, 3, 2, 1));
    PutAfterLogin(s, before, after, back);
    AboutReissued(s);
    states, steps := ExtendRace(states, steps, StartLogin(1, 1, 8, WEB), Race(before, map[0 := WAITING][1 := LoggingIn(1, 8, WEB, 1)]));
    states, steps := ExtendRace(states, steps, FinishLogin(1, Fresh(4, 5)), Race(after, map[0 := WAITING][1 := Finished]));
    states, steps := ExtendRace(states, steps, Put(0), Race(back, map[0 := Finished][1 := Finished]));
  }

  lemma PutAfterLogin(s: AuthState, before: AuthState, after: AuthState, back: AuthState)
    requires s == Reissue(AfterRenewals(0), HELD, Fresh(2, 3)) && before == BeforeLogin(s, 1, 8, WEB)
    requires after == Issue(before, 1, 8, WEB, 1, Fresh(4, 5)) && back == PutSession(after, 7, Session(1, WEB, 3, 2, 1))
    ensures FreshFor(before, Fresh(4, 5)) && !IsWeb(after, 1, 7)
    ensures IsWeb(back, 1, 7) && IsWeb(back, 1, 8) && Works(back, 7) && Works(back, 8)
  {
    hide Reissue, BeforeLogin, AfterRenewals;
    AboutReissued(s);
    LoginEndsSeven(s);
  }

  predicate OnSeven(s: AuthState) {
    s.sessions == map[7 := Session(1, WEB, 1, 0, 1)] && s.sessionIndex == map[1 := {7}] && s.blacklist == {} &&
    s.stored == map[3 := RefreshRecord(1, 7, 1)]
  }

  lemma EndSeven(s: AuthState)
    requires OnSeven(s)
    ensures RevokeListed(s, 1, {7}) == s.(sessions := map[], sessionIndex := map[1 := {}], blacklist := {0})
  {
    var cleaned := set d | d in s.sessionIndex[1] && d in s.sessions;
    assert cleaned == {7};
    assert s.sessionIndex[1 := cleaned] == s.sessionIndex;
    assert RefreshJtis(s, {7}) == {1} && AccessJtis(s, {7}) == {0};
    var after := RevokeDevices(s, {7});
    assert after.sessions == map[] && after.stored == s.stored && after.blacklist == {0};
    assert after.sessionIndex == map[1 := {}] by { assert after.sessionIndex[1] == {}; }
  }

  lemma LoginEndsSeven(s: AuthState)
    requires OnSeven(s)
    ensures BeforeLogin(s, 1, 8, WEB) == s.(sessions := map[], sessionIndex := map[1 := {}], blacklist := {0})
  {
    hide RevokeListed;
    EndSeven(s);
    assert Elsewhere(s, 1, WEB, 8) == {7};
  }

  const OTHER_USER := Register(2, 7, WEB, false, false, Fresh(4, 5))

  /**
   * A second user takes the device over between an exchange's checks and its reading of the session: his session gets
   * the first user's new pair, and no token of the device works for either.
   */
  lemma ExchangeMixesTwoUsers() returns (states: seq<Race>, steps: seq<RaceStep>)
    ensures IsRace(states, steps) && |steps| == 6 && MixesUsers(states[5], steps[5]) && Quiet(states[6])
    ensures Works(states[3].auth, 7) && Owns(states[6].auth, 2, 7)
    ensures forall r: RefreshToken :: r.deviceId == 7 ==> !Exchangeable(states[6].auth, r)
    ensures !Accepted(states[6].auth, AccessToken(2, 1, 1, 7)) && !Accepted(states[6].auth, AccessToken(4, 2, 1, 7))
  {
    hide IsRace, Apply, Reissue, Works, FreshFor, Exchangeable, Accepted;
    HeldIsExchangeable();
    var taken := Apply(AfterRenewals(0), OTHER_USER);
    var written := Reissue(taken, HELD, Fresh(2, 3));
    var mixed := PutSession(written, 7, Session(2, WEB, 3, 2, 1));
    TakeOver(taken, written, mixed);
    states, steps := StartRace();
    states, steps := ExtendRace(states, steps, Check(0, HELD), Race(AfterRenewals(0), map[0 := Checked(HELD)]));
    states, steps := ExtendRace(states, steps, Do(OTHER_USER), Race(taken, map[0 := Checked(HELD)]));
    states, steps := ExtendRace(states, steps, Write(0, Fresh(2, 3)), Race(written, map[0 := Reissued(HELD, Fresh(2, 3))]));
    var reading := Updating(HELD, Fresh(2, 3), Session(2, WEB, 5, 4, 1));
    states, steps := ExtendRace(states, steps, Read(0), Race(written, map[0 := reading]));
    states, steps := ExtendRace(states, steps, Put(0), Race(mixed, map[0 := Finished]));
  }

  lemma TakeOver(taken: AuthState, written: AuthState, mixed: AuthState)
    requires taken == Apply(AfterRenewals(0), OTHER_USER) && written == Reissue(taken, HELD, Fresh(2, 3))
    requires mixed == PutSession(written, 7, Session(2, WEB, 3, 2, 1))
    ensures Allowed(AfterRenewals(0), OTHER_USER) && FreshFor(taken, Fresh(2, 3)) && Works(taken, 7)
    ensures written.sessions == map[7 := Session(2, WEB, 5, 4, 1)]
    ensures forall r: RefreshToken :: r.deviceId == 7 ==> !Exchangeable(mixed, r)
    ensures !Accepted(mixed, AccessToken(2, 1, 1, 7)) && !Accepted(mixed, AccessToken(4, 2, 1, 7))
  {
    hide AfterRenewals, Apply;
    TakeTheDevice(taken);
    assert mixed.stored[3] == RefreshRecord(1, 7, 1);
  }

  lemma TakeTheDevice(taken: AuthState)
    requires taken == Apply(AfterRenewals(0), OTHER_USER)
    ensures Allowed(AfterRenewals(0), OTHER_USER)
    ensures taken.users == map[1 := User(1, false), 2 := User(1, false)] && taken.sessions == map[7 := Session(2, WEB, 5, 4, 1)]
    ensures taken.stored == map[1 := RefreshRecord(1, 7, 1), 5 := RefreshRecord(2, 7, 1)] && taken.blacklist == {}
    ensures forall j: nat :: j in taken.issued <==> j < 2 || j == 4 || j == 5
  {
    hide AfterRenewals;
    AboutFirst();
  }

  lemma AboutFirst()
    ensures var s := AfterRenewals(0);
      s.users == map[1 := User(1, false)] && s.sessions == map[7 := Session(1, WEB, 1, 0, 1)] && s.blacklist == {} &&
      s.stored == map[1 := RefreshRecord(1, 7, 1)] && forall j: nat :: j in s.issued <==> j < 2
  {}
}
