/**
 * Friend requests whose checks and insert are separate awaits, interleaved with each other and with every other
 * operation: exactly when an insert spoils its pair, and what has to come in between.
 */
module SocialRaces {
  import opened Wrappers
  import opened Sequences
  import opened SocialModel
  import opened SocialTheorems

  type CallId = nat

  /** Where a sending call stands: past its checks, or done. */
  datatype Sending = Passed(fromUserId: UserId, toUserId: UserId) | Finished

  datatype Race = Race(social: Social, calls: map<CallId, Sending>)

  datatype RaceStep =
    | Check(call: CallId, fromUserId: UserId, toUserId: UserId, bothExist: bool)
    | Insert(call: CallId, id: RequestId)
    | Do(op: SocialOp)

  predicate Enabled(s: Race, step: RaceStep) {
    match step
    case Check(call, _, _, _) => call !in s.calls
    case Insert(call, id) => call in s.calls && s.calls[call].Passed? && id !in s.social.requests
    case Do(op) => !op.Send?
  }

  function RaceApply(s: Race, step: RaceStep): Race
    requires Enabled(s, step)
  {
    match step
    case Check(call, from, to, bothExist) =>
      s.(calls := s.calls[call := if SendRefusal(s.social, from, to, bothExist).None? then Passed(from, to) else Finished])
    case Insert(call, id) =>
      var Passed(from, to) := s.calls[call];
      Race(s.social.(requests := s.social.requests[id := Request(from, to, PENDING)]), s.calls[call := Finished])
    case Do(op) => s.(social := Apply(s.social, op))
  }

  ghost predicate IsRaceStep(s: Race, step: RaceStep, after: Race) {
    Enabled(s, step) && after == RaceApply(s, step)
  }

  ghost predicate IsRace(states: seq<Race>, steps: seq<RaceStep>) {
    |states| == |steps| + 1 && states[0] == Race(EMPTY, map[]) &&
    forall i :: 0 <= i < |steps| ==> IsRaceStep(states[i], steps[i], states[i + 1])
  }

  /** A request that nothing comes between is the request of one step. */
  lemma UndisturbedSend(s: Race, c: CallId, id: RequestId, from: UserId, to: UserId, bothExist: bool)
    requires c !in s.calls && id !in s.social.requests
    ensures var checked := RaceApply(s, Check(c, from, to, bothExist));
      checked.calls[c].Finished? <==> Refusal(s.social, Send(id, from, to, bothExist)).Some?
    ensures var checked := RaceApply(s, Check(c, from, to, bothExist));
      checked.calls[c].Passed? ==>
        RaceApply(checked, Insert(c, id)).social == Apply(s.social, Send(id, from, to, bothExist))
  {}

  // ---------- One step ----------

  /** What a request is meant to find between the two: no block, no friendship, and no pending request. */
  ghost predicate PairClear(s: Social, u: UserId, v: UserId) {
    !Blocked(s, u, v) && !AreFriends(s, u, v) && NonePending(s, u, v)
  }

  function Inserted(s: Social, id: RequestId, from: UserId, to: UserId): Social {
    s.(requests := s.requests[id := Request(from, to, PENDING)])
  }

  /** An insert keeps its pair sound exactly when the pair is still clear. */
  lemma InsertKeepsItsPairIff(s: Social, id: RequestId, u: UserId, v: UserId)
    requires id !in s.requests && PairSound(s, u, v)
    ensures PairSound(Inserted(s, id, u, v), u, v) <==> PairClear(s, u, v)
  {
    var after := Inserted(s, id, u, v);
    assert PendingBetween(after.requests[id], u, v);
    if !NonePending(s, u, v) {
      var j :| j in s.requests && PendingBetween(s.requests[j], u, v);
      assert j != id && j in after.requests && PendingBetween(after.requests[j], u, v);
    }
  }

  lemma InsertKeepsOtherPairs(s: Social, id: RequestId, x: UserId, y: UserId, u: UserId, v: UserId)
    requires id !in s.requests && PairSound(s, u, v) && PairOf(u, v) != PairOf(x, y)
    ensures PairSound(Inserted(s, id, x, y), u, v)
  {}

  /** The step spoils its pair: an insert into one that is not clear, or a block that misses a request. */
  ghost predicate Spoils(s: Race, step: RaceStep) {
    match step
    case Check(_, _, _, _) => false
    case Insert(call, _) =>
      call in s.calls && s.calls[call].Passed? && !PairClear(s.social, s.calls[call].fromUserId, s.calls[call].toUserId)
    case Do(op) => Refusal(s.social, op).None? && !StepCovers(s.social, op)
  }

  ghost predicate CallsDiffer(s: Race) {
    forall c :: c in s.calls && s.calls[c].Passed? ==> s.calls[c].fromUserId != s.calls[c].toUserId
  }

  lemma InsertKeepsInvIff(s: Social, id: RequestId, from: UserId, to: UserId)
    requires Inv(s) && id !in s.requests && from != to
    ensures Inv(Inserted(s, id, from, to)) <==> PairClear(s, from, to)
  {
    hide PairSound, PairClear, Inserted;
    var after := Inserted(s, id, from, to);
    assert PairSound(s, from, to);
    InsertKeepsItsPairIff(s, id, from, to);
    assert NoSelf(after) by { InsertKeepsNoSelf(s, id, from, to); }
    if PairClear(s, from, to) {
      forall u, v ensures PairSound(after, u, v) {
        assert PairSound(s, u, v);
        if PairOf(u, v) == PairOf(from, to) { SamePair(after, u, v, from, to); } else { InsertKeepsOtherPairs(s, id, from, to, u, v); }
      }
    }
  }

  lemma InsertKeepsNoSelf(s: Social, id: RequestId, from: UserId, to: UserId)
    requires NoSelf(s) && from != to
    ensures NoSelf(Inserted(s, id, from, to))
  {}

  lemma RaceStepKeepsInvIff(s: Race, step: RaceStep)
    requires Inv(s.social) && CallsDiffer(s) && Enabled(s, step)
    ensures Inv(RaceApply(s, step).social) <==> !Spoils(s, step)
    ensures CallsDiffer(RaceApply(s, step))
  {
    hide Inv, PairClear, Apply, StepCovers, Finds, Blocked, AreFriends;
    match step
    case Check(_, _, _, _) =>
    case Insert(call, id) => InsertKeepsInvIff(s.social, id, s.calls[call].fromUserId, s.calls[call].toUserId);
    case Do(op) => if Refusal(s.social, op).Some? { RefusedStepStays(s.social, op); } else { StepKeepsInvIff(s.social, op); }
  }

  lemma CallsStayDifferent(s: Race, step: RaceStep)
    requires CallsDiffer(s) && Enabled(s, step)
    ensures CallsDiffer(RaceApply(s, step))
  {
    hide Apply, Finds, Blocked, AreFriends;
  }

  lemma {:induction false} ReachableCallsDiffer(states: seq<Race>, steps: seq<RaceStep>, i: nat)
    requires IsRace(states, steps) && i < |states|
    ensures CallsDiffer(states[i])
  {
    hide RaceApply, Enabled;
    if i > 0 {
      ReachableCallsDiffer(states, steps, i - 1);
      assert IsRaceStep(states[i - 1], steps[i - 1], states[i]);
      CallsStayDifferent(states[i - 1], steps[i - 1]);
    }
  }

  // ---------- All interleavings ----------

  /** The invariant holds up to any point of an interleaving exactly when no step until then spoiled its pair. */
  lemma {:induction false} RacesKeepInvIff(states: seq<Race>, steps: seq<RaceStep>, n: nat)
    requires IsRace(states, steps) && n <= |steps|
    ensures (forall i :: 0 <= i <= n ==> Inv(states[i].social)) <==> (forall k :: 0 <= k < n ==> !Spoils(states[k], steps[k]))
  {
    hide Inv, Spoils, RaceApply, Enabled, CallsDiffer;
    if n == 0 {
      EmptyIsSound();
    } else {
      RacesKeepInvIff(states, steps, n - 1);
      ReachableCallsDiffer(states, steps, n - 1);
      assert IsRaceStep(states[n - 1], steps[n - 1], states[n]);
      if Inv(states[n - 1].social) { RaceStepKeepsInvIff(states[n - 1], steps[n - 1]); }
    }
  }

  // ---------- What has to come in between ----------

  /** The step blocks one of the two for the other, or inserts another request between them. */
  predicate Disturbs(s: Race, step: RaceStep, u: UserId, v: UserId) {
    (step.Insert? && step.call in s.calls && s.calls[step.call].Passed? &&
     PairOf(s.calls[step.call].fromUserId, s.calls[step.call].toUserId) == PairOf(u, v)) ||
    (step.Do? && step.op.BlockUser? && Refusal(s.social, step.op).None? &&
     PairOf(step.op.blockerId, step.op.blockedUserId) == PairOf(u, v))
  }

  /** Checks that see every pending request of the pair pass only when the pair is clear. */
  lemma PassedMeansClear(s: Social, from: UserId, to: UserId, bothExist: bool)
    requires SendRefusal(s, from, to, bothExist).None? && Covers(s, from, to, LOOKUP_LIMIT)
    ensures PairClear(s, from, to)
  {
    hide Evaluated;
    forall id | id in s.requests ensures !PendingBetween(s.requests[id], from, to) {
      assert !IsFound(s, id, from, to, PENDING) && !IsFound(s, id, to, from, PENDING);
    }
  }

  /** A clear pair stays clear until it is disturbed. */
  lemma ClearUntilDisturbed(s: Race, step: RaceStep, u: UserId, v: UserId)
    requires Enabled(s, step) && PairClear(s.social, u, v) && !Disturbs(s, step, u, v)
    ensures PairClear(RaceApply(s, step).social, u, v)
  {
    hide Evaluated, Finds;
    var after := RaceApply(s, step);
    if step.Do? && Refusal(s.social, step.op).None? {
      if step.op.Accept? {
        var r := s.social.requests[step.op.id];
        assert PairOf(r.fromUserId, r.toUserId) != PairOf(u, v);
      }
    }
  }

  lemma {:induction false} StaysClear(states: seq<Race>, steps: seq<RaceStep>, k: nat, i: nat, u: UserId, v: UserId)
    requires IsRace(states, steps) && k <= i < |states| && PairClear(states[k].social, u, v)
    requires forall m :: k <= m < i ==> !Disturbs(states[m], steps[m], u, v)
    ensures PairClear(states[i].social, u, v)
    decreases i
  {
    hide PairClear, Disturbs, RaceApply, Enabled;
    if k < i {
      StaysClear(states, steps, k, i - 1, u, v);
      assert IsRaceStep(states[i - 1], steps[i - 1], states[i]);
      ClearUntilDisturbed(states[i - 1], steps[i - 1], u, v);
    }
  }

  /**
   * An insert whose call's look-ups saw every pending request spoils its pair only if, between the checks and the
   * insert, another request for the pair is inserted or one of the two blocks the other.
   */
  lemma SpoiledInsertWasDisturbed(states: seq<Race>, steps: seq<RaceStep>, k: nat, i: nat)
    requires IsRace(states, steps) && k < i < |steps| && steps[k].Check? && steps[i].Insert? && steps[i].call == steps[k].call
    requires Covers(states[k].social, steps[k].fromUserId, steps[k].toUserId, LOOKUP_LIMIT)
    requires Spoils(states[i], steps[i])
    ensures exists m :: k < m < i && Disturbs(states[m], steps[m], steps[k].fromUserId, steps[k].toUserId)
  {
    hide PairClear, Covers;
    var u, v, c := steps[k].fromUserId, steps[k].toUserId, steps[k].call;
    CheckedCallStays(states, steps, k, i);
    assert IsRaceStep(states[k], steps[k], states[k + 1]);
    PassedMeansClear(states[k].social, u, v, steps[k].bothExist);
    if forall m :: k < m < i ==> !Disturbs(states[m], steps[m], u, v) {
      assert PairClear(states[k + 1].social, u, v);
      StaysClear(states, steps, k + 1, i, u, v);
    }
  }

  /** A call that is still to insert is the one that was checked. */
  lemma {:induction false} CheckedCallStays(states: seq<Race>, steps: seq<RaceStep>, k: nat, i: nat)
    requires IsRace(states, steps) && k < i < |states| && steps[k].Check?
    requires steps[k].call in states[i].calls && states[i].calls[steps[k].call].Passed?
    ensures states[i].calls[steps[k].call] == Passed(steps[k].fromUserId, steps[k].toUserId)
    ensures SendRefusal(states[k].social, steps[k].fromUserId, steps[k].toUserId, steps[k].bothExist).None?
    decreases i
  {
    hide Apply, SendRefusal;
    assert IsRaceStep(states[k], steps[k], states[k + 1]);
    if k + 1 < i {
      assert IsRaceStep(states[i - 1], steps[i - 1], states[i]);
      CallWasKnown(states, steps, k + 1, i - 1, steps[k].call);
      CheckedCallStays(states, steps, k, i - 1);
    }
  }

  lemma {:induction false} CallWasKnown(states: seq<Race>, steps: seq<RaceStep>, k: nat, i: nat, c: CallId)
    requires IsRace(states, steps) && k <= i < |states| && c in states[k].calls
    ensures c in states[i].calls
    decreases i
  {
    hide Apply, SendRefusal;
    if k < i {
      CallWasKnown(states, steps, k, i - 1, c);
      assert IsRaceStep(states[i - 1], steps[i - 1], states[i]);
    }
  }

  // ---------- Requests that cross ----------

  /** Users 1 and 2 write to each other at once: both pass their checks, both requests are stored, neither is found. */
  lemma CrossingRequests() returns (states: seq<Race>, steps: seq<RaceStep>)
    ensures IsRace(states, steps) && |steps| == 4 && steps[0] == Check(0, 1, 2, true) && steps[1] == Check(1, 2, 1, true)
    ensures Matches(states[4].social, 0, 1, 2, PENDING) && Matches(states[4].social, 1, 2, 1, PENDING)
    ensures Spoils(states[3], steps[3]) && !Inv(states[4].social)
  {
    var s2 := Race(EMPTY, map[0 := Passed(1, 2), 1 := Passed(2, 1)]);
    var s3 := Race(Inserted(EMPTY, 0, 1, 2), map[0 := Finished, 1 := Passed(2, 1)]);
    var s4 := Race(Inserted(s3.social, 1, 2, 1), map[0 := Finished, 1 := Finished]);
    states := [Race(EMPTY, map[]), Race(EMPTY, map[0 := Passed(1, 2)]), s2, s3, s4];
    steps := [Check(0, 1, 2, true), Check(1, 2, 1, true), Insert(0, 0), Insert(1, 1)];
    forall i | 0 <= i < 4 ensures IsRaceStep(states[i], steps[i], states[i + 1]) {
      assert !Finds(EMPTY, 1, 2, PENDING) && !Finds(EMPTY, 2, 1, PENDING);
    }
    assert PendingBetween(s4.social.requests[0], 1, 2) && PendingBetween(s4.social.requests[1], 1, 2);
    assert PendingBetween(s3.social.requests[0], 2, 1);
    assert !PairSound(s4.social, 1, 2);
  }

  /** User 2 blocks user 1 after the checks of a request, which is then stored beside the block. */
  lemma BlockInBetween() returns (states: seq<Race>, steps: seq<RaceStep>)
    ensures IsRace(states, steps) && |steps| == 3 && steps[1] == Do(BlockUser(2, 1, true))
    ensures Blocked(states[3].social, 1, 2) && Matches(states[3].social, 0, 1, 2, PENDING) && !Inv(states[3].social)
  {
    var s1 := Race(EMPTY, map[0 := Passed(1, 2)]);
    var s2 := Race(Apply(EMPTY, BlockUser(2, 1, true)), s1.calls);
    var s3 := Race(Inserted(s2.social, 0, 1, 2), map[0 := Finished]);
    states, steps := [Race(EMPTY, map[]), s1, s2, s3], [Check(0, 1, 2, true), Do(BlockUser(2, 1, true)), Insert(0, 0)];
    forall i | 0 <= i < 3 ensures IsRaceStep(states[i], steps[i], states[i + 1]) {
      assert !Finds(EMPTY, 1, 2, PENDING) && !Finds(EMPTY, 2, 1, PENDING);
    }
    assert PendingBetween(s3.social.requests[0], 1, 2);
    assert !PairSound(s3.social, 1, 2);
  }
}
